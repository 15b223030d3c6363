/** `emit_body` and the two assemblers: from a list of parameter classes to the statements of the wrapper's body
  * (dev/generate.py:1861-2287, 2332-2696, 2697-2923). */
module GenEmit {
  import opened GenIR

  predicate Staged(c: Class) {
    c.StageIn? || c.StageNarrow? || c.StageInout? || c.StageOut? || c.StageStatus?
  }

  predicate Sized(c: Class) {
    Staged(c) || c.MapOut?
  }

  predicate AnyStaged(g: Signature) {
    exists i :: 0 <= i < |g.params| && Staged(g.params[i])
  }

  /** Arrays only the implementation reads. */
  predicate InMode(c: Class) {
    c.StageIn? || c.StageNarrow?
  }

  /** The implementation may go on reading the temporaries after the call has returned: it hands back a request. */
  predicate Outlives(g: Signature) {
    (exists i :: 0 <= i < |g.params| && InMode(g.params[i])) && HandleOut(REQUEST) in g.params
  }

  /** The body can convert a handle outwards, so a failed conversion has to be reported. */
  predicate HandleOuts(g: Signature, handles: set<Family>) {
    exists i :: 0 <= i < |g.params| && HandleOutClass(g.params[i], handles)
  }

  predicate HandleOutClass(c: Class, handles: set<Family>) {
    match c
    case HandleOut(_) => true
    case Inout(fam) => fam in handles
    case StageInout(_) => true
    case StageOut(fam, _) => fam in handles
    case _ => false
  }

  // ---------------------------------------------------------------- what an early exit owes the caller

  function NullHandles(g: Signature, w: World, i: nat): seq<(nat, int)>
    requires i <= |g.params|
    decreases |g.params| - i
  {
    if i == |g.params| then []
    else (if g.params[i].HandleOut? then [(i, w.abiNull(g.params[i].fam))] else []) + NullHandles(g, w, i + 1)
  }

  predicate Zeroable(c: Class) {
    c.LargeZero? || ((c.PassPtr? || c.ScalarOut?) && c.zeroable)
  }

  function Zeros(g: Signature, i: nat): seq<(nat, int)>
    requires i <= |g.params|
    decreases |g.params| - i
  {
    if i == |g.params| then []
    else (if Zeroable(g.params[i]) then [(i, 0)] else []) + Zeros(g, i + 1)
  }

  function OutDefined(g: Signature, w: World): seq<(nat, int)> {
    NullHandles(g, w, 0) + Zeros(g, 0)
  }

  function Defines(defs: seq<(nat, int)>): (r: seq<Stmt>)
    ensures |r| == |defs| && forall k :: 0 <= k < |defs| ==> r[k] == Define(defs[k].0, defs[k].1)
  {
    seq(|defs|, k requires 0 <= k < |defs| => Define(defs[k].0, defs[k].1))
  }

  // ---------------------------------------------------------------- one parameter's share of each group of lines

  function Rows(g: Signature, i: nat): seq<Stmt>
    requires i < |g.params|
  {
    match g.params[i]
    case In(fam) => [Convert(i, fam)]
    case Buffer(fam, flagged) => [Convert(i, fam)] + if flagged then [InPlaceFlag(i)] else []
    case PassPtr(_) => [Alias(i)]
    case Narrow(_, _, _) => [Init(i, 0)]
    case NarrowInout(_) => [Init(i, 0)]
    case Subst(_) => [Convert(i, IDENTITY)]
    case Inout(fam) => [Convert(i, fam)]
    case StatusOut => [AbsentFlag(i)]
    case StageStatus(_) => [AbsentFlag(i)]
    case StageOut(_, _) => if g.nullable then [AbsentFlag(i)] else []
    case MapOut(_, _) => [Alias(i)]
    case _ => []
  }

  function Check(g: Signature, w: World, i: nat, seen: set<nat>): seq<Stmt>
    requires i < |g.params|
  {
    var c, defs := g.params[i], OutDefined(g, w);
    if c.Narrow? || c.NarrowInout? then [NarrowOr(i, c.bytes, defs)]
    else if Staged(c) && c.ext.alloc.OfParam? then
      var l := c.ext.alloc.index;
      (if l in seen then [] else [NotNegativeOr(l, defs)])
      + if c.ext.wide then [NoOverflowOr(l, c.ext.size, defs)] else []
    else []
  }

  function Seen(g: Signature, i: nat, seen: set<nat>): set<nat>
    requires i < |g.params|
  {
    var c := g.params[i];
    if Staged(c) && c.ext.alloc.OfParam? then seen + {c.ext.alloc.index} else seen
  }

  /** One past the last parameter some check is keyed on: the checks follow its declaration. */
  function Cut(g: Signature, i: nat): (m: nat)
    requires i <= |g.params|
  {
    if i == 0 then 0
    else
      var c, m := g.params[i - 1], Cut(g, i - 1);
      if (c.Narrow? || c.NarrowInout?) && i > m then i
      else if Staged(c) && c.ext.alloc.OfParam? && c.ext.alloc.index + 1 > m then c.ext.alloc.index + 1
      else m
  }

  function ArgOf(g: Signature, i: nat): seq<Arg>
    requires i < |g.params|
  {
    match g.params[i]
    case In(_) => [Value(i)]
    case Buffer(_, _) => [Value(i)]
    case PassPtr(_) => [Caller(i)]
    case Narrow(_, sub, id) => if sub then [ProbeLen(id)] else [Value(i)]
    case Subst(id) => [ProbeLen(id)]
    case NarrowInout(_) => [Addr(i)]
    case HandleOut(_) => if g.nullable then [OrNull(i)] else [Addr(i)]
    case ScalarOut(_, _) => if g.nullable then [OrNull(i)] else [Addr(i)]
    case Inout(_) => [Addr(i)]
    case LargeZero => []
    case LargeVoid => []
    case StatusOut => [Arg.Status(i)]
    case StageIn(_, _, _, _) => [Temp(i)]
    case StageNarrow(_, _, _, _) => [Temp(i)]
    case StageInout(_) => [Temp(i)]
    case StageOut(_, _) => if g.nullable then [SkipTemp(i)] else [Temp(i)]
    case StageStatus(_) => [SkipTemp(i)]
    case MapOut(_, _) => [Caller(i)]
  }

  function OutLocal(g: Signature, w: World, i: nat): seq<Stmt>
    requires i < |g.params|
  {
    match g.params[i]
    case HandleOut(fam) => if g.nullable then [Init(i, w.implNull(fam))] else [Local(i)]
    case ScalarOut(_, _) => if g.nullable then [Init(i, 0)] else [Local(i)]
    case StatusOut => [Init(i, 0)]
    case _ => []
  }

  function Post(g: Signature, i: nat): seq<Stmt>
    requires i < |g.params|
  {
    match g.params[i]
    case NarrowInout(_) => [Store(i, IDENTITY)]
    case HandleOut(fam) => [StoreHandle(i, fam)]
    case ScalarOut(fam, _) => [Store(i, fam)]
    case Inout(fam) => [Store(i, fam)]
    case LargeZero => [Define(i, 0)]
    case StatusOut => [StoreStatus(i)]
    case _ => []
  }

  function AllocOf(g: Signature, i: nat): seq<Stmt>
    requires i < |g.params|
  {
    var c := g.params[i];
    if Staged(c) then
      [Alloc(i, c.ext.alloc, c.ext.size, c.StageStatus? || (c.StageOut? && g.nullable), c.StageStatus?)]
    else []
  }

  function FillOf(g: Signature, w: World, i: nat): seq<Stmt>
    requires i < |g.params|
  {
    match g.params[i]
    case StageIn(fam, ext, inplace, buffer) => [Fill(i, fam, ext.alloc, inplace, buffer)]
    case StageNarrow(bytes, ext, _, _) => [NarrowFill(i, bytes, ext.alloc, OutDefined(g, w))]
    case StageInout(ext) => [Fill(i, REQUEST, ext.alloc, false, 0)]
    case _ => []
  }

  function CopyBack(g: Signature, i: nat): seq<Stmt>
    requires i < |g.params|
  {
    match g.params[i]
    case StageInout(ext) => [CopyAll(i, ext.alloc)]
    case StageOut(fam, ext) => [CopyOnSuccess(i, fam, ext, g.nullable)]
    case StageStatus(ext) => [CopyStatuses(i, ext)]
    case _ => []
  }

  // ---------------------------------------------------------------- the groups

  function AllRows(g: Signature, lo: nat, hi: nat): seq<Stmt>
    requires lo <= hi <= |g.params|
    decreases hi - lo
  {
    if lo == hi then [] else Rows(g, lo) + AllRows(g, lo + 1, hi)
  }

  function Keeps(g: Signature, i: nat): seq<Stmt>
    requires i <= |g.params|
    decreases |g.params| - i
  {
    if i == |g.params| then []
    else (if g.params[i] == Inout(REQUEST) then [Keep(i)] else []) + Keeps(g, i + 1)
  }

  function Checks(g: Signature, w: World, i: nat, seen: set<nat>): seq<Stmt>
    requires i <= |g.params|
    decreases |g.params| - i
  {
    if i == |g.params| then [] else Check(g, w, i, seen) + Checks(g, w, i + 1, Seen(g, i, seen))
  }

  function Probes(g: Signature, w: World, i: nat, seen: set<nat>): seq<Stmt>
    requires i <= |g.params|
    decreases |g.params| - i
  {
    if i == |g.params| then []
    else
      var c := g.params[i];
      if Sized(c) && c.ext.alloc.OfProbe? && c.ext.alloc.id !in seen then
        [ProbeOr(c.ext.alloc.id, OutDefined(g, w))] + Probes(g, w, i + 1, seen + {c.ext.alloc.id})
      else Probes(g, w, i + 1, seen)
  }

  function NullTemps(g: Signature, i: nat): seq<Stmt>
    requires i <= |g.params|
    decreases |g.params| - i
  {
    if i == |g.params| then [] else (if Staged(g.params[i]) then [NullTemp(i)] else []) + NullTemps(g, i + 1)
  }

  function Allocs(g: Signature, i: nat): seq<Stmt>
    requires i <= |g.params|
    decreases |g.params| - i
  {
    if i == |g.params| then [] else AllocOf(g, i) + Allocs(g, i + 1)
  }

  function Fills(g: Signature, w: World, i: nat): seq<Stmt>
    requires i <= |g.params|
    decreases |g.params| - i
  {
    if i == |g.params| then [] else FillOf(g, w, i) + Fills(g, w, i + 1)
  }

  function OutLocals(g: Signature, w: World, i: nat): seq<Stmt>
    requires i <= |g.params|
    decreases |g.params| - i
  {
    if i == |g.params| then [] else OutLocal(g, w, i) + OutLocals(g, w, i + 1)
  }

  function Args(g: Signature, i: nat): seq<Arg>
    requires i <= |g.params|
    decreases |g.params| - i
  {
    if i == |g.params| then [] else ArgOf(g, i) + Args(g, i + 1)
  }

  function Posts(g: Signature, i: nat): seq<Stmt>
    requires i <= |g.params|
    decreases |g.params| - i
  {
    if i == |g.params| then [] else Post(g, i) + Posts(g, i + 1)
  }

  function ArrayReleases(g: Signature, i: nat): seq<Stmt>
    requires i <= |g.params|
    decreases |g.params| - i
  {
    if i == |g.params| then []
    else (if g.params[i].StageInout? then [ReleaseEach(i, g.params[i].ext.alloc)] else []) + ArrayReleases(g, i + 1)
  }

  function ScalarReleases(g: Signature, i: nat): seq<Stmt>
    requires i <= |g.params|
    decreases |g.params| - i
  {
    if i == |g.params| then []
    else (if g.params[i] == Inout(REQUEST) then [ReleaseOne(i)] else []) + ScalarReleases(g, i + 1)
  }

  function CopyBacks(g: Signature, i: nat): seq<Stmt>
    requires i <= |g.params|
    decreases |g.params| - i
  {
    if i == |g.params| then [] else CopyBack(g, i) + CopyBacks(g, i + 1)
  }

  function Maps(g: Signature, i: nat): seq<Stmt>
    requires i <= |g.params|
    decreases |g.params| - i
  {
    if i == |g.params| then []
    else (if g.params[i].MapOut? then [MapOnSuccess(i, g.params[i].fam, g.params[i].ext)] else []) + Maps(g, i + 1)
  }

  function Unstages(g: Signature, i: nat): seq<Stmt>
    requires i <= |g.params|
    decreases |g.params| - i
  {
    if i == |g.params| then [] else (if Staged(g.params[i]) then [Unstage(i)] else []) + Unstages(g, i + 1)
  }

  /** Everything before the implementation is called. */
  function Declarations(g: Signature, w: World): seq<Stmt>
    requires Cut(g, |g.params|) <= |g.params|
  {
    var n, m := |g.params|, Cut(g, |g.params|);
    AllRows(g, 0, m) + (Checks(g, w, 0, {}) + (AllRows(g, m, n) + (Keeps(g, 0) + Probes(g, w, 0, {}))))
  }

  function Staging(g: Signature, w: World): seq<Stmt> {
    if AnyStaged(g) then
      NullTemps(g, 0) + ([InternByDefault] + (Defines(OutDefined(g, w)) + (Allocs(g, 0) + Fills(g, w, 0))))
    else []
  }

  /** The call, and everything that converts its answer. */
  function Calling(g: Signature, w: World): seq<Stmt> {
    OutLocals(g, w, 0) + ([Call(Args(g, 0))] + (Posts(g, 0) + ((ArrayReleases(g, 0)
    + ScalarReleases(g, 0)) + (CopyBacks(g, 0) + Maps(g, 0)))))
  }

  function Ending(g: Signature, handles: set<Family>): seq<Stmt> {
    [SetResult] + ((if HandleOuts(g, handles) then [CheckHandles] else [])
    + ((if AnyStaged(g) then [Done] + Unstages(g, 0) else []) + [ReturnResult]))
  }

  // ---------------------------------------------------------------- a body whose temporaries outlive it

  /** The request it hands back. */
  function RequestOut(g: Signature, i: nat): (r: nat)
    requires i <= |g.params|
    ensures HandleOut(REQUEST) in g.params[i..] ==> i <= r < |g.params| && g.params[r] == HandleOut(REQUEST)
    decreases |g.params| - i
  {
    if i == |g.params| then 0
    else
      assert g.params[i..] == [g.params[i]] + g.params[i + 1..];
      if g.params[i] == HandleOut(REQUEST) then i else RequestOut(g, i + 1)
  }

  /** Among the routines that stage past their return, the persistent ones are those that take an MPI_Info. */
  predicate Persistent(g: Signature) {
    In(INFO) in g.params
  }

  /** The staged arrays among the first i parameters: how many, their lengths and the sizes of their elements. */
  function Rank(g: Signature, i: nat): nat
    requires i <= |g.params|
  {
    if i == 0 then 0 else Rank(g, i - 1) + if Staged(g.params[i - 1]) then 1 else 0
  }

  function Lens(g: Signature, i: nat): (r: seq<Len>)
    requires i <= |g.params|
    ensures |r| == Rank(g, i)
  {
    if i == 0 then [] else Lens(g, i - 1) + if Staged(g.params[i - 1]) then [g.params[i - 1].ext.alloc] else []
  }

  function Sizes(g: Signature, i: nat): (r: seq<Size>)
    requires i <= |g.params|
    ensures |r| == Rank(g, i)
  {
    if i == 0 then [] else Sizes(g, i - 1) + if Staged(g.params[i - 1]) then [g.params[i - 1].ext.size] else []
  }

  /** The lengths without repetitions. */
  function Distinct(lens: seq<Len>): (r: seq<Len>)
    ensures forall l :: l in r <==> l in lens
  {
    if lens == [] then []
    else
      var d, last := Distinct(lens[..|lens| - 1]), lens[|lens| - 1];
      assert lens == lens[..|lens| - 1] + [last];
      if last in d then d else d + [last]
  }

  /** The element type of an array only read: that of a family, or an integer of so many bytes. */
  function Elem(c: Class): (bool, nat)
    requires InMode(c)
  {
    match c
    case StageIn(fam, _, _, _) => (false, fam)
    case StageNarrow(bytes, _, _, _) => (true, bytes)
  }

  predicate Mixed(g: Signature) {
    exists i, j :: 0 <= i < j < |g.params| && InMode(g.params[i]) && InMode(g.params[j])
                   && Elem(g.params[i]) != Elem(g.params[j])
  }

  /** `nstaged` adds up the lengths; where the layout is mixed, each only once. */
  function Terms(g: Signature): seq<Len> {
    if Mixed(g) then Distinct(Lens(g, |g.params|)) else Lens(g, |g.params|)
  }

  function Carves(g: Signature, i: nat): seq<Stmt>
    requires i <= |g.params|
    decreases |g.params| - i
  {
    if i == |g.params| then []
    else (if Staged(g.params[i]) then [Own(CarveOut(i, Rank(g, i)))] else []) + Carves(g, i + 1)
  }

  function BlockFill(g: Signature, w: World, i: nat): seq<Stmt>
    requires i < |g.params|
  {
    match g.params[i]
    case StageNarrow(bytes, ext, _, _) => [Own(NarrowInto(i, bytes, ext.alloc, OutDefined(g, w)))]
    case _ => FillOf(g, w, i)
  }

  function BlockFills(g: Signature, w: World, i: nat): seq<Stmt>
    requires i <= |g.params|
    decreases |g.params| - i
  {
    if i == |g.params| then [] else BlockFill(g, w, i) + BlockFills(g, w, i + 1)
  }

  function BlockAlloc(g: Signature, w: World): seq<Stmt> {
    var n := |g.params|;
    [Own(Allocate(Lens(g, n), Sizes(g, n), Terms(g), Mixed(g)))] + [Own(NotNullOr(OutDefined(g, w)))]
  }

  function BlockEnd(g: Signature, w: World): seq<Stmt> {
    var r := RequestOut(g, 0);
    [Own(SuccessOr(OutDefined(g, w)))] + ([Store(r, REQUEST)] + ([Own(HandlesOr)]
    + ([Own(KeepOr(r, Persistent(g)))] + [Own(Succeed)])))
  }

  /** `assemble_outliving`, after the declarations. */
  function Owning(g: Signature, w: World): seq<Stmt> {
    BlockAlloc(g, w) + (Carves(g, 0) + (BlockFills(g, w, 0)
    + (OutLocals(g, w, 0) + ([Call(Args(g, 0))] + BlockEnd(g, w)))))
  }

  // ---------------------------------------------------------------- the body

  function Emit(g: Signature, w: World, handles: set<Family>): seq<Stmt>
    requires Cut(g, |g.params|) <= |g.params|
  {
    Declarations(g, w)
    + if Outlives(g) then Owning(g, w) else Staging(g, w) + (Calling(g, w) + Ending(g, handles))
  }
}
