/** What a generated wrapper has to do, stated on its parameters: when it refuses, what the implementation sees,
  * and what the caller finds afterwards (NOTES.md sections 3, 5.7, 5.10 and decision 6 of section 7). */
module GenSpec {
  import opened GenIR
  import Common
  import C = Carving
  import opened GenEmit
  import T = StagedTable

  /** One call of one wrapper: its signature, the world it runs in, and the caller's arguments.  `stale` is a handle
    * error left behind by an earlier conversion on the thread; `step` is the meaning of a statement in this world. */
  datatype Site = Site(g: Signature, w: World, handles: set<Family>, args: seq<Val>, stale: bool, step: Step)

  function LenOf(t: Site, len: Len): int {
    match len
    case OfParam(l) => if l < |t.args| && t.args[l].I? then t.args[l].i else 0
    case OfProbe(id) => t.w.probeLen(id)
  }

  function Natural(v: int): nat {
    if v < 0 then 0 else v
  }

  // ---------------------------------------------------------------- what the generator's tables guarantee

  predicate LengthClass(c: Class) {
    (c.In? && c.fam == IDENTITY) || c.Subst? || c.Narrow?
  }

  predicate LengthOk(g: Signature, i: nat)
    requires i < |g.params| && Sized(g.params[i])
  {
    var e := g.params[i].ext;
    e.alloc.OfParam? ==>
      e.alloc.index < |g.params| && LengthClass(g.params[e.alloc.index])
  }

  predicate Probed(g: Signature, id: nat) {
    exists j :: 0 <= j < |g.params| && Sized(g.params[j]) && g.params[j].ext.alloc == OfProbe(id)
  }

  predicate ParamOk(g: Signature, i: nat)
    requires i < |g.params|
  {
    var c := g.params[i];
    && (Sized(c) ==> LengthOk(g, i))
    && (Sized(c) && c.ext.reported ==> c.ext.via < |g.params| && g.params[c.ext.via] == PassPtr(true))
    && (InMode(c) && c.inplace ==>
        c.buffer < |g.params| && g.params[c.buffer].Buffer? && (c.StageIn? ==> g.params[c.buffer].flagged))
    && (c.Subst? ==> Probed(g, c.id)) && (c.Narrow? && c.sub ==> Probed(g, c.probe))
  }

  /** The classes a routine that stages past its return may have. */
  predicate OwnClass(c: Class) {
    c.In? || c.Buffer? || c.PassPtr? || c.Narrow? || c.Subst? || InMode(c) || c == HandleOut(REQUEST)
  }

  predicate SameUnit(g: Signature, i: nat, j: nat) {
    i < j < |g.params| && InMode(g.params[i]) && InMode(g.params[j]) ==>
      Elem(g.params[i]) == Elem(g.params[j]) ==> g.params[i].ext.size == g.params[j].ext.size
  }

  /** It produces no handle but one request, and arrays of one type have elements of one size. */
  predicate OwnsOk(g: Signature) {
    && !g.nullable
    && (forall i :: 0 <= i < |g.params| ==> OwnClass(g.params[i]))
    && (forall i, j :: 0 <= i < j < |g.params| ==> !(g.params[i].HandleOut? && g.params[j].HandleOut?))
    && (forall i, j {:trigger SameUnit(g, i, j)} | 0 <= i < j < |g.params| :: SameUnit(g, i, j))
  }

  predicate WellFormed(g: Signature, handles: set<Family>) {
    && REQUEST in handles && IDENTITY !in handles && (Outlives(g) ==> OwnsOk(g))
    && forall i :: 0 <= i < |g.params| ==> ParamOk(g, i)
  }

  // ---------------------------------------------------------------- what a caller has to pass

  predicate HoldsAtLeast(v: Val, n: int) {
    v.A? && n <= |v.a|
  }

  /** The standard makes the array ignored because the buffer is MPI_IN_PLACE. */
  predicate Ignored(t: Site, i: nat)
    requires i < |t.g.params|
  {
    var c := t.g.params[i];
    InMode(c) && c.inplace && c.buffer < |t.args| && t.args[c.buffer] == I(t.w.inPlace)
  }

  predicate ArgOk(t: Site, i: nat)
    requires i < |t.g.params| == |t.args|
  {
    var c, v := t.g.params[i], t.args[i];
    match c
    case In(_) => v.I?
    case Buffer(_, _) => v.I?
    case Narrow(_, _, _) => v.I?
    case Subst(_) => v.I?
    case NarrowInout(_) => v.I?
    case Inout(_) => v.I?
    case PassPtr(zeroable) => v.I? || (!zeroable && (v.A? || v.Absent?)) || (t.g.nullable && v.Absent?)
    case HandleOut(_) => v.I? || (t.g.nullable && v.Absent?)
    case ScalarOut(_, _) => v.I? || (t.g.nullable && v.Absent?)
    case LargeZero => v.I? || (t.g.nullable && v.Absent?)
    case LargeVoid => true
    case StatusOut => v.I? || v.Absent?
    case StageIn(_, e, _, _) => Ignored(t, i) || HoldsAtLeast(v, LenOf(t, e.alloc))
    case StageNarrow(_, e, _, _) => Ignored(t, i) || HoldsAtLeast(v, LenOf(t, e.alloc))
    case StageInout(e) => HoldsAtLeast(v, LenOf(t, e.alloc))
    case StageOut(_, e) => HoldsAtLeast(v, LenOf(t, e.alloc)) || (t.g.nullable && v.Absent?)
    case StageStatus(e) => HoldsAtLeast(v, LenOf(t, e.alloc)) || v.Absent?
    case MapOut(_, e) => HoldsAtLeast(v, LenOf(t, e.alloc))
  }

  /** The parameter through which a call reports how many elements it wrote is never null. */
  predicate ReportOk(t: Site, i: nat)
    requires i < |t.g.params|
  {
    var c := t.g.params[i];
    Sized(c) && c.ext.reported ==> c.ext.via < |t.args| && t.args[c.ext.via].I?
  }

  /** What an implementation may leave behind a pointer: a value of the object's own type. */
  predicate SameShape(v: Val, r: Val) {
    match v
    case I(_) => r.I?
    case Uninit => r.I?
    case A(a) => r.A? && |r.a| == |a|
    case _ => true
  }

  predicate Answers(w: World, vals: seq<Val>) {
    var r := w.impl(vals);
    |r.out| == |vals| && forall k :: 0 <= k < |vals| ==> SameShape(vals[k], r.out[k])
  }

  ghost predicate Means(t: Site) {
    forall st, s {:trigger Exec1(t.w, t.g.nullable, st, s)} :: t.step(st, s) == Exec1(t.w, t.g.nullable, st, s)
  }

  function LensAt(t: Site, lens: seq<Len>): (r: seq<int>)
    ensures |r| == |lens| && forall k :: 0 <= k < |lens| ==> r[k] == LenOf(t, lens[k])
  {
    seq(|lens|, k requires 0 <= k < |lens| => LenOf(t, lens[k]))
  }

  /** Lengths are integers no wider than a size_t, and the arrays a caller passes lie in memory: their elements together
    * can be counted. */
  predicate InMemory(t: Site) {
    && Total(t.w.sizeMax, LensAt(t, Lens(t.g, |t.g.params|))) <= t.w.sizeMax
    && forall i :: 0 <= i < |t.g.params| && Staged(t.g.params[i]) ==>
         -(t.w.sizeMax / 2) - 1 <= LenOf(t, t.g.params[i].ext.alloc)
  }

  /** What a wrapper may rely on: its tables, the caller's arguments, and an implementation that respects them. */
  ghost predicate Given(t: Site) {
    && |t.args| == |t.g.params|
    && WellFormed(t.g, t.handles)
    && (forall i :: 0 <= i < |t.args| ==> ArgOk(t, i))
    && (forall i :: 0 <= i < |t.args| ==> ReportOk(t, i))
    && (forall vals: seq<Val> :: Answers(t.w, vals))
    && (forall fam: Family, v: int :: Clash(t.w, fam, v) ==> fam in t.handles)
    && (Outlives(t.g) ==> InMemory(t) && |t.w.table| > 0)
  }

  ghost predicate Legal(t: Site) {
    Given(t) && Means(t)
  }

  // ---------------------------------------------------------------- refusals

  /** The lengths that have been checked before parameter i. */
  function SeenBefore(g: Signature, i: nat): set<nat>
    requires i <= |g.params|
  {
    if i == 0 then {} else Seen(g, i - 1, SeenBefore(g, i - 1))
  }

  /** The length of an array as its check finds it: a length that is narrowed later is still zero. */
  function CheckedLen(t: Site, i: nat): int
    requires i < |t.g.params| && Staged(t.g.params[i]) && t.g.params[i].ext.alloc.OfParam?
  {
    var l := t.g.params[i].ext.alloc.index;
    if l > i && l < |t.g.params| && t.g.params[l].Narrow? then 0 else LenOf(t, OfParam(l))
  }

  predicate BadLength(t: Site, i: nat)
    requires i < |t.g.params| && Staged(t.g.params[i]) && t.g.params[i].ext.alloc.OfParam?
  {
    var e, n := t.g.params[i].ext, CheckedLen(t, i);
    (n < 0 && e.alloc.index !in SeenBefore(t.g, i)) || (e.wide && (n < 0 || n > t.w.sizeMax / e.size))
  }

  /** A value that does not fit the type it is narrowed to, or a length no array can have. */
  function OwnRefusal(t: Site, i: nat): (r: seq<int>)
    requires i < |t.g.params| == |t.args|
    ensures |r| <= 1
  {
    var c, v := t.g.params[i], t.args[i];
    if (c.Narrow? || c.NarrowInout?) && v.I? && !Fits(v.i, c.bytes) then [ERR_TOO_LARGE]
    else if Staged(c) && c.ext.alloc.OfParam? && BadLength(t, i) then [ERR_COUNT]
    else []
  }

  /** The first parameter whose value the body cannot use, in parameter order. */
  function CheckRefusal(t: Site, i: nat): (r: seq<int>)
    requires i <= |t.g.params| == |t.args|
    ensures |r| <= 1
    decreases |t.g.params| - i
  {
    if i == |t.g.params| then []
    else if OwnRefusal(t, i) != [] then OwnRefusal(t, i)
    else CheckRefusal(t, i + 1)
  }

  /** The implementation's own error from the first extent query that fails. */
  function ProbeRefusal(t: Site, i: nat): (r: seq<int>)
    requires i <= |t.g.params|
    ensures |r| <= 1
    decreases |t.g.params| - i
  {
    if i == |t.g.params| then []
    else
      var c := t.g.params[i];
      if Sized(c) && c.ext.alloc.OfProbe? && t.w.probeError(c.ext.alloc.id) != 0 then
        [t.w.errorToAbi(t.w.probeError(c.ext.alloc.id))]
      else ProbeRefusal(t, i + 1)
  }

  /** The caller does not want this array back. */
  predicate Skipped(t: Site, i: nat)
    requires i < |t.g.params| == |t.args|
  {
    var c := t.g.params[i];
    (c.StageStatus? || (c.StageOut? && t.g.nullable)) && t.args[i] == Absent
  }

  /** No temporary can be had for array i. */
  predicate Fails(t: Site, i: nat)
    requires i < |t.g.params| == |t.args|
  {
    var c := t.g.params[i];
    Staged(c) && !Skipped(t, i)
    && (LenOf(t, c.ext.alloc) < 0 || LenOf(t, c.ext.alloc) > t.w.sizeMax / c.ext.size || t.w.allocFails(i))
  }

  /** What is asked of the heap where the temporaries are one block, and its answer. */
  function BlockLayout(t: Site): C.Layout {
    var n := |t.g.params|;
    LayoutOf(t.w, LensAt(t, Lens(t.g, n)), Sizes(t.g, n), LensAt(t, Terms(t.g)), Mixed(t.g))
  }

  function BlockAnswer(t: Site): (b: Block)
    ensures (b.Live? || b.Null?) && b.l == BlockLayout(t)
  {
    Malloc(t.w, BlockLayout(t))
  }

  predicate OutOfMemory(t: Site)
    requires |t.g.params| == |t.args|
  {
    if Outlives(t.g) then BlockAnswer(t).Null? && BlockLayout(t).nstaged > 0
    else exists i :: 0 <= i < |t.g.params| && Fails(t, i)
  }

  function Narrowed(t: Site, i: nat): Loop
    requires i < |t.g.params| == |t.args| && t.g.params[i].StageNarrow?
  {
    NarrowLoop(t.args[i], Natural(LenOf(t, t.g.params[i].ext.alloc)), t.g.params[i].bytes)
  }

  /** Array i has an element that does not fit, among those that can be read. */
  predicate Misfit(t: Site, i: nat)
    requires i < |t.g.params| == |t.args|
  {
    t.g.params[i].StageNarrow? && Narrowed(t, i) == Unfit
  }

  /** Array i fits as far as it can be read, which is not far enough. */
  predicate Unread(t: Site, i: nat)
    requires i < |t.g.params| == |t.args|
  {
    t.g.params[i].StageNarrow? && Narrowed(t, i) == Fault
  }

  predicate AnyMisfit(t: Site)
    requires |t.g.params| == |t.args|
  {
    exists i :: 0 <= i < |t.g.params| && Misfit(t, i)
  }

  /** The error a wrapper answers without calling the implementation, or nothing. */
  function Refusal(t: Site): (r: seq<int>)
    requires |t.g.params| == |t.args|
    ensures |r| <= 1
  {
    if CheckRefusal(t, 0) != [] then CheckRefusal(t, 0)
    else if ProbeRefusal(t, 0) != [] then ProbeRefusal(t, 0)
    else if OutOfMemory(t) then [ERR_INTERN]
    else if AnyMisfit(t) then [ERR_TOO_LARGE]
    else []
  }

  /** The body reads past an array the caller was free to leave out, before it meets any other trouble. */
  predicate Faults(t: Site)
    requires |t.g.params| == |t.args|
  {
    && CheckRefusal(t, 0) == [] && ProbeRefusal(t, 0) == [] && !OutOfMemory(t)
    && exists i :: 0 <= i < |t.g.params| && Unread(t, i) && forall j :: 0 <= j < i ==> !Misfit(t, j)
  }

  predicate Defaulted(c: Class) {
    c.HandleOut? || Zeroable(c)
  }

  function Default(w: World, c: Class): int {
    if c.HandleOut? then w.abiNull(c.fam) else 0
  }

  /** What the caller finds behind an argument after a refusal. */
  function Defined(t: Site, i: nat): Val
    requires i < |t.g.params| == |t.args|
  {
    if Defaulted(t.g.params[i]) && t.args[i].I? then I(Default(t.w, t.g.params[i])) else t.args[i]
  }

  /** What the caller's object holds when the implementation is called. */
  function Before(t: Site, i: nat): Val
    requires i < |t.g.params| == |t.args|
  {
    if AnyStaged(t.g) && !Outlives(t.g) then Defined(t, i) else t.args[i]
  }

  // ---------------------------------------------------------------- what the implementation sees

  function Blank(t: Site, i: nat, n: nat, zeroed: bool): (r: seq<int>)
    ensures |r| == n
  {
    seq(n, k requires 0 <= k < n => if zeroed then 0 else t.w.junk(i, k))
  }

  function Fill0(t: Site, i: nat, fam: Family, n: nat): seq<int>
    requires i < |t.g.params| == |t.args|
  {
    if Ignored(t, i) then seq(n, _ => t.w.implNull(fam))
    else if HoldsAtLeast(t.args[i], n) then FromAll(t.w, fam, t.args[i].a[..n])
    else []
  }

  /** The temporary of a staged array as it is when the implementation is called. */
  function Temporary(t: Site, i: nat): Val
    requires i < |t.g.params| == |t.args|
  {
    var c := t.g.params[i];
    if !Staged(c) then Undeclared
    else
      var n := Max(0, LenOf(t, c.ext.alloc));
      if Skipped(t, i) then Absent
      else if c.StageIn? then A(Fill0(t, i, c.fam, n))
      else if c.StageInout? then A(Fill0(t, i, REQUEST, n))
      else if c.StageNarrow? then (match Narrowed(t, i) case Fit(a) => A(a) case _ => A([]))
      else A(Blank(t, i, n, c.StageStatus?))
  }

  /** What an out local holds before the call; the null pointer where the caller passed one. */
  function OutBefore(t: Site, i: nat): Val
    requires i < |t.g.params| == |t.args|
  {
    var c := t.g.params[i];
    if !t.g.nullable then Uninit else if c.HandleOut? then I(t.w.implNull(c.fam)) else I(0)
  }

  function Whole(v: Val): int {
    if v.I? then v.i else 0
  }

  /** The image of one argument, if it is passed at all. */
  function Image(t: Site, i: nat): (r: seq<Val>)
    requires i < |t.g.params| == |t.args|
    ensures |r| <= 1
  {
    var c, v := t.g.params[i], t.args[i];
    match c
    case In(fam) => [I(From(t.w, fam, Whole(v)))]
    case Buffer(fam, _) => [I(From(t.w, fam, Whole(v)))]
    case Narrow(_, sub, id) => [if sub then I(t.w.probeLen(id)) else v]
    case Subst(id) => [I(t.w.probeLen(id))]
    case NarrowInout(_) => [v]
    case Inout(fam) => [I(From(t.w, fam, Whole(v)))]
    case PassPtr(_) => [Before(t, i)]
    case HandleOut(_) => [if v == Absent then Absent else OutBefore(t, i)]
    case ScalarOut(_, _) => [if v == Absent then Absent else OutBefore(t, i)]
    case LargeZero => []
    case LargeVoid => []
    case StatusOut => [if v == Absent then Absent else I(0)]
    case MapOut(_, _) => [v]
    case _ => [Temporary(t, i)]
  }

  function Images(t: Site, i: nat): seq<Val>
    requires i <= |t.g.params| == |t.args|
    decreases |t.g.params| - i
  {
    if i == |t.g.params| then [] else Image(t, i) + Images(t, i + 1)
  }

  function Answer(t: Site): Reply
    requires |t.g.params| == |t.args|
  {
    t.w.impl(Images(t, 0))
  }

  /** What the implementation left behind the pointer it got for this argument. */
  function OutOf(t: Site, i: nat): Val
    requires i < |t.g.params| == |t.args|
  {
    var k := |Images(t, 0)| - |Images(t, i)|;
    if 0 <= k < |Answer(t).out| then Answer(t).out[k] else Undeclared
  }

  // ---------------------------------------------------------------- what the caller finds after a call

  /** How many elements of an array are copied back. */
  function Back(t: Site, e: Extent): (n: nat)
    requires |t.g.params| == |t.args|
  {
    var l := Max(0, LenOf(t, e.alloc));
    if !e.reported then l
    else if e.via < |t.args| && OutOf(t, e.via).I? && 0 <= OutOf(t, e.via).i <= l then OutOf(t, e.via).i
    else 0
  }

  function Overwrite(a: seq<int>, b: seq<int>): seq<int> {
    if |b| <= |a| then b + a[|b|..] else a
  }

  function Elements(v: Val, n: nat): (r: seq<int>) {
    if v.A? && n <= |v.a| then v.a[..n] else []
  }

  function After(t: Site, i: nat): Val
    requires i < |t.g.params| == |t.args|
  {
    var c, v, out, ok := t.g.params[i], t.args[i], OutOf(t, i), Answer(t).ierror == 0;
    if Outlives(t.g) && !ok && Defaulted(c) then (if v == Absent then v else I(Default(t.w, c))) else
    match c
    case NarrowInout(_) => I(Whole(out))
    case Inout(fam) => I(To(t.w, fam, Whole(out)))
    case PassPtr(_) => if v == Absent then v else out
    case HandleOut(fam) =>
      if v == Absent then v else I(if ok then To(t.w, fam, Whole(out)) else t.w.abiNull(fam))
    case ScalarOut(fam, _) => if v == Absent then v else I(To(t.w, fam, Whole(out)))
    case LargeZero => if v == Absent then v else I(0)
    case StatusOut => if v == Absent then v else I(t.w.keepError(Whole(v), Whole(out)))
    case StageInout(e) =>
      if v.A? then A(Overwrite(v.a, ToAll(t.w, REQUEST, Elements(out, Max(0, LenOf(t, e.alloc)))))) else v
    case StageOut(fam, e) =>
      if v.A? && ok then A(Overwrite(v.a, ToAll(t.w, fam, Elements(out, Back(t, e))))) else v
    case StageStatus(e) =>
      if v.A? then A(Overwrite(v.a, StatusAll(t.w, Elements(out, Back(t, e))))) else v
    case MapOut(fam, e) =>
      if out.A? && ok then A(Overwrite(out.a, ToAll(t.w, fam, Elements(out, Back(t, e))))) else out
    case _ => v
  }

  /** Converting the answer meets a handle the ABI cannot represent. */
  predicate ClashAt(t: Site, i: nat)
    requires i < |t.g.params| == |t.args|
  {
    var c, v, out, ok := t.g.params[i], t.args[i], OutOf(t, i), Answer(t).ierror == 0;
    match c
    case Inout(fam) => Clash(t.w, fam, Whole(out))
    case HandleOut(fam) => v != Absent && ok && Clash(t.w, fam, Whole(out))
    case ScalarOut(fam, _) => v != Absent && Clash(t.w, fam, Whole(out))
    case StageInout(e) => ClashIn(t.w, REQUEST, Elements(out, Max(0, LenOf(t, e.alloc))))
    case StageOut(fam, e) => v.A? && ok && ClashIn(t.w, fam, Elements(out, Back(t, e)))
    case _ => false
  }

  predicate AnyClash(t: Site)
    requires |t.g.params| == |t.args|
  {
    exists i :: 0 <= i < |t.g.params| && ClashAt(t, i)
  }

  /** What the call hands back a request for is under way, and the request could be converted. */
  predicate Started(t: Site)
    requires |t.g.params| == |t.args|
  {
    Answer(t).ierror == 0 && !t.stale && !AnyClash(t)
  }

  function Request(t: Site): int
    requires |t.g.params| == |t.args|
  {
    var r := RequestOut(t.g, 0);
    if r < |t.args| then Whole(OutOf(t, r)) else 0
  }

  /** Something was staged, and the operation may still read it. */
  predicate StillRead(t: Site)
    requires |t.g.params| == |t.args|
  {
    BlockLayout(t).nstaged > 0 && (Persistent(t.g) || !t.w.complete(Request(t)))
  }

  /** The request table's answer to the block. */
  function TableAnswer(t: Site): T.AttachFate
    requires |t.g.params| == |t.args| && |t.w.table| > 0
  {
    T.Fate(t.w.table, t.w.bits(Request(t)))
  }

  function Code(t: Site): int
    requires |t.g.params| == |t.args|
  {
    if Outlives(t.g) then
      if Answer(t).ierror != 0 then t.w.errorToAbi(Answer(t).ierror)
      else if !Started(t) || (StillRead(t) && |t.w.table| > 0 && TableAnswer(t) == T.Full) then ERR_INTERN
      else ABI_SUCCESS
    else if HandleOuts(t.g, t.handles) && (t.stale || AnyClash(t)) then ERR_INTERN
    else t.w.errorToAbi(Answer(t).ierror)
  }

  /** A block the body frees, if it has one. */
  function Dropped(b: Block): Block {
    if b.Live? then Freed else b
  }

  /** Where the block is when the wrapper returns. */
  function BlockLeft(t: Site): Block
    requires |t.g.params| == |t.args|
  {
    if !Outlives(t.g) || CheckRefusal(t, 0) != [] || ProbeRefusal(t, 0) != [] then Unasked
    else if OutOfMemory(t) then BlockAnswer(t)
    else if AnyMisfit(t) || Answer(t).ierror != 0 then Dropped(BlockAnswer(t))
    else if !Started(t) then BlockAnswer(t)
    else if !StillRead(t) then Dropped(BlockAnswer(t))
    else if |t.w.table| > 0 && TableAnswer(t) == T.Stored then Kept(T.Taken(t.w.table, t.w.bits(Request(t))))
    else BlockAnswer(t)
  }

  function TableLeft(t: Site): seq<Common.Word>
    requires |t.g.params| == |t.args|
  {
    if BlockLeft(t).Kept? && |t.w.table| > 0 then T.Attached(t.w.table, t.w.bits(Request(t))) else t.w.table
  }

  /** The staged blocks released: those of every request the call nulled, by its value before the call. */
  function ArrayReleased(t: Site, i: nat): seq<int>
    requires i <= |t.g.params| == |t.args|
    decreases |t.g.params| - i
  {
    if i == |t.g.params| then []
    else
      var c, v, out := t.g.params[i], t.args[i], OutOf(t, i);
      (if c.StageInout? && v.A? && out.A? && |out.a| <= |v.a| then Nulled(t.w, v.a, out.a) else [])
      + ArrayReleased(t, i + 1)
  }

  function ScalarReleased(t: Site, i: nat): seq<int>
    requires i <= |t.g.params| == |t.args|
    decreases |t.g.params| - i
  {
    if i == |t.g.params| then []
    else
      var before := From(t.w, REQUEST, Whole(t.args[i]));
      (if t.g.params[i] == Inout(REQUEST) && OutOf(t, i) == I(t.w.implNull(REQUEST)) && before != t.w.implNull(REQUEST)
       then [before] else [])
      + ScalarReleased(t, i + 1)
  }

  function Released(t: Site): seq<int>
    requires |t.g.params| == |t.args|
  {
    if t.w.anyStaged && !Outlives(t.g) then ArrayReleased(t, 0) + ScalarReleased(t, 0) else []
  }
}
