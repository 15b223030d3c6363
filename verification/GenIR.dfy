/** The statements `emit_body` emits for one wrapper, and what executing them means (dev/generate.py:1861-2541). */
module GenIR {
  import opened Powers
  import Common
  import C = Carving
  import T = StagedTable

  // A parameter is named by its position.  `abi_x`, the implementation-side local `x`, and the one auxiliary local a
  // parameter may have (`x_before`, `x_ignored`, `ignore`, `x_absent`) form its slot.  Reading a local that is
  // undeclared or uninitialised, writing through a null pointer, indexing an array outside its bounds, releasing a
  // temporary that is not held and freeing a block twice are all Stuck.

  type Family = nat

  /** The conversion family of a value both sides spell alike. */
  const IDENTITY: Family := 0
  const REQUEST: Family := 1
  const INFO: Family := 2

  const ABI_SUCCESS := 0
  const ERR_INTERN := 17
  const ERR_COUNT := 2
  const ERR_TOO_LARGE := 59

  /** The size of an element: of an integer or a handle, so more than one byte. */
  type Size = n: nat | n > 1 witness 2

  datatype Len = OfParam(index: nat) | OfProbe(id: nat)

  /** How many elements of an array are converted: `alloc` sizes the temporary before the call (with an overflow
    * check of `size`-byte elements when its C type may exceed size_t); with `reported` the elements copied back are
    * as many as the implementation reports through that parameter. */
  datatype Extent = Extent(alloc: Len, wide: bool, size: Size, reported: bool, via: nat)

  datatype Class =
    | In(fam: Family) | Buffer(fam: Family, flagged: bool)
    | PassPtr(zeroable: bool)
    | Narrow(bytes: nat, sub: bool, probe: nat) | Subst(id: nat)
    | NarrowInout(bytes: nat)
    | HandleOut(fam: Family) | ScalarOut(fam: Family, zeroable: bool)
    | Inout(fam: Family)
    | LargeZero | LargeVoid
    | StatusOut
    | StageIn(fam: Family, ext: Extent, inplace: bool, buffer: nat)
    | StageNarrow(bytes: nat, ext: Extent, inplace: bool, buffer: nat)
    | StageInout(ext: Extent)
    | StageOut(fam: Family, ext: Extent)
    | StageStatus(ext: Extent)
    | MapOut(fam: Family, ext: Extent)

  /** `nullable`: MPI_T lets the caller pass a null pointer for any out parameter. */
  datatype Signature = Signature(params: seq<Class>, nullable: bool)

  datatype Val = Undeclared | Uninit | Ptr | Absent | I(i: int) | A(a: seq<int>)

  datatype Slot = Slot(abi: Val, x: Val, aux: Val)

  datatype Reply = Reply(ierror: int, out: seq<Val>)

  /** Everything a body does not decide for itself. */
  datatype World = World(
    fromAbi: (Family, int) -> int, toAbi: (Family, int) -> int,
    clash: (Family, int) -> bool,              // a dynamic handle inside the ABI's reserved range
    abiNull: Family -> int, implNull: Family -> int,
    errorToAbi: int -> int, statusToAbi: int -> int, keepError: (int, int) -> int,
    inPlace: int, sizeMax: C.Top,
    probeError: nat -> int, probeLen: nat -> nat,
    allocFails: nat -> bool, junk: (nat, nat) -> int,
    anyStaged: bool,
    blockFails: bool,                          // malloc of a block that outlives the call
    bits: int -> Common.Word,                  // a request's bits, its key in the request table
    complete: int -> bool,                     // what MPI_Request_get_status answers about a request
    table: seq<Common.Word>,                   // the keys of the request table
    impl: seq<Val> -> Reply)

  datatype Arg = Value(i: nat) | Addr(i: nat) | OrNull(i: nat) | Caller(i: nat) | Temp(i: nat)
               | SkipTemp(i: nat) | Status(i: nat) | ProbeLen(id: nat) | AbiParam(i: nat)

  datatype Stmt =
    | Convert(i: nat, fam: Family)             // T x = fam_fromabi(abi_x);
    | Alias(i: nat)                            // T *const x = abi_x;
    | Init(i: nat, v: int)                     // T x = v;
    | InPlaceFlag(i: nat)                      // const int ..._ignored = abi_x == MPIABI_IN_PLACE;
    | AbsentFlag(i: nat)                       // const int ignore = abi_x == NULL;
    | Keep(i: nat)                             // const MPI_Request x_before = x;
    | NarrowOr(i: nat, bytes: nat, defs: seq<(nat, int)>)            // else { defs; return VALUE_TOO_LARGE; }
    | NotNegativeOr(l: nat, defs: seq<(nat, int)>)                   // else { defs; return ERR_COUNT; }
    | NoOverflowOr(l: nat, size: Size, defs: seq<(nat, int)>)         // else { defs; return ERR_COUNT; }
    | ProbeOr(id: nat, defs: seq<(nat, int)>)                        // else { defs; return its error; }
    | NullTemp(i: nat)                         // T *x = NULL;
    | InternByDefault                          // int abi_ierror = MPIABI_ERR_INTERN;
    | Define(i: nat, v: int)                   // *abi_x = v;
    | Alloc(i: nat, len: Len, size: Size, skip: bool, zeroed: bool)  // else goto done;
    | Fill(i: nat, fam: Family, len: Len, inplace: bool, buffer: nat)
    | NarrowFill(i: nat, bytes: nat, len: Len, defs: seq<(nat, int)>)  // else { defs; err; goto done; }
    | Local(i: nat)                            // T x;
    | Call(args: seq<Arg>)
    | StoreHandle(i: nat, fam: Family)         // *abi_x = ierror == MPI_SUCCESS ? toabi(x) : null;
    | Store(i: nat, fam: Family)               // *abi_x = toabi(x);
    | StoreStatus(i: nat)                      // if (!ignore) status_toabi_keep_error(&x, abi_x);
    | ReleaseOne(i: nat) | ReleaseEach(i: nat, len: Len)
    | CopyAll(i: nat, len: Len)                // requests: unconditionally, in place of the caller's
    | CopyOnSuccess(i: nat, fam: Family, ext: Extent, skip: bool)
    | CopyStatuses(i: nat, ext: Extent)
    | MapOnSuccess(i: nat, fam: Family, ext: Extent)
    | SetResult                                // abi_ierror = errorcode_toabi(ierror);
    | CheckHandles                             // if (take_handle_error()) abi_ierror = ERR_INTERN;
    | Done                                     // done:
    | Unstage(i: nat)
    | ReturnResult                             // return abi_ierror;
    | Own(b: BlockStmt)

  /** The statements of a body whose temporaries outlive it, carved out of one block. */
  datatype BlockStmt =
    | Allocate(lens: seq<Len>, sizes: seq<Size>, terms: seq<Len>, mixed: bool)   // nstaged = terms; block = malloc
    | NotNullOr(defs: seq<(nat, int)>)         // if (!block && nstaged > 0) { defs; return ERR_INTERN; }
    | CarveOut(i: nat, k: nat)                 // T *const x = block + offset of array k;
    | NarrowInto(i: nat, bytes: nat, len: Len, defs: seq<(nat, int)>)  // else { free; defs; return VALUE_TOO_LARGE; }
    | SuccessOr(defs: seq<(nat, int)>)         // if (ierror) { free; defs; return errorcode_toabi(ierror); }
    | HandlesOr                                // if (take_handle_error()) return ERR_INTERN;
    | KeepOr(i: nat, persistent: bool)         // if (!staged_keep(x, block, nstaged, kind)) return ERR_INTERN;
    | Succeed                                  // return MPIABI_SUCCESS;

  /** The block: not asked for, refused by the heap, live, freed, or owned by a slot of the request table. */
  datatype Block = Unasked | Null(l: C.Layout) | Live(l: C.Layout) | Freed | Kept(slot: nat)

  datatype State = State(slots: seq<Slot>, lens: map<nat, nat>, ierror: int, result: int, clashed: bool,
                         held: multiset<nat>, calls: seq<seq<Val>>, released: seq<int>,
                         block: Block, table: seq<Common.Word>)

  datatype Flow = Go(s: State) | Jump(s: State) | Ret(s: State, code: int) | Stuck

  function From(w: World, fam: Family, v: int): int {
    if fam == IDENTITY then v else w.fromAbi(fam, v)
  }

  function To(w: World, fam: Family, v: int): int {
    if fam == IDENTITY then v else w.toAbi(fam, v)
  }

  function Clash(w: World, fam: Family, v: int): bool {
    fam != IDENTITY && w.clash(fam, v)
  }

  function Flag(b: bool): Val {
    I(if b then 1 else 0)
  }

  /** `mpiwrapper_fits`: the value survives a conversion to a signed type of so many bytes. */
  predicate Fits(v: int, bytes: nat) {
    bytes > 0 && -(Pow2(8 * bytes - 1) as int) <= v < Pow2(8 * bytes - 1)
  }

  function FromAll(w: World, fam: Family, a: seq<int>): (r: seq<int>)
    ensures |r| == |a|
  {
    seq(|a|, k requires 0 <= k < |a| => From(w, fam, a[k]))
  }

  function ToAll(w: World, fam: Family, a: seq<int>): (r: seq<int>)
    ensures |r| == |a|
  {
    seq(|a|, k requires 0 <= k < |a| => To(w, fam, a[k]))
  }

  function StatusAll(w: World, a: seq<int>): (r: seq<int>)
    ensures |r| == |a|
  {
    seq(|a|, k requires 0 <= k < |a| => w.statusToAbi(a[k]))
  }

  predicate ClashIn(w: World, fam: Family, a: seq<int>) {
    exists k :: 0 <= k < |a| && Clash(w, fam, a[k])
  }

  predicate AllFit(a: seq<int>, bytes: nat) {
    forall k: nat {:trigger FitsIn(a, bytes, k)} :: k < |a| ==> FitsIn(a, bytes, k)
  }

  predicate FitsIn(a: seq<int>, bytes: nat, k: nat) {
    k < |a| && Fits(a[k], bytes)
  }

  /** The pre-call requests among the first elements that the implementation has nulled. */
  function Nulled(w: World, abi: seq<int>, impl: seq<int>): seq<int>
    requires |impl| <= |abi|
  {
    if impl == [] then []
    else
      var last := |impl| - 1;
      var before := From(w, REQUEST, abi[last]);
      Nulled(w, abi, impl[..last])
      + if impl[last] == w.implNull(REQUEST) && before != w.implNull(REQUEST) then [before] else []
  }

  function Max(a: int, b: int): int {
    if a >= b then a else b
  }

  /** The value of a length expression, None when it is not in scope. */
  function LenVal(s: State, len: Len): Val {
    match len
    case OfParam(l) => if l < |s.slots| then s.slots[l].x else Undeclared
    case OfProbe(id) => if id in s.lens then I(s.lens[id]) else Undeclared
  }

  function SetX(s: State, i: nat, v: Val): State
    requires i < |s.slots|
  {
    s.(slots := s.slots[i := s.slots[i].(x := v)])
  }

  function SetAux(s: State, i: nat, v: Val): State
    requires i < |s.slots|
  {
    s.(slots := s.slots[i := s.slots[i].(aux := v)])
  }

  function SetAbi(s: State, i: nat, v: Val): State
    requires i < |s.slots|
  {
    s.(slots := s.slots[i := s.slots[i].(abi := v)])
  }

  /** `*abi_i = v;` -- with `nullable` only if the caller passed an object. */
  function Assign(s: State, nullable: bool, i: nat, v: int): Flow
    requires i < |s.slots|
  {
    match s.slots[i].abi
    case I(_) => Go(SetAbi(s, i, I(v)))
    case Absent => if nullable then Go(s) else Stuck
    case _ => Stuck
  }

  function DefineAll(s: State, nullable: bool, defs: seq<(nat, int)>): Flow
    decreases |defs|
  {
    if defs == [] then Go(s)
    else if defs[0].0 >= |s.slots| then Stuck
    else
      var f := Assign(s, nullable, defs[0].0, defs[0].1);
      if f.Go? then DefineAll(f.s, nullable, defs[1..]) else f
  }

  function Refuse(s: State, nullable: bool, defs: seq<(nat, int)>, code: int): Flow {
    var f := DefineAll(s, nullable, defs);
    if f.Go? then Ret(f.s, code) else f
  }

  /** What the implementation receives for one argument: a value, or the contents of the object it points at. */
  function Pass(s: State, a: Arg): Val {
    match a
    case ProbeLen(id) => LenVal(s, OfProbe(id))
    case _ =>
      if a.i >= |s.slots| then Undeclared
      else
        var slot := s.slots[a.i];
        match a
        case Value(_) => if slot.x.I? then slot.x else Undeclared
        case Addr(_) => slot.x
        case OrNull(_) => if slot.abi == Absent then Absent else slot.x
        case Caller(_) => if slot.x == Ptr then slot.abi else Undeclared
        case Temp(_) => if slot.x.A? then slot.x else Undeclared
        case SkipTemp(_) => if slot.aux == I(1) then Absent else if slot.aux == I(0) && slot.x.A? then slot.x
          else Undeclared
        case Status(_) => if slot.aux == I(1) then Absent else if slot.aux == I(0) && slot.x.I? then slot.x
          else Undeclared
        case AbiParam(_) => slot.abi
        case _ => Undeclared
  }

  function PassAll(s: State, args: seq<Arg>): (r: seq<Val>)
    ensures |r| == |args|
    ensures forall k :: 0 <= k < |args| ==> r[k] == Pass(s, args[k])
  {
    seq(|args|, k requires 0 <= k < |args| => Pass(s, args[k]))
  }

  /** The implementation writes through the pointers it was given. */
  function Written(s: State, a: Arg, v: Val): State {
    match a
    case ProbeLen(_) => s
    case Value(_) => s
    case Caller(i) => if i < |s.slots| && s.slots[i].abi != Absent then SetAbi(s, i, v) else s
    case AbiParam(i) => if i < |s.slots| then SetAbi(s, i, v) else s
    case OrNull(i) => if i < |s.slots| && s.slots[i].abi != Absent then SetX(s, i, v) else s
    case SkipTemp(i) => if i < |s.slots| && s.slots[i].aux == I(0) then SetX(s, i, v) else s
    case Status(i) => if i < |s.slots| && s.slots[i].aux == I(0) then SetX(s, i, v) else s
    case Addr(i) => if i < |s.slots| then SetX(s, i, v) else s
    case Temp(i) => if i < |s.slots| then SetX(s, i, v) else s
  }

  function WriteAll(s: State, args: seq<Arg>, out: seq<Val>): State
    requires |args| <= |out|
    decreases |args|
  {
    if args == [] then s else WriteAll(Written(s, args[0], out[0]), args[1..], out[1..])
  }

  /** How many elements are copied back, from the extent's length and what the call reported. */
  function BackCount(s: State, ext: Extent): (r: int) {
    var l := LenVal(s, ext.alloc);
    if !l.I? then -1
    else if !ext.reported then Max(0, l.i)
    else if ext.via < |s.slots| && s.slots[ext.via].abi.I? then
      var n := s.slots[ext.via].abi.i;
      if n < 0 || n > l.i then 0 else n
    else -1
  }

  /** The implementation is called with what the arguments pass, and writes through the pointers among them. */
  function ExecCall(w: World, args: seq<Arg>, s: State): Flow {
    var vals := PassAll(s, args);
    var reply := w.impl(vals);
    if Undeclared in vals || |reply.out| < |args| then Stuck
    else Go(WriteAll(s.(calls := s.calls + [vals], ierror := reply.ierror), args, reply.out))
  }

  /** The elements that can be read behind a pointer; none behind a null pointer. */
  function Have(v: Val): seq<int> {
    if v.A? then v.a else []
  }

  function Least(a: nat, b: nat): (r: nat)
    ensures r <= a && r <= b && (r == a || r == b)
  {
    if a <= b then a else b
  }

  datatype Loop = Fit(a: seq<int>) | Unfit | Fault

  /** The checked conversion loop over n elements: it leaves at the first that does not fit, and faults where it has to
    * read past what is there. */
  function NarrowLoop(v: Val, n: nat, bytes: nat): Loop {
    var a := Have(v)[..Least(n, |Have(v)|)];
    if !AllFit(a, bytes) then Unfit else if |a| < n then Fault else Fit(a)
  }

  // ---------------------------------------------------------------- the block

  /** A C integer as a size_t. */
  function SizeT(top: C.Top, v: int): nat {
    if v < 0 then (v + top + 1) % (top + 1) else v
  }

  predicate AllLens(s: State, lens: seq<Len>) {
    forall k :: 0 <= k < |lens| ==> LenVal(s, lens[k]).I?
  }

  function PartsOf(top: C.Top, ns: seq<int>, sizes: seq<Size>): (r: seq<C.Part>)
    requires |ns| == |sizes|
    ensures |r| == |ns| && forall k :: 0 <= k < |ns| ==> r[k] == C.Part(SizeT(top, ns[k]), sizes[k])
  {
    seq(|ns|, k requires 0 <= k < |ns| => C.Part(SizeT(top, ns[k]), sizes[k]))
  }

  function LensNow(s: State, lens: seq<Len>): (r: seq<int>)
    requires AllLens(s, lens)
    ensures |r| == |lens| && forall k :: 0 <= k < |lens| ==> LenVal(s, lens[k]) == I(r[k])
  {
    seq(|lens|, k requires 0 <= k < |lens| => LenVal(s, lens[k]).i)
  }

  function Total(top: C.Top, ns: seq<int>): nat {
    if ns == [] then 0 else Total(top, ns[..|ns| - 1]) + SizeT(top, ns[|ns| - 1])
  }

  /** What the heap answers: a block of the size asked for, or null. */
  function Malloc(w: World, l: C.Layout): Block {
    if C.Room(w.sizeMax, l).Some? && !w.blockFails then Live(l) else Null(l)
  }

  /** The layout of so many elements; their count is a size_t, and may wrap around. */
  function LayoutOf(w: World, ns: seq<int>, sizes: seq<Size>, terms: seq<int>, mixed: bool): C.Layout
    requires |ns| == |sizes|
  {
    C.Layout(PartsOf(w.sizeMax, ns, sizes), mixed, Total(w.sizeMax, terms) % (w.sizeMax + 1))
  }

  function FreeBlock(s: State): Flow {
    match s.block
    case Null(_) => Go(s)
    case Live(_) => Go(s.(block := Freed))
    case _ => Stuck
  }

  function FreeAndRefuse(s: State, nullable: bool, defs: seq<(nat, int)>, code: int): Flow {
    var f := FreeBlock(s);
    if f.Go? then Refuse(f.s, nullable, defs, code) else f
  }

  function Junk(w: World, i: nat, n: nat): (r: seq<int>)
    ensures |r| == n && forall j :: 0 <= j < n ==> r[j] == w.junk(i, j)
  {
    seq(n, j requires 0 <= j < n => w.junk(i, j))
  }

  /** Array k of the block: its own stretch, or nothing at all where the block is null. */
  function Stretch(w: World, s: State, i: nat, k: nat): Flow
    requires i < |s.slots|
  {
    match s.block
    case Live(l) =>
      if C.Room(w.sizeMax, l).Some? && k < |l.parts|
         && C.Start(w.sizeMax, l, k) + C.Bytes(l.parts[k].n, l.parts[k].size) <= C.Room(w.sizeMax, l).value then
        Go(SetX(s, i, A(Junk(w, i, l.parts[k].n))))
      else Stuck
    case Null(l) => if k < |l.parts| && l.parts[k].n == 0 then Go(SetX(s, i, A([]))) else Stuck
    case _ => Stuck
  }

  /** `mpiwrapper_staged_keep` (src/mpiwrapper/staging.c:208-255). */
  function KeepBlock(w: World, s: State, request: int, persistent: bool): Flow {
    if !s.block.Null? && !s.block.Live? then Stuck
    else if s.block.l.nstaged == 0 || (!persistent && w.complete(request)) then FreeBlock(s)
    else if |s.table| == 0 then Stuck
    else
      match T.Fate(s.table, w.bits(request))
      case Stored =>
        Go(s.(block := Kept(T.Taken(s.table, w.bits(request))), table := T.Attached(s.table, w.bits(request))))
      case Duplicate => Go(s)
      case Full => Ret(s, ERR_INTERN)
  }

  function ExecBlock(w: World, nullable: bool, b: BlockStmt, s: State): Flow {
    match b
    case Allocate(lens, sizes, terms, mixed) =>
      if s.block != Unasked || |lens| != |sizes| || !AllLens(s, lens) || !AllLens(s, terms) then Stuck
      else Go(s.(block := Malloc(w, LayoutOf(w, LensNow(s, lens), sizes, LensNow(s, terms), mixed))))
    case NotNullOr(defs) =>
      if s.block.Null? && s.block.l.nstaged > 0 then Refuse(s, nullable, defs, ERR_INTERN) else Go(s)
    case CarveOut(i, k) => if i < |s.slots| then Stretch(w, s, i, k) else Stuck
    case NarrowInto(i, bytes, len, defs) =>
      var v := LenVal(s, len);
      if i >= |s.slots| || !v.I? || !s.slots[i].x.A? || v.i != |s.slots[i].x.a| then Stuck
      else
        (match NarrowLoop(s.slots[i].abi, v.i, bytes)
         case Fault => Stuck
         case Fit(a) => Go(SetX(s, i, A(a)))
         case Unfit => FreeAndRefuse(s, nullable, defs, ERR_TOO_LARGE))
    case SuccessOr(defs) => if s.ierror != 0 then FreeAndRefuse(s, nullable, defs, w.errorToAbi(s.ierror)) else Go(s)
    case HandlesOr => if s.clashed then Ret(s.(clashed := false), ERR_INTERN) else Go(s)
    case KeepOr(i, persistent) =>
      if i < |s.slots| && s.slots[i].x.I? then KeepBlock(w, s, s.slots[i].x.i, persistent) else Stuck
    case Succeed => Ret(s, ABI_SUCCESS)
  }

  function Exec1(w: World, nullable: bool, st: Stmt, s: State): Flow {
    match st
    case Convert(i, fam) =>
      if i < |s.slots| && s.slots[i].abi.I? then Go(SetX(s, i, I(From(w, fam, s.slots[i].abi.i)))) else Stuck
    case Alias(i) => if i < |s.slots| then Go(SetX(s, i, Ptr)) else Stuck
    case Init(i, v) => if i < |s.slots| then Go(SetX(s, i, I(v))) else Stuck
    case InPlaceFlag(i) =>
      if i < |s.slots| && s.slots[i].abi.I? then Go(SetAux(s, i, Flag(s.slots[i].abi.i == w.inPlace))) else Stuck
    case AbsentFlag(i) => if i < |s.slots| then Go(SetAux(s, i, Flag(s.slots[i].abi == Absent))) else Stuck
    case Keep(i) => if i < |s.slots| && s.slots[i].x.I? then Go(SetAux(s, i, s.slots[i].x)) else Stuck
    case NarrowOr(i, bytes, defs) =>
      if i < |s.slots| && s.slots[i].abi.I? && s.slots[i].x.I? then
        if Fits(s.slots[i].abi.i, bytes) then Go(SetX(s, i, s.slots[i].abi))
        else Refuse(s, nullable, defs, ERR_TOO_LARGE)
      else Stuck
    case NotNegativeOr(l, defs) =>
      var v := LenVal(s, OfParam(l));
      if !v.I? then Stuck else if v.i < 0 then Refuse(s, nullable, defs, ERR_COUNT) else Go(s)
    case NoOverflowOr(l, size, defs) =>
      var v := LenVal(s, OfParam(l));
      if !v.I? then Stuck
      else if v.i < 0 || v.i > w.sizeMax / size then Refuse(s, nullable, defs, ERR_COUNT) else Go(s)
    case ProbeOr(id, defs) =>
      if w.probeError(id) != 0 then Refuse(s, nullable, defs, w.errorToAbi(w.probeError(id)))
      else Go(s.(lens := s.lens[id := w.probeLen(id)]))
    case NullTemp(i) => if i < |s.slots| then Go(SetX(s, i, Absent)) else Stuck
    case InternByDefault => Go(s.(result := ERR_INTERN))
    case Define(i, v) => if i < |s.slots| then Assign(s, nullable, i, v) else Stuck
    case Alloc(i, len, size, skip, zeroed) =>
      var v := LenVal(s, len);
      if i >= |s.slots| || !v.I? || s.slots[i].x != Absent || (skip && !s.slots[i].aux.I?) then Stuck
      else if skip && s.slots[i].aux.i != 0 then Go(s)
      else if v.i < 0 || v.i > w.sizeMax / size || w.allocFails(i) then Jump(s)
      else
        var n: nat := v.i;
        var t := A(seq(n, k requires 0 <= k < n => if zeroed then 0 else w.junk(i, k)));
        Go(SetX(s, i, t).(held := s.held + multiset{i}))
    case Fill(i, fam, len, inplace, buffer) =>
      var v := LenVal(s, len);
      if i >= |s.slots| || !v.I? || !s.slots[i].x.A? || v.i != |s.slots[i].x.a| then Stuck
      else if inplace && (buffer >= |s.slots| || !s.slots[buffer].aux.I?) then Stuck
      else if inplace && s.slots[buffer].aux.i != 0 then
        Go(SetX(s, i, A(seq(|s.slots[i].x.a|, _ => w.implNull(fam)))))
      else if s.slots[i].abi.A? && v.i <= |s.slots[i].abi.a| then
        Go(SetX(s, i, A(FromAll(w, fam, s.slots[i].abi.a[..v.i]))))
      else Stuck
    case NarrowFill(i, bytes, len, defs) =>
      var v := LenVal(s, len);
      if i >= |s.slots| || !v.I? || !s.slots[i].x.A? || v.i != |s.slots[i].x.a| then Stuck
      else
        (match NarrowLoop(s.slots[i].abi, v.i, bytes)
         case Fault => Stuck
         case Fit(a) => Go(SetX(s, i, A(a)))
         case Unfit =>
           var f := DefineAll(s, nullable, defs);
           if f.Go? then Jump(f.s.(result := ERR_TOO_LARGE)) else f)
    case Local(i) => if i < |s.slots| then Go(SetX(s, i, Uninit)) else Stuck
    case Call(args) => ExecCall(w, args, s)
    case StoreHandle(i, fam) =>
      if i >= |s.slots| then Stuck
      else if s.ierror != 0 then Assign(s, nullable, i, w.abiNull(fam))
      else if s.slots[i].abi == Absent then Assign(s, nullable, i, 0)
      else if !s.slots[i].x.I? then Stuck
      else Assign(s.(clashed := s.clashed || Clash(w, fam, s.slots[i].x.i)), nullable, i, To(w, fam, s.slots[i].x.i))
    case Store(i, fam) =>
      if i >= |s.slots| then Stuck
      else if s.slots[i].abi == Absent then Assign(s, nullable, i, 0)
      else if !s.slots[i].x.I? then Stuck
      else Assign(s.(clashed := s.clashed || Clash(w, fam, s.slots[i].x.i)), nullable, i, To(w, fam, s.slots[i].x.i))
    case StoreStatus(i) =>
      if i >= |s.slots| || !s.slots[i].aux.I? then Stuck
      else if s.slots[i].aux.i != 0 then Go(s)
      else if s.slots[i].abi.I? && s.slots[i].x.I? then
        Go(SetAbi(s, i, I(w.keepError(s.slots[i].abi.i, s.slots[i].x.i))))
      else Stuck
    case ReleaseOne(i) =>
      if i < |s.slots| && s.slots[i].x.I? && s.slots[i].aux.I? then
        if w.anyStaged && s.slots[i].x.i == w.implNull(REQUEST) && s.slots[i].aux.i != w.implNull(REQUEST) then
          Go(s.(released := s.released + [s.slots[i].aux.i]))
        else Go(s)
      else Stuck
    case ReleaseEach(i, len) =>
      if i < |s.slots| && s.slots[i].x.A? && s.slots[i].abi.A? && LenVal(s, len) == I(|s.slots[i].x.a|)
         && |s.slots[i].x.a| <= |s.slots[i].abi.a| then
        if w.anyStaged then Go(s.(released := s.released + Nulled(w, s.slots[i].abi.a, s.slots[i].x.a))) else Go(s)
      else Stuck
    case CopyAll(i, len) =>
      if i < |s.slots| && s.slots[i].x.A? && s.slots[i].abi.A? && LenVal(s, len) == I(|s.slots[i].x.a|)
         && |s.slots[i].x.a| <= |s.slots[i].abi.a| then
        var n := |s.slots[i].x.a|;
        Go(SetAbi(s.(clashed := s.clashed || ClashIn(w, REQUEST, s.slots[i].x.a)), i,
                  A(ToAll(w, REQUEST, s.slots[i].x.a) + s.slots[i].abi.a[n..])))
      else Stuck
    case CopyOnSuccess(i, fam, ext, skip) =>
      if i >= |s.slots| || (skip && !s.slots[i].aux.I?) then Stuck
      else if s.ierror != 0 || (skip && s.slots[i].aux.i != 0) then Go(s)
      else
        var n := BackCount(s, ext);
        if s.slots[i].x.A? && s.slots[i].abi.A? && 0 <= n <= |s.slots[i].x.a| && n <= |s.slots[i].abi.a| then
          Go(SetAbi(s.(clashed := s.clashed || ClashIn(w, fam, s.slots[i].x.a[..n])), i,
                    A(ToAll(w, fam, s.slots[i].x.a[..n]) + s.slots[i].abi.a[n..])))
        else Stuck
    case CopyStatuses(i, ext) =>
      if i >= |s.slots| || !s.slots[i].aux.I? then Stuck
      else if s.slots[i].aux.i != 0 then Go(s)
      else
        var n := BackCount(s, ext);
        if s.slots[i].x.A? && s.slots[i].abi.A? && 0 <= n <= |s.slots[i].x.a| && n <= |s.slots[i].abi.a| then
          Go(SetAbi(s, i, A(StatusAll(w, s.slots[i].x.a[..n]) + s.slots[i].abi.a[n..])))
        else Stuck
    case MapOnSuccess(i, fam, ext) =>
      if s.ierror != 0 then Go(s)
      else
        var n := BackCount(s, ext);
        if i < |s.slots| && s.slots[i].x == Ptr && s.slots[i].abi.A? && 0 <= n <= |s.slots[i].abi.a| then
          Go(SetAbi(s, i, A(ToAll(w, fam, s.slots[i].abi.a[..n]) + s.slots[i].abi.a[n..])))
        else Stuck
    case SetResult => Go(s.(result := w.errorToAbi(s.ierror)))
    case CheckHandles => if s.clashed then Go(s.(result := ERR_INTERN, clashed := false)) else Go(s)
    case Done => Go(s)
    case Unstage(i) =>
      if i < |s.slots| && s.slots[i].x == Absent then Go(s)
      else if i < |s.slots| && s.slots[i].x.A? && i in s.held then Go(s.(held := s.held - multiset{i}))
      else Stuck
    case ReturnResult => Ret(s, s.result)
    case Own(b) => ExecBlock(w, nullable, b, s)
  }

  lemma CallIs(w: World, nullable: bool, args: seq<Arg>, s: State)
    ensures Exec1(w, nullable, Call(args), s) == ExecCall(w, args, s)
  {
  }

  lemma OwnIs(w: World, nullable: bool, b: BlockStmt, s: State)
    ensures Exec1(w, nullable, Own(b), s) == ExecBlock(w, nullable, b, s)
  {
  }

  lemma CallDoes(w: World, args: seq<Arg>, s: State, vals: seq<Val>)
    requires vals == PassAll(s, args) && Undeclared !in vals && |args| <= |w.impl(vals).out|
    ensures ExecCall(w, args, s) ==
            Go(WriteAll(s.(calls := s.calls + [vals], ierror := w.impl(vals).ierror), args, w.impl(vals).out))
  {
  }

  lemma WriteCons(s: State, args: seq<Arg>, out: seq<Val>)
    requires 0 < |args| <= |out|
    ensures WriteAll(s, args, out) == WriteAll(Written(s, args[0], out[0]), args[1..], out[1..])
  {
  }

  type Step = (Stmt, State) -> Flow

  /** A `goto done` skips to the label; a return or a fault ends the body.  `step` is what one statement does. */
  function Exec(step: Step, body: seq<Stmt>, f: Flow): Flow
    decreases |body|
  {
    if body == [] then f
    else
      var f' := match f
        case Go(s) => step(body[0], s)
        case Jump(s) => if body[0] == Done then Go(s) else f
        case _ => f;
      Exec(step, body[1..], f')
  }

  lemma {:induction false} ExecConcat(step: Step, a: seq<Stmt>, b: seq<Stmt>, f: Flow)
    ensures Exec(step, a + b, f) == Exec(step, b, Exec(step, a, f))
    decreases |a|
  {
    if a == [] {
      assert a + b == b;
    } else {
      assert (a + b)[1..] == a[1..] + b;
      var f' := match f
        case Go(s) => step(a[0], s)
        case Jump(s) => if a[0] == Done then Go(s) else f
        case _ => f;
      ExecConcat(step, a[1..], b, f');
    }
  }

  /** Once a body has returned or faulted, nothing more happens. */
  lemma {:induction false} ExecEnded(step: Step, body: seq<Stmt>, f: Flow)
    requires f.Ret? || f.Stuck?
    ensures Exec(step, body, f) == f
    decreases |body|
  {
    if body != [] { ExecEnded(step, body[1..], f); }
  }

  /** A jump passes every statement but the label. */
  lemma {:induction false} ExecJump(step: Step, body: seq<Stmt>, s: State)
    requires Done !in body
    ensures Exec(step, body, Jump(s)) == Jump(s)
    decreases |body|
  {
    if body != [] { ExecJump(step, body[1..], s); }
  }
}
