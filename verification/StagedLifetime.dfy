/** Staged temporaries that outlive their call, as an interleaving of single atomic steps
  * (src/mpiwrapper/staging.c:94-282; dev/generate.py:2857-2888). */
module StagedLifetime {
  import opened Common
  import opened StagedKeys

  // A posting call hands its block to `mpiwrapper_staged_keep`; every completion call releases the pre-call handle
  // wherever the implementation has nulled it.  One operation is driven by at most one thread at a time -- the poster,
  // and later the thread whose completion call nulled the handle -- so a thread is represented by the operation it is
  // driving, and any number of operations may be mid-call at once.  The block of operation `o` is named `o`.

  type OpId = nat

  datatype Kind = Nonblocking | Persistent

  /** What the implementation is doing with the operation.  A persistent request alternates between Inactive
    * and Running until it is freed; a nonblocking one goes from Running to Complete. */
  datatype Phase = Running | Complete | Inactive | Nulled

  datatype Fate = Dropped | Stored | Duplicate | Full

  datatype Pc =
    | Keep                                        // the call has returned; decide what to do with the block
    | Probe(i: nat) | Claim(i: nat, seen: Word)   // attach: load a key, then compare-and-swap it
    | Publish(slot: nat) | Count(slot: nat)       // attach: store the block, bump the live count
    | Rest                                        // the posting call has returned to the application
    | Check                                       // a completion call saw the handle nulled
    | Seek(i: nat) | Lock(slot: nat)              // release: load a key, then compare-and-swap it to LOCKED
    | Take(slot: nat) | Uncount(slot: nat, block: Option<OpId>)
    | Bury(slot: nat, block: Option<OpId>) | Free(block: Option<OpId>)
    | Gone                                        // the release is over

  /** `own` says the implementation allocated a request for the operation; otherwise the value is a built-in
    * request it shares among operations that were complete when their call returned.
    * `fate` and `at` are history: what `keep` decided, and the probe index at which the block was stored. */
  datatype Op = Op(handle: Word, home: nat, kind: Kind, own: bool, nstaged: nat, phase: Phase, pc: Pc,
                   fate: Option<Fate>, at: Option<nat>)

  datatype State = State(key: seq<Word>, block: seq<Option<OpId>>, live: int, ops: map<OpId, Op>,
                         freed: multiset<OpId>)

  datatype Action =
    | Post(o: OpId, handle: Word, kind: Kind, own: bool, nstaged: nat, complete: bool)
    | Start(o: OpId) | Finish(o: OpId) | Null(o: OpId) | Drive(o: OpId)

  predicate Initial(s: State) {
    && |s.key| > 0 && |s.block| == |s.key|
    && (forall p | 0 <= p < |s.key| :: s.key[p] == KEY_EMPTY && s.block[p] == None)
    && s.live == 0 && s.ops == map[] && s.freed == multiset{}
  }

  /** The implementation may still read the arrays staged for the operation: until completion for a nonblocking
    * collective, until the request is freed for a persistent one (sections 6.12 and 6.13 of MPI-5.0). */
  predicate Readable(op: Op) {
    op.nstaged > 0 && op.phase != Nulled && (op.kind == Persistent || op.phase == Running)
  }

  /** Program counters only name slots and probes of this table. */
  predicate InRange(s: State, pc: Pc) {
    match pc
    case Probe(i) => i < |s.key|
    case Claim(i, _) => i < |s.key|
    case Seek(i) => i < |s.key|
    case Publish(p) => p < |s.key|
    case Count(p) => p < |s.key|
    case Lock(p) => p < |s.key|
    case Take(p) => p < |s.key|
    case Uncount(p, _) => p < |s.key|
    case Bury(p, _) => p < |s.key|
    case _ => true
  }

  predicate Shaped(s: State) {
    |s.key| > 0 && |s.block| == |s.key|
  }

  predicate InTable(s: State, op: Op) {
    op.home < |s.key| && InRange(s, op.pc)
  }

  /** When the implementation may hand out the value `h` again.  Two requests that are not yet nulled share a
    * value only if both are shared built-ins.  With `settled`, a nulled request's value additionally stays out
    * of circulation until the completion call that nulled it has finished releasing. */
  ghost predicate MayIssue(s: State, h: Word, own: bool, settled: bool) {
    forall p | p in s.ops && s.ops[p].handle == h && (own || s.ops[p].own) ::
      s.ops[p].phase == Nulled && (settled ==> s.ops[p].pc == Gone)
  }

  ghost predicate Enabled(s: State, a: Action, settled: bool) {
    match a
    case Post(o, h, kind, own, nstaged, complete) =>
      && o !in s.ops && !Reserved(h)
      && (kind == Persistent ==> own && !complete)
      && (!own ==> complete)
      && MayIssue(s, h, own, settled)
    case Start(o) =>
      o in s.ops && s.ops[o].kind == Persistent && s.ops[o].phase == Inactive && s.ops[o].pc == Rest
    case Finish(o) =>
      o in s.ops && s.ops[o].phase == Running
    case Null(o) =>
      o in s.ops && s.ops[o].pc == Rest && (s.ops[o].phase == Complete || s.ops[o].phase == Inactive)
    case Drive(o) =>
      o in s.ops && s.ops[o].pc != Rest && s.ops[o].pc != Gone && InTable(s, s.ops[o])
  }

  function SetOp(s: State, o: OpId, op: Op): State {
    s.(ops := s.ops[o := op])
  }

  function Settle(s: State, o: OpId, op: Op, fate: Fate): State {
    SetOp(s, o, op.(pc := Rest, fate := Some(fate)))
  }

  /** The next probe of an attach, or the end of the table. */
  function AttachNext(s: State, o: OpId, op: Op, i: nat): State {
    if i + 1 < |s.key| then SetOp(s, o, op.(pc := Probe(i + 1))) else Settle(s, o, op, Full)
  }

  function FreeBlock(s: State, b: Option<OpId>): State {
    match b
    case None => s
    case Some(o) => s.(freed := s.freed + multiset{o})
  }

  /** One atomic step of the thread driving operation `o`. */
  function DriveStep(s: State, o: OpId): State
    requires Shaped(s) && o in s.ops && InTable(s, s.ops[o])
  {
    var op := s.ops[o];
    var n := |s.key|;
    match op.pc
    case Keep =>
      if op.nstaged == 0 || (op.kind == Nonblocking && op.phase == Complete) then
        Settle(FreeBlock(s, Some(o)), o, op, Dropped)
      else
        SetOp(s, o, op.(pc := Probe(0)))
    case Probe(i) =>
      var k := s.key[Slot(op.home, n, i)];
      if StagedKeys.Free(k) then SetOp(s, o, op.(pc := Claim(i, k)))
      else if k == op.handle then Settle(s, o, op, Duplicate)
      else AttachNext(s, o, op, i)
    case Claim(i, seen) =>
      var p := Slot(op.home, n, i);
      if s.key[p] == seen then
        SetOp(s.(key := s.key[p := op.handle]), o, op.(pc := Publish(p), at := Some(i)))
      else AttachNext(s, o, op, i)
    case Publish(p) =>
      SetOp(s.(block := s.block[p := Some(o)]), o, op.(pc := Count(p)))
    case Count(p) =>
      Settle(s.(live := s.live + 1), o, op, Stored)
    case Check =>
      SetOp(s, o, op.(pc := if s.live == 0 then Gone else Seek(0)))
    case Seek(i) =>
      var p := Slot(op.home, n, i);
      if s.key[p] == KEY_EMPTY then SetOp(s, o, op.(pc := Gone))
      else if s.key[p] == op.handle then SetOp(s, o, op.(pc := Lock(p)))
      else SetOp(s, o, op.(pc := if i + 1 < n then Seek(i + 1) else Gone))
    case Lock(p) =>
      if s.key[p] == op.handle then SetOp(s.(key := s.key[p := KEY_LOCKED]), o, op.(pc := Take(p)))
      else SetOp(s, o, op.(pc := Gone))
    case Take(p) =>
      SetOp(s.(block := s.block[p := None]), o, op.(pc := Uncount(p, s.block[p])))
    case Uncount(p, b) =>
      SetOp(s.(live := s.live - 1), o, op.(pc := Bury(p, b)))
    case Bury(p, b) =>
      SetOp(s.(key := s.key[p := KEY_TOMB]), o, op.(pc := Pc.Free(b)))
    case Free(b) =>
      SetOp(FreeBlock(s, b), o, op.(pc := Gone))
    case Rest => s
    case Gone => s
  }

  function Apply(s: State, a: Action): State
    requires Shaped(s) && (a.Post? || a.o in s.ops) && (a.Drive? ==> InTable(s, s.ops[a.o]))
  {
    match a
    case Post(o, h, kind, own, nstaged, complete) =>
      var phase := if kind == Persistent then Inactive else if complete then Complete else Running;
      SetOp(s, o, Op(h, Home(h, |s.key|), kind, own, nstaged, phase, Keep, None, None))
    case Start(o) => SetOp(s, o, s.ops[o].(phase := Running))
    case Finish(o) =>
      SetOp(s, o, s.ops[o].(phase := if s.ops[o].kind == Persistent then Inactive else Complete))
    case Null(o) => SetOp(s, o, s.ops[o].(phase := Nulled, pc := Check))
    case Drive(o) => DriveStep(s, o)
  }

  ghost predicate Next(s: State, t: State, settled: bool) {
    Shaped(s) && exists a :: Enabled(s, a, settled) && t == Apply(s, a)
  }

  /** A run: any interleaving, of any length, by any number of threads. */
  ghost predicate Run(tr: seq<State>, settled: bool) {
    |tr| > 0 && Initial(tr[0]) && forall i | 0 <= i < |tr| - 1 :: Next(tr[i], tr[i + 1], settled)
  }

  // ---------------------------------------------------------------- the invariant

  /** The thread driving the operation holds, or the table holds for it, a slot whose key word is its own. */
  predicate Keyed(op: Op) {
    op.at.Some? && (op.pc.Publish? || op.pc.Count? || op.pc.Rest? || op.pc.Check? || op.pc.Seek? || op.pc.Lock?)
  }

  predicate KeyedAt(op: Op, n: nat, q: nat) {
    Keyed(op) && op.home < n && op.at.value < n && Slot(op.home, n, op.at.value) == q
  }

  predicate Locked(op: Op) {
    op.pc.Take? || op.pc.Uncount? || op.pc.Bury?
  }

  predicate Holds(op: Op) {
    Keyed(op) || Locked(op)
  }

  predicate Counted(op: Op) {
    op.at.Some? && (op.pc.Rest? || op.pc.Check? || op.pc.Seek? || op.pc.Lock? || op.pc.Take? || op.pc.Uncount?)
  }

  ghost function CountedOps(ops: map<OpId, Op>): set<OpId> {
    set o | o in ops && Counted(ops[o])
  }

  /** The part of the invariant that mentions only the operation itself. */
  predicate Local(op: Op, n: nat) {
    && !Reserved(op.handle)
    && (!op.own ==> op.kind == Nonblocking && op.phase != Running)
    && (op.kind == Persistent ==> op.own && op.phase != Complete)
    && (op.kind == Nonblocking ==> op.phase != Inactive)
    && (op.phase == Nulled <==>
        op.pc.Check? || op.pc.Seek? || op.pc.Lock? || Locked(op) || op.pc.Free? || op.pc.Gone?)
    && (op.at.Some? ==> op.at.value < n)
    && (op.pc.Keep? || op.pc.Probe? || op.pc.Claim? ==> op.at == None && op.fate == None)
    && (op.pc.Publish? || op.pc.Count? ==> op.at.Some? && op.fate == None)
    && (op.pc.Rest? || op.phase == Nulled ==> op.fate.Some? && (op.at.Some? <==> op.fate == Some(Stored)))
    && (op.pc.Lock? || Locked(op) || op.pc.Free? ==> op.at.Some?)
    && (op.pc.Probe? || op.pc.Claim? || op.at.Some? ==> op.own && op.nstaged > 0)
    && op.fate != Some(Duplicate)
    && (op.fate == Some(Dropped) ==> op.nstaged == 0 || (op.kind == Nonblocking && op.phase != Running))
    && (op.pc.Claim? ==> StagedKeys.Free(op.pc.seen))
  }

  predicate Unbroken(s: State, op: Op, upto: nat)
    requires upto <= |s.key| && op.home < |s.key|
  {
    forall j | 0 <= j < upto :: s.key[Slot(op.home, |s.key|, j)] != KEY_EMPTY
  }

  /** The slot an operation holds carries its key, or LOCKED while it is being released, and its block. */
  predicate AtSlot(s: State, o: OpId, op: Op)
    requires Shaped(s) && op.home < |s.key|
  {
    Holds(op) ==>
      && op.at.Some? && op.at.value < |s.key|
      && var p := Slot(op.home, |s.key|, op.at.value);
      && s.key[p] == (if Locked(op) then KEY_LOCKED else op.handle)
      && s.block[p] == (if op.pc.Publish? || op.pc.Uncount? || op.pc.Bury? then None else Some(o))
      && Unbroken(s, op, op.at.value)
      && (op.pc.Publish? || op.pc.Count? || op.pc.Lock? || Locked(op) ==> op.pc.slot == p)
  }

  predicate Cursor(s: State, op: Op)
    requires Shaped(s) && op.home < |s.key|
  {
    && (op.pc.Probe? || op.pc.Claim? ==> op.pc.i < |s.key| && Unbroken(s, op, op.pc.i))
    && (op.pc.Claim? && op.pc.seen == KEY_TOMB ==> s.key[Slot(op.home, |s.key|, op.pc.i)] != KEY_EMPTY)
    && (op.pc.Seek? && op.at.Some? ==> op.pc.i <= op.at.value)
  }

  predicate Ledger(s: State, o: OpId, op: Op) {
    && (op.pc.Uncount? || op.pc.Bury? || op.pc.Free? ==> op.pc.block == Some(o))
    && s.freed[o] == (if op.fate == Some(Dropped) || (op.pc == Gone && op.at.Some?) then 1 else 0)
  }

  predicate OpInv(s: State, o: OpId)
    requires Shaped(s) && o in s.ops
  {
    var op := s.ops[o];
    InTable(s, op) && Local(op, |s.key|) && AtSlot(s, o, op) && Cursor(s, op) && Ledger(s, o, op)
  }

  predicate HeldAt(op: Op, n: nat, q: nat) {
    Holds(op) && op.at.Some? && op.home < n && op.at.value < n && Slot(op.home, n, op.at.value) == q
  }

  /** Two operations share a request value only if both are built-ins or one has been released, and they never
    * hold the same slot. */
  predicate Apart(s: State, o: OpId, p: OpId)
    requires Shaped(s) && o in s.ops && p in s.ops
  {
    var a, b, n := s.ops[o], s.ops[p], |s.key|;
    && (a.handle == b.handle && (a.own || b.own) ==> a.pc == Gone || b.pc == Gone)
    && (Holds(a) && Holds(b) && a.at.Some? && b.at.Some? ==>
        && a.home < n && b.home < n && a.at.value < n && b.at.value < n
        && Slot(a.home, n, a.at.value) != Slot(b.home, n, b.at.value))
  }

  /** A key word is in the table on behalf of an operation that has not been released, and a block is in the
    * table only where its operation holds the slot. */
  ghost predicate Owned(s: State, q: nat)
    requires q < |s.key| == |s.block|
  {
    && (s.block[q].Some? ==> s.block[q].value in s.ops && HeldAt(s.ops[s.block[q].value], |s.key|, q))
    && (!Reserved(s.key[q]) ==> exists o :: o in s.ops && KeyedAt(s.ops[o], |s.key|, q) && s.ops[o].handle == s.key[q])
  }

  ghost predicate Inv(s: State) {
    && Shaped(s)
    && (forall o {:trigger OpInv(s, o)} | o in s.ops :: OpInv(s, o))
    && (forall o, p {:trigger Apart(s, o, p)} | o in s.ops && p in s.ops && o != p :: Apart(s, o, p))
    && (forall q {:trigger Owned(s, q)} | 0 <= q < |s.key| :: Owned(s, q))
    && s.live == |CountedOps(s.ops)|
    && (forall o | o in s.freed :: o in s.ops)
  }

  lemma InitialInv(s: State)
    requires Initial(s)
    ensures Inv(s)
  {
    assert CountedOps(s.ops) == {};
  }

  // ---------------------------------------------------------------- preservation, one step at a time

  lemma CountMoves(ops: map<OpId, Op>, o: OpId, op: Op)
    ensures |CountedOps(ops[o := op])| == |CountedOps(ops)| + (if Counted(op) then 1 else 0)
                                          - (if o in ops && Counted(ops[o]) then 1 else 0)
  {
    var rest := CountedOps(ops) - {o};
    assert CountedOps(ops[o := op]) == if Counted(op) then rest + {o} else rest;
    assert CountedOps(ops) == if o in ops && Counted(ops[o]) then rest + {o} else rest;
  }

  /** What an operation needs of the table is unaffected by a change of a slot it does not hold. */
  lemma OpFrame(s: State, t: State, o: OpId, q: nat)
    requires Shaped(s) && Shaped(t) && o in s.ops && o in t.ops && s.ops[o] == t.ops[o] && OpInv(s, o)
    requires q < |s.key| && t.freed[o] == s.freed[o]
    requires |t.key| == |s.key| && t.key == s.key[q := t.key[q]] && t.block == s.block[q := t.block[q]]
    requires t.key[q] != KEY_EMPTY || s.key[q] == KEY_EMPTY
    requires (t.key[q] == s.key[q] && t.block[q] == s.block[q])
             || (Holds(s.ops[o]) ==> Slot(s.ops[o].home, |s.key|, s.ops[o].at.value) != q)
    ensures OpInv(t, o)
  {
    var op, n := s.ops[o], |s.key|;
    assert forall j | 0 <= j < n :: t.key[j] == KEY_EMPTY ==> s.key[j] == KEY_EMPTY;
  }

  /** Slot `q` loses `o`'s key exactly when `o` stops being keyed there, and gains a key only for `o`. */
  predicate KeyMoves(s: State, t: State, o: OpId, q: nat)
    requires o in s.ops && o in t.ops && q < |s.key| == |t.key|
  {
    var was, now := s.ops[o], t.ops[o];
    && (Keyed(was) ==> (KeyedAt(was, |s.key|, q) && Reserved(t.key[q])) || (Keyed(now) && now.at == was.at))
    && (!Reserved(t.key[q]) ==>
        t.key[q] == s.key[q] || (KeyedAt(now, |t.key|, q) && now.handle == t.key[q]))
  }

  /** One operation steps; it touches at most slot `q`, which is free or its own, and frees at most its block. */
  predicate StepShape(s: State, t: State, o: OpId, q: nat) {
    && Shaped(s) && Shaped(t) && o in s.ops && o in t.ops && s.ops[o].pc != Gone
    && q < |s.key| == |t.key| && t.key == s.key[q := t.key[q]] && t.block == s.block[q := t.block[q]]
    && (t.key[q] != KEY_EMPTY || s.key[q] == KEY_EMPTY)
    && t.ops == s.ops[o := t.ops[o]] && t.ops[o].handle == s.ops[o].handle && t.ops[o].home == s.ops[o].home
    && t.ops[o].own == s.ops[o].own
    && ((t.key[q] == s.key[q] && t.block[q] == s.block[q]) || StagedKeys.Free(s.key[q])
        || HeldAt(s.ops[o], |s.key|, q))
    && (t.block[q].Some? ==> (t.block[q] == Some(o) && HeldAt(t.ops[o], |t.key|, q))
                             || (t.block[q] == s.block[q] && t.block[q] != Some(o)))
    && (Holds(s.ops[o]) ==> HeldAt(s.ops[o], |s.key|, q) || (Holds(t.ops[o]) && t.ops[o].at == s.ops[o].at))
    && (Holds(t.ops[o]) ==> (Holds(s.ops[o]) && t.ops[o].at == s.ops[o].at)
                            || (HeldAt(t.ops[o], |t.key|, q) && StagedKeys.Free(s.key[q])))
    && KeyMoves(s, t, o, q)
    && (t.freed == s.freed || t.freed == s.freed + multiset{o})
    && t.live - s.live == (if Counted(t.ops[o]) then 1 else 0) - (if Counted(s.ops[o]) then 1 else 0)
  }

  lemma OthersStep(s: State, t: State, o: OpId, q: nat, p: OpId)
    requires Inv(s) && StepShape(s, t, o, q) && p in s.ops && p != o
    ensures OpInv(t, p)
  {
    assert OpInv(s, p) && OpInv(s, o) && Apart(s, o, p);
    assert t.ops[p] == s.ops[p];
    OpFrame(s, t, p, q);
  }

  lemma ApartStep(s: State, t: State, o: OpId, q: nat, a: OpId, b: OpId)
    requires Inv(s) && StepShape(s, t, o, q) && a in t.ops && b in t.ops && a != b
    ensures Apart(t, a, b)
  {
    assert a in s.ops && b in s.ops;
    assert Apart(s, a, b) && Apart(s, b, a) && OpInv(s, a) && OpInv(s, b);
  }

  lemma OwnedStep(s: State, t: State, o: OpId, q: nat, r: nat)
    requires Inv(s) && StepShape(s, t, o, q) && r < |t.key|
    ensures Owned(t, r)
  {
    assert Owned(s, r) && OpInv(s, o);
    if !Reserved(t.key[r]) {
      if t.key[r] == s.key[r] {
        var p :| p in s.ops && KeyedAt(s.ops[p], |s.key|, r) && s.ops[p].handle == s.key[r];
        assert p in t.ops && KeyedAt(t.ops[p], |t.key|, r);
      } else {
        assert KeyedAt(t.ops[o], |t.key|, r);
      }
    }
  }

  /** A step re-establishes the invariant if it re-establishes the stepping operation's own part. */
  lemma StepInv(s: State, t: State, o: OpId, q: nat)
    requires Inv(s) && StepShape(s, t, o, q) && OpInv(t, o)
    ensures Inv(t)
  {
    CountMoves(s.ops, o, t.ops[o]);
    forall p | p in t.ops ensures OpInv(t, p) {
      if p != o { OthersStep(s, t, o, q, p); }
    }
    forall a, b | a in t.ops && b in t.ops && a != b ensures Apart(t, a, b) {
      ApartStep(s, t, o, q, a, b);
    }
    forall r | 0 <= r < |t.key| ensures Owned(t, r) {
      OwnedStep(s, t, o, q, r);
    }
  }

  lemma NewOwned(s: State, o: OpId, op: Op, q: nat)
    requires Inv(s) && o !in s.ops && q < |s.key|
    ensures Owned(SetOp(s, o, op), q)
  {
    assert Owned(s, q);
    if !Reserved(s.key[q]) {
      var p :| p in s.ops && KeyedAt(s.ops[p], |s.key|, q) && s.ops[p].handle == s.key[q];
      assert p in SetOp(s, o, op).ops && KeyedAt(SetOp(s, o, op).ops[p], |s.key|, q);
    }
  }

  lemma NewOp(s: State, o: OpId, op: Op, p: OpId)
    requires Inv(s) && o !in s.ops && p in s.ops
    ensures OpInv(SetOp(s, o, op), p)
  {
    assert OpInv(s, p);
    OpFrame(s, SetOp(s, o, op), p, 0);
  }

  lemma NewApart(s: State, o: OpId, op: Op, p: OpId, r: OpId)
    requires Inv(s) && o !in s.ops && op.pc == Keep && op.home < |s.key| && MayIssue(s, op.handle, op.own, true)
    requires p != r && p in s.ops && (r in s.ops || r == o)
    ensures Apart(SetOp(s, o, op), p, r) && Apart(SetOp(s, o, op), r, p)
  {
    assert r != o ==> Apart(s, p, r) && Apart(s, r, p);
  }

  lemma NewInv(s: State, o: OpId, op: Op)
    requires Inv(s) && o !in s.ops && op.pc == Keep && op.home < |s.key|
    requires OpInv(SetOp(s, o, op), o) && MayIssue(s, op.handle, op.own, true)
    ensures Inv(SetOp(s, o, op))
  {
    var t := SetOp(s, o, op);
    CountMoves(s.ops, o, op);
    forall p | p in t.ops ensures OpInv(t, p) {
      if p != o { NewOp(s, o, op, p); }
    }
    forall p, r | p in t.ops && r in t.ops && p != r ensures Apart(t, p, r) {
      if p != o { NewApart(s, o, op, p, r); } else { NewApart(s, o, op, r, p); }
    }
    forall q | 0 <= q < |t.key| ensures Owned(t, q) { NewOwned(s, o, op, q); }
  }

  /** A slot carrying an operation's request value is the slot that operation holds. */
  lemma NoForeignKey(s: State, o: OpId, q: nat)
    requires Inv(s) && o in s.ops && s.ops[o].pc != Gone
    requires q < |s.key| && s.key[q] == s.ops[o].handle
    ensures KeyedAt(s.ops[o], |s.key|, q)
  {
    assert OpInv(s, o) && Owned(s, q);
    var p :| p in s.ops && KeyedAt(s.ops[p], |s.key|, q) && s.ops[p].handle == s.key[q];
    assert OpInv(s, p);
    assert p != o ==> Apart(s, o, p);
  }

  // What one step does to the stepping operation, with no global invariant in scope.

  predicate Stepped(s: State, t: State, o: OpId, q: nat) {
    StepShape(s, t, o, q) && OpInv(t, o)
  }

  /** The slot a step of `o` may touch. */
  function Target(s: State, o: OpId): (q: nat)
    requires Shaped(s) && o in s.ops && InTable(s, s.ops[o])
    ensures q < |s.key|
  {
    var op := s.ops[o];
    match op.pc
    case Probe(i) => Slot(op.home, |s.key|, i)
    case Claim(i, _) => Slot(op.home, |s.key|, i)
    case Seek(i) => Slot(op.home, |s.key|, i)
    case Publish(p) => p
    case Count(p) => p
    case Lock(p) => p
    case Take(p) => p
    case Uncount(p, _) => p
    case Bury(p, _) => p
    case _ => 0
  }

  /** What a step of `o` relies on beyond its own part of the invariant. */
  predicate Context(s: State, o: OpId)
    requires Shaped(s) && o in s.ops && InTable(s, s.ops[o])
  {
    var op, q := s.ops[o], Target(s, o);
    && (s.block[q] == Some(o) ==> HeldAt(op, |s.key|, q))
    && (StagedKeys.Free(s.key[q]) ==> s.block[q] == None)
    && (s.key[q] == op.handle && op.pc != Gone ==> KeyedAt(op, |s.key|, q))
    && (Counted(op) ==> s.live > 0)
  }

  lemma InContext(s: State, o: OpId)
    requires Inv(s) && o in s.ops
    ensures OpInv(s, o) && Context(s, o)
  {
    assert OpInv(s, o);
    var q := Target(s, o);
    assert Owned(s, q);
    if s.block[q].Some? { assert OpInv(s, s.block[q].value); }
    if s.key[q] == s.ops[o].handle && s.ops[o].pc != Gone { NoForeignKey(s, o, q); }
    if Counted(s.ops[o]) { assert o in CountedOps(s.ops); }
  }

  /** Moving the program counter or the phase, and nothing else, has the shape of a step. */
  lemma QuietShape(s: State, o: OpId, op: Op, q: nat)
    requires Shaped(s) && o in s.ops && s.ops[o].pc != Gone && q < |s.key|
    requires s.block[q] == Some(o) ==> HeldAt(s.ops[o], |s.key|, q)
    requires op.(pc := s.ops[o].pc, phase := s.ops[o].phase, fate := s.ops[o].fate) == s.ops[o]
    requires Keyed(op) == Keyed(s.ops[o]) && Locked(op) == Locked(s.ops[o]) && Counted(op) == Counted(s.ops[o])
    ensures StepShape(s, SetOp(s, o, op), o, q)
  {
  }

  lemma KeepStep(s: State, o: OpId)
    requires Shaped(s) && o in s.ops && OpInv(s, o) && Context(s, o) && s.ops[o].pc.Keep?
    ensures Stepped(s, DriveStep(s, o), o, Target(s, o))
  {
  }

  /** Looking at a slot and moving on. */
  lemma LookStep(s: State, o: OpId)
    requires Shaped(s) && o in s.ops && OpInv(s, o) && Context(s, o)
    requires s.ops[o].pc.Probe? || s.ops[o].pc.Check?
    ensures Stepped(s, DriveStep(s, o), o, Target(s, o))
  {
    QuietShape(s, o, DriveStep(s, o).ops[o], Target(s, o));
  }

  lemma ClaimStep(s: State, o: OpId)
    requires Shaped(s) && o in s.ops && OpInv(s, o) && Context(s, o) && s.ops[o].pc.Claim?
    ensures Stepped(s, DriveStep(s, o), o, Target(s, o))
  {
  }

  lemma StoreStep(s: State, o: OpId)
    requires Shaped(s) && o in s.ops && OpInv(s, o) && Context(s, o)
    requires s.ops[o].pc.Publish? || s.ops[o].pc.Count?
    ensures Stepped(s, DriveStep(s, o), o, Target(s, o))
  {
  }

  /** A releaser's cursor never passes the slot its operation holds: what lies before it is never EMPTY. */
  lemma SeekStep(s: State, o: OpId)
    requires Shaped(s) && o in s.ops && OpInv(s, o) && Context(s, o) && s.ops[o].pc.Seek?
    ensures Stepped(s, DriveStep(s, o), o, Target(s, o))
  {
    var op, t := s.ops[o], DriveStep(s, o);
    if op.at.Some? && s.key[Target(s, o)] != op.handle {
      assert op.pc.i < op.at.value && s.key[Target(s, o)] != KEY_EMPTY;
    }
    QuietShape(s, o, t.ops[o], Target(s, o));
  }

  lemma LockStep(s: State, o: OpId)
    requires Shaped(s) && o in s.ops && OpInv(s, o) && Context(s, o) && s.ops[o].pc.Lock?
    ensures Stepped(s, DriveStep(s, o), o, Target(s, o))
  {
  }

  lemma ClearStep(s: State, o: OpId)
    requires Shaped(s) && o in s.ops && OpInv(s, o) && Context(s, o)
    requires s.ops[o].pc.Take? || s.ops[o].pc.Uncount?
    ensures Stepped(s, DriveStep(s, o), o, Target(s, o))
  {
  }

  lemma FreeStep(s: State, o: OpId)
    requires Shaped(s) && o in s.ops && OpInv(s, o) && Context(s, o)
    requires s.ops[o].pc.Bury? || s.ops[o].pc.Free?
    ensures Stepped(s, DriveStep(s, o), o, Target(s, o))
  {
  }

  lemma PhaseStep(s: State, a: Action)
    requires Shaped(s) && (a.Start? || a.Finish? || a.Null?) && Enabled(s, a, true)
    requires OpInv(s, a.o) && Context(s, a.o)
    ensures Stepped(s, Apply(s, a), a.o, Target(s, a.o))
  {
    QuietShape(s, a.o, Apply(s, a).ops[a.o], Target(s, a.o));
  }

  lemma PostInv(s: State, a: Action)
    requires Inv(s) && a.Post? && Enabled(s, a, true)
    ensures Inv(Apply(s, a))
  {
    NewInv(s, a.o, Apply(s, a).ops[a.o]);
  }

  /** Every action allowed by the settled discipline preserves the invariant. */
  lemma ActionInv(s: State, a: Action)
    requires Inv(s) && Enabled(s, a, true)
    ensures Inv(Apply(s, a))
  {
    if a.Post? {
      PostInv(s, a);
    } else {
      InContext(s, a.o);
      if a.Drive? {
        match s.ops[a.o].pc
        case Keep => KeepStep(s, a.o);
        case Probe(_) => LookStep(s, a.o);
        case Claim(_, _) => ClaimStep(s, a.o);
        case Publish(_) => StoreStep(s, a.o);
        case Count(_) => StoreStep(s, a.o);
        case Check => LookStep(s, a.o);
        case Seek(_) => SeekStep(s, a.o);
        case Lock(_) => LockStep(s, a.o);
        case Take(_) => ClearStep(s, a.o);
        case Uncount(_, _) => ClearStep(s, a.o);
        case Bury(_, _) => FreeStep(s, a.o);
        case Free(_) => FreeStep(s, a.o);
      } else {
        PhaseStep(s, a);
      }
      StepInv(s, Apply(s, a), a.o, Target(s, a.o));
    }
  }

  // ---------------------------------------------------------------- what holds in every run

  lemma {:induction false} RunInv(tr: seq<State>, i: nat)
    requires Run(tr, true) && i < |tr|
    ensures Inv(tr[i])
  {
    if i == 0 {
      InitialInv(tr[0]);
    } else {
      RunInv(tr, i - 1);
      assert Next(tr[i - 1], tr[i - 1 + 1], true);
      var a :| Enabled(tr[i - 1], a, true) && tr[i] == Apply(tr[i - 1], a);
      ActionInv(tr[i - 1], a);
    }
  }

  /** A kept block is never freed while the implementation may still read it, and never twice. */
  lemma LifetimeSafety(tr: seq<State>, i: nat, o: OpId)
    requires Run(tr, true) && i < |tr| && o in tr[i].ops
    ensures Readable(tr[i].ops[o]) ==> tr[i].freed[o] == 0
    ensures tr[i].freed[o] <= 1
  {
    RunInv(tr, i);
    assert OpInv(tr[i], o);
  }

  /** Where every block ends up.  Once the completion call that nulled the handle has returned, the block is freed
    * unless `keep` leaked it into a full table; the table declines no operation as a duplicate; and only an
    * operation with nothing left to read is dropped by `keep` itself -- never a persistent one with arrays. */
  lemma LifetimeComplete(tr: seq<State>, i: nat, o: OpId)
    requires Run(tr, true) && i < |tr| && o in tr[i].ops
    ensures var op := tr[i].ops[o];
      && (op.pc == Gone ==> tr[i].freed[o] == if op.fate == Some(Full) then 0 else 1)
      && op.fate != Some(Duplicate)
      && (op.fate == Some(Dropped) ==> op.nstaged == 0 || (op.kind == Nonblocking && !Readable(op)))
      && (op.fate == Some(Dropped) ==> tr[i].freed[o] == 1)
  {
    RunInv(tr, i);
    assert OpInv(tr[i], o);
    match tr[i].ops[o].fate
    case None =>
    case Some(f) => assert f.Dropped? || f.Stored? || f.Full? || f.Duplicate?;
  }

  /** The table never points at freed memory, and a block is in at most one slot. */
  lemma TableSound(tr: seq<State>, i: nat, q: nat, r: nat)
    requires Run(tr, true) && i < |tr| && q < r < |tr[i].key| == |tr[i].block|
    ensures tr[i].block[q].Some? ==> tr[i].freed[tr[i].block[q].value] == 0 && tr[i].block[q] != tr[i].block[r]
  {
    RunInv(tr, i);
    var s := tr[i];
    assert Owned(s, q) && Owned(s, r);
    if s.block[q].Some? { assert OpInv(s, s.block[q].value); }
  }
}
