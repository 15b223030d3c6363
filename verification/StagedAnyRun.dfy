/** What holds of the request table in every run, whether or not nulled request values are held back. */
module StagedAnyRun {
  import opened Common
  import opened StagedKeys
  import opened StagedLifetime

  // No block is freed twice; and no block is freed while it may be read, unless a slot is claimed to which the
  // completion call of an older holder of the value may still come.  `StagedClaims` has the converse.

  // ---------------------------------------------------------------- no block is freed twice

  /** The thread driving `p` has taken the block of `o` out of the table. */
  predicate InHand(s: State, o: OpId, p: OpId) {
    p in s.ops && (s.ops[p].pc.Uncount? || s.ops[p].pc.Bury? || s.ops[p].pc.Free?) && s.ops[p].pc.block == Some(o)
  }

  predicate InSlot(s: State, o: OpId, q: nat) {
    q < |s.block| && s.block[q] == Some(o)
  }

  /** The block has not been handed over yet: its poster still has it, or it does not exist. */
  predicate Unplaced(s: State, o: OpId) {
    o in s.ops ==> s.ops[o].pc.Keep? || s.ops[o].pc.Probe? || s.ops[o].pc.Claim? || s.ops[o].pc.Publish?
  }

  ghost predicate Nowhere(s: State, o: OpId) {
    (forall q: nat :: !InSlot(s, o, q)) && forall p :: !InHand(s, o, p)
  }

  /** A block is with its poster, or in one slot, or in one thread's hands, or freed once, or lost. */
  ghost predicate Once(s: State, o: OpId) {
    && s.freed[o] <= 1 && (Unplaced(s, o) ==> s.freed[o] == 0)
    && (Unplaced(s, o) || s.freed[o] > 0 ==> Nowhere(s, o))
    && (forall q: nat, r: nat :: InSlot(s, o, q) && InSlot(s, o, r) ==> q == r)
    && (forall p, r :: InHand(s, o, p) && InHand(s, o, r) ==> p == r)
    && (forall q: nat, p :: InSlot(s, o, q) ==> !InHand(s, o, p))
  }

  ghost predicate AllOnce(s: State) {
    Shaped(s) && forall o: OpId {:trigger Once(s, o)} :: Once(s, o)
  }

  /** A step that leaves every block where it is. */
  lemma SameOnce(s: State, t: State, o: OpId)
    requires Once(s, o) && t.block == s.block && t.freed[o] == s.freed[o]
    requires forall p :: InHand(t, o, p) <==> InHand(s, o, p)
    requires Unplaced(t, o) ==> Unplaced(s, o)
    ensures Once(t, o)
  {
    assert forall q: nat :: InSlot(t, o, q) <==> InSlot(s, o, q);
    if Nowhere(s, o) { assert Nowhere(t, o); }
  }

  /** The poster frees its block, or a thread frees the one it has taken. */
  lemma FreeOnce(s: State, t: State, o: OpId, p: OpId)
    requires Once(s, o) && t.block == s.block && t.freed == s.freed + multiset{o} && !Unplaced(t, o)
    requires (p == o && Unplaced(s, o)) || InHand(s, o, p)
    requires p in t.ops && t.ops == s.ops[p := t.ops[p]] && !InHand(t, o, p)
    ensures Once(t, o)
  {
    if InHand(s, o, p) { assert s.freed[o] == 0; }
    forall r ensures !InHand(t, o, r) { if r != p { assert InHand(t, o, r) ==> InHand(s, o, r); } }
    assert forall q: nat :: InSlot(t, o, q) <==> InSlot(s, o, q);
    assert Nowhere(t, o);
  }

  lemma PublishOnce(s: State, o: OpId, b: OpId)
    requires AllOnce(s) && o in s.ops && InTable(s, s.ops[o]) && s.ops[o].pc.Publish?
    ensures Once(DriveStep(s, o), b)
  {
    var t, p := DriveStep(s, o), s.ops[o].pc.slot;
    assert Once(s, b) && Once(s, o);
    assert forall r :: InHand(t, b, r) <==> InHand(s, b, r);
    assert forall q: nat :: InSlot(t, b, q) <==> (if q == p then b == o else InSlot(s, b, q));
    assert forall q: nat :: !InSlot(s, o, q);
    if Unplaced(t, b) || t.freed[b] > 0 { assert Nowhere(t, b); }
  }

  lemma TakeOnce(s: State, o: OpId, b: OpId)
    requires AllOnce(s) && o in s.ops && InTable(s, s.ops[o]) && s.ops[o].pc.Take?
    ensures Once(DriveStep(s, o), b)
  {
    var t, p := DriveStep(s, o), s.ops[o].pc.slot;
    assert Once(s, b);
    assert forall r :: InHand(t, b, r) <==> (if r == o then InSlot(s, b, p) else InHand(s, b, r));
    assert forall q: nat :: InSlot(t, b, q) <==> q != p && InSlot(s, b, q);
    if Unplaced(t, b) || t.freed[b] > 0 { assert Nowhere(s, b) && Nowhere(t, b); }
  }

  lemma KeepOnce(s: State, o: OpId, b: OpId)
    requires AllOnce(s) && o in s.ops && InTable(s, s.ops[o]) && s.ops[o].pc.Keep?
    ensures Once(DriveStep(s, o), b)
  {
    var t := DriveStep(s, o);
    assert Once(s, b) && Once(s, o);
    if t.freed[b] != s.freed[b] { FreeOnce(s, t, b, o); } else { SameOnce(s, t, b); }
  }

  lemma FreedOnce(s: State, o: OpId, b: OpId)
    requires AllOnce(s) && o in s.ops && InTable(s, s.ops[o]) && s.ops[o].pc.Free?
    ensures Once(DriveStep(s, o), b)
  {
    var t := DriveStep(s, o);
    assert Once(s, b);
    if t.freed[b] != s.freed[b] {
      assert InHand(s, b, o);
      FreeOnce(s, t, b, o);
    } else {
      SameOnce(s, t, b);
    }
  }

  /** The other steps leave every block where it is. */
  lemma MoveOnce(s: State, o: OpId, b: OpId)
    requires AllOnce(s) && o in s.ops && InTable(s, s.ops[o])
    requires !s.ops[o].pc.Keep? && !s.ops[o].pc.Free? && !s.ops[o].pc.Publish? && !s.ops[o].pc.Take?
    ensures Once(DriveStep(s, o), b)
  {
    assert Once(s, b);
    SameOnce(s, DriveStep(s, o), b);
  }

  lemma DriveOnce(s: State, o: OpId, b: OpId)
    requires AllOnce(s) && o in s.ops && InTable(s, s.ops[o])
    ensures Once(DriveStep(s, o), b)
  {
    match s.ops[o].pc
    case Keep => KeepOnce(s, o, b);
    case Free(_) => FreedOnce(s, o, b);
    case Publish(_) => PublishOnce(s, o, b);
    case Take(_) => TakeOnce(s, o, b);
    case _ => MoveOnce(s, o, b);
  }

  lemma ActionOnce(s: State, a: Action)
    requires AllOnce(s) && Enabled(s, a, false)
    ensures AllOnce(Apply(s, a))
  {
    var t := Apply(s, a);
    forall b: OpId {:trigger Once(t, b)} ensures Once(t, b) {
      assert Once(s, b);
      if a.Drive? { DriveOnce(s, a.o, b); } else { SameOnce(s, t, b); }
    }
  }

  lemma {:induction false} RunOnce(tr: seq<State>, settled: bool, i: nat)
    requires Run(tr, settled) && i < |tr|
    ensures AllOnce(tr[i])
  {
    if i > 0 {
      RunOnce(tr, settled, i - 1);
      assert Next(tr[i - 1], tr[i - 1 + 1], settled);
      var a :| Enabled(tr[i - 1], a, settled) && tr[i] == Apply(tr[i - 1], a);
      ActionOnce(tr[i - 1], a);
    }
  }

  /** In every run, settled or not, no block is freed twice; and a block in the table is in one slot and not freed. */
  lemma NeverFreedTwice(tr: seq<State>, settled: bool, i: nat, o: OpId)
    requires Run(tr, settled) && i < |tr|
    ensures tr[i].freed[o] <= 1
    ensures forall q :: 0 <= q < |tr[i].block| && tr[i].block[q] == Some(o) ==> tr[i].freed[o] == 0
    ensures forall q, r ::
      0 <= q < |tr[i].block| && 0 <= r < |tr[i].block| && tr[i].block[q] == tr[i].block[r] == Some(o) ==> q == r
  {
    RunOnce(tr, settled, i);
    assert Once(tr[i], o);
    assert forall q: nat :: q < |tr[i].block| && tr[i].block[q] == Some(o) ==> InSlot(tr[i], o, q);
  }

  // ---------------------------------------------------------------- claims

  /** A completion call has seen the request nulled, and its search may still come to probe `i`. */
  predicate Meets(op: Op, n: nat, i: nat) {
    || op.pc.Check?
    || (op.pc.Seek? && op.pc.i <= i)
    || (op.pc.Lock? && op.home < n && i < n && op.pc.slot == Slot(op.home, n, i))
  }

  /** The compare-and-swap of an attach is about to succeed. */
  predicate Claims(s: State, a: Action) {
    && a.Drive? && a.o in s.ops && InTable(s, s.ops[a.o]) && s.ops[a.o].pc.Claim?
    && s.key[Slot(s.ops[a.o].home, |s.key|, s.ops[a.o].pc.i)] == s.ops[a.o].pc.seen
  }

  /** No older holder of the value may still come to the slot. */
  predicate Unmet(s: State, a: Action)
    requires Claims(s, a)
  {
    forall p | p in s.ops && p != a.o && s.ops[p].handle == s.ops[a.o].handle ::
      !Meets(s.ops[p], |s.key|, s.ops[a.o].pc.i)
  }

  /** No slot is claimed, for an operation whose arrays are still to be read, where an older holder of its value may
    * still come to it. */
  predicate Clean(s: State, a: Action) {
    Claims(s, a) && Readable(s.ops[a.o]) ==> Unmet(s, a)
  }

  /** The block of an operation the implementation may still read has been freed. */
  ghost predicate FreesLive(s: State) {
    exists o :: o in s.ops && Readable(s.ops[o]) && s.freed[o] > 0
  }

  ghost predicate CleanNext(s: State, t: State) {
    Shaped(s) && exists a :: Enabled(s, a, false) && Clean(s, a) && t == Apply(s, a)
  }

  ghost predicate CleanRun(tr: seq<State>) {
    |tr| > 0 && Initial(tr[0]) && forall i | 0 <= i < |tr| - 1 :: CleanNext(tr[i], tr[i + 1])
  }

  /** A run that keeps nulled values back until they are released is clean. */
  lemma SettledIsClean(tr: seq<State>)
    requires Run(tr, true)
    ensures CleanRun(tr)
  {
    forall i | 0 <= i < |tr| - 1 ensures CleanNext(tr[i], tr[i + 1]) {
      RunInv(tr, i);
      assert Next(tr[i], tr[i + 1], true);
      var a :| Enabled(tr[i], a, true) && tr[i + 1] == Apply(tr[i], a);
      CleanWhenSettled(tr[i], a);
    }
  }

  lemma UnmetWhenSettled(s: State, a: Action)
    requires Inv(s) && Enabled(s, a, true)
    ensures Claims(s, a) ==> Unmet(s, a)
  {
    if Claims(s, a) {
      forall p | p in s.ops && p != a.o && s.ops[p].handle == s.ops[a.o].handle
        ensures !Meets(s.ops[p], |s.key|, s.ops[a.o].pc.i)
      {
        assert Apart(s, a.o, p) && OpInv(s, a.o);
      }
    }
  }

  lemma CleanWhenSettled(s: State, a: Action)
    requires Inv(s) && Enabled(s, a, true)
    ensures Clean(s, a) && Enabled(s, a, false)
  {
    UnmetWhenSettled(s, a);
  }

  // ---------------------------------------------------------------- the invariant

  /** The operation has an entry, and its arrays are still to be read. */
  predicate Entered(op: Op) {
    op.at.Some? && (op.pc.Publish? || op.pc.Count? || op.pc.Rest?) && Readable(op)
  }

  /** The slot an operation has to itself. */
  function Own(s: State, op: Op): Option<nat>
    requires |s.key| > 0
  {
    if Locked(op) then Some(op.pc.slot)
    else if Entered(op) && op.home < |s.key| && op.at.value < |s.key| then Some(Slot(op.home, |s.key|, op.at.value))
    else None
  }

  /** How the program counter, the phase and the history of one operation go together. */
  predicate Proper(op: Op, n: nat)
    requires n > 0
  {
    && !Reserved(op.handle) && op.home == Home(op.handle, n)
    && (op.kind == Nonblocking ==> op.phase != Inactive) && (op.kind == Persistent ==> op.phase != Complete)
    && (!op.own ==> op.kind == Nonblocking && op.phase != Running)
    && (op.phase == Nulled <==>
        op.pc.Check? || op.pc.Seek? || op.pc.Lock? || Locked(op) || op.pc.Free? || op.pc.Gone?)
    && (op.pc.Keep? || op.pc.Probe? || op.pc.Claim? ==> op.at == None)
    && (op.pc.Publish? || op.pc.Count? ==> op.at.Some?)
    && (op.at.Some? ==> op.at.value < n)
    && (op.pc.Probe? || op.pc.Claim? ==> op.own)
    && (op.pc.Claim? ==> StagedKeys.Free(op.pc.seen))
  }

  predicate OpSafe(s: State, o: OpId)
    requires Shaped(s) && o in s.ops
  {
    var op := s.ops[o];
    && Proper(op, |s.key|) && InTable(s, op)
    && (Entered(op) ==>
        var q := Slot(op.home, |s.key|, op.at.value);
        s.key[q] == op.handle && (op.pc.Publish? || op.pc.Count? ==> op.pc.slot == q))
    && (Locked(op) ==> s.key[op.pc.slot] == KEY_LOCKED)
    && ((op.pc.Uncount? || op.pc.Bury? || op.pc.Free?) && op.pc.block.Some? ==> Unread(s, op.pc.block.value))
  }

  predicate Unread(s: State, b: OpId) {
    b in s.ops && !Readable(s.ops[b])
  }

  predicate PairSafe(s: State, o: OpId, p: OpId)
    requires Shaped(s) && o in s.ops && p in s.ops
  {
    var a, b := s.ops[o], s.ops[p];
    && (Own(s, a).Some? ==> Own(s, a) != Own(s, b))
    && (a.handle == b.handle && (a.own || b.own) ==> a.phase == Nulled || b.phase == Nulled)
    && (a.handle == b.handle && Entered(a) ==> !Meets(b, |s.key|, a.at.value))
  }

  /** A block in the table is no longer read, or is that of the operation with its entry there. */
  predicate SlotSafe(s: State, q: nat)
    requires q < |s.key| == |s.block| && |s.key| > 0
  {
    s.block[q].Some? ==>
      Unread(s, s.block[q].value)
      || (s.block[q].value in s.ops && Entered(s.ops[s.block[q].value])
          && Own(s, s.ops[s.block[q].value]) == Some(q))
  }

  predicate FreedSafe(s: State, b: OpId) {
    s.freed[b] > 0 ==> Unread(s, b)
  }

  ghost predicate Safe(s: State) {
    && Shaped(s)
    && (forall o {:trigger OpSafe(s, o)} | o in s.ops :: OpSafe(s, o))
    && (forall o, p {:trigger PairSafe(s, o, p)} | o in s.ops && p in s.ops && o != p :: PairSafe(s, o, p))
    && (forall q {:trigger SlotSafe(s, q)} | 0 <= q < |s.key| :: SlotSafe(s, q))
    && (forall b: OpId {:trigger FreedSafe(s, b)} :: FreedSafe(s, b))
  }

  // ---------------------------------------------------------------- one step

  /** What the step of `o` may touch: slot `q`, whose key word it changes only if it is free, its own, or the one it is
    * about to lock. */
  predicate Touches(s: State, t: State, o: OpId, q: nat) {
    && Shaped(s) && Shaped(t) && o in s.ops && o in t.ops && q < |s.key| == |t.key|
    && t.key == s.key[q := t.key[q]] && t.block == s.block[q := t.block[q]] && t.ops == s.ops[o := t.ops[o]]
    && t.ops[o].(pc := s.ops[o].pc, phase := s.ops[o].phase, fate := s.ops[o].fate, at := s.ops[o].at) == s.ops[o]
    && (s.ops[o].phase == Nulled ==> t.ops[o].phase == Nulled) && (Readable(t.ops[o]) ==> Readable(s.ops[o]))
    && (t.key[q] == s.key[q] || StagedKeys.Free(s.key[q]) || Own(s, s.ops[o]) == Some(q)
        || (s.ops[o].pc == Lock(q) && s.key[q] == s.ops[o].handle))
  }

  lemma OthersOp(s: State, t: State, o: OpId, q: nat, p: OpId)
    requires Safe(s) && Touches(s, t, o, q) && p in s.ops && p != o
    ensures OpSafe(t, p) && Own(t, t.ops[p]) == Own(s, s.ops[p])
  {
    assert OpSafe(s, p) && OpSafe(s, o) && PairSafe(s, o, p) && PairSafe(s, p, o);
  }

  /** What the step of `o` has to establish itself. */
  ghost predicate Does(s: State, t: State, o: OpId, q: nat)
    requires o in s.ops && o in t.ops && Shaped(s) && Shaped(t) && q < |s.key| == |t.key|
  {
    && OpSafe(t, o) && SlotSafe(t, q)
    && (Own(t, t.ops[o]).Some? && Own(t, t.ops[o]) != Own(s, s.ops[o]) ==>
          Own(t, t.ops[o]) == Some(q)
          && (StagedKeys.Free(s.key[q]) || (s.key[q] == s.ops[o].handle && s.ops[o].pc == Lock(q))))
    && (Entered(s.ops[o]) && Readable(t.ops[o]) ==> Entered(t.ops[o]) && t.ops[o].at == s.ops[o].at)
    && (forall i: nat {:trigger Meets(t.ops[o], |s.key|, i)} ::
          Meets(t.ops[o], |s.key|, i) ==> Meets(s.ops[o], |s.key|, i) || s.ops[o].phase != Nulled)
    && (Entered(t.ops[o]) && !Entered(s.ops[o]) ==>
          forall p :: p in s.ops && p != o && s.ops[p].handle == s.ops[o].handle ==>
            !Meets(s.ops[p], |s.key|, t.ops[o].at.value))
    && (forall b: OpId {:trigger t.freed[b]} :: t.freed[b] == s.freed[b] || Unread(t, b))
  }

  lemma PairStep(s: State, t: State, o: OpId, q: nat, p: OpId)
    requires Safe(s) && Touches(s, t, o, q) && Does(s, t, o, q) && p in s.ops && p != o
    ensures PairSafe(t, o, p) && PairSafe(t, p, o)
  {
    assert OpSafe(s, p) && OpSafe(s, o) && PairSafe(s, o, p) && PairSafe(s, p, o);
    OthersOp(s, t, o, q, p);
  }

  lemma SlotStep(s: State, t: State, o: OpId, q: nat, r: nat)
    requires Safe(s) && Touches(s, t, o, q) && Does(s, t, o, q) && r < |t.key| && r != q
    ensures SlotSafe(t, r)
  {
    assert SlotSafe(s, r);
    if s.block[r].Some? {
      assert OpSafe(s, s.block[r].value);
      if s.block[r].value != o { OthersOp(s, t, o, q, s.block[r].value); }
    }
  }

  lemma StepSafe(s: State, t: State, o: OpId, q: nat)
    requires Safe(s) && Touches(s, t, o, q) && Does(s, t, o, q)
    ensures Safe(t)
  {
    forall p | p in t.ops ensures OpSafe(t, p) { if p != o { OthersOp(s, t, o, q, p); } }
    forall a, b | a in t.ops && b in t.ops && a != b ensures PairSafe(t, a, b) {
      if a == o { PairStep(s, t, o, q, b); }
      else if b == o { PairStep(s, t, o, q, a); }
      else {
        assert PairSafe(s, a, b);
        OthersOp(s, t, o, q, a);
        OthersOp(s, t, o, q, b);
      }
    }
    forall r | 0 <= r < |t.key| ensures SlotSafe(t, r) { if r != q { SlotStep(s, t, o, q, r); } }
    forall b: OpId {:trigger FreedSafe(t, b)} ensures FreedSafe(t, b) { assert FreedSafe(s, b); }
  }

  ghost predicate Stepped(s: State, t: State, o: OpId, q: nat) {
    Touches(s, t, o, q) && Does(s, t, o, q)
  }

  /** What a step relies on: the stepping operation, its slot, and the operation whose block is there. */
  predicate Near(s: State, o: OpId) {
    && Shaped(s) && o in s.ops && InTable(s, s.ops[o]) && OpSafe(s, o)
    && var b := s.block[Target(s, o)];
    && SlotSafe(s, Target(s, o))
    && (b.Some? && b.value in s.ops && b.value != o ==>
          OpSafe(s, b.value) && PairSafe(s, o, b.value) && PairSafe(s, b.value, o))
  }

  /** A slot is claimed. */
  lemma ClaimDoes(s: State, o: OpId)
    requires Near(s, o) && s.ops[o].pc.Claim? && Clean(s, Drive(o))
    ensures Stepped(s, DriveStep(s, o), o, Target(s, o))
  {
  }

  /** A block is stored. */
  lemma PublishDoes(s: State, o: OpId)
    requires Near(s, o) && s.ops[o].pc.Publish?
    ensures Stepped(s, DriveStep(s, o), o, Target(s, o))
  {
  }

  /** A block is dropped, or on its way into the table. */
  lemma KeepDoes(s: State, o: OpId)
    requires Near(s, o) && s.ops[o].pc.Keep?
    ensures Stepped(s, DriveStep(s, o), o, Target(s, o))
  {
  }

  /** A slot is locked. */
  lemma LockDoes(s: State, o: OpId)
    requires Near(s, o) && s.ops[o].pc.Lock?
    ensures Stepped(s, DriveStep(s, o), o, Target(s, o))
  {
  }

  /** A slot is emptied. */
  lemma TakeDoes(s: State, o: OpId)
    requires Near(s, o) && s.ops[o].pc.Take?
    ensures Stepped(s, DriveStep(s, o), o, Target(s, o))
  {
  }

  /** A slot is given back. */
  lemma BuryDoes(s: State, o: OpId)
    requires Near(s, o) && s.ops[o].pc.Bury?
    ensures Stepped(s, DriveStep(s, o), o, Target(s, o))
  {
  }

  /** A block is freed. */
  lemma FreeDoes(s: State, o: OpId)
    requires Near(s, o) && s.ops[o].pc.Free?
    ensures Stepped(s, DriveStep(s, o), o, Target(s, o))
  {
  }

  /** A step that touches neither the table nor any block: what it does with the program counter and the history. */
  ghost predicate Quiet(s: State, o: OpId, op: Op)
    requires Shaped(s) && o in s.ops
  {
    && Proper(op, |s.key|) && InTable(s, op)
    && op.(pc := s.ops[o].pc, phase := s.ops[o].phase, fate := s.ops[o].fate) == s.ops[o]
    && (s.ops[o].phase == Nulled ==> op.phase == Nulled)
    && (Readable(op) ==> Readable(s.ops[o]) && (Entered(op) <==> Entered(s.ops[o])))
    && (Entered(op) && (op.pc.Count? || op.pc.Publish?) ==> s.ops[o].pc == op.pc)
    && (forall i: nat {:trigger Meets(op, |s.key|, i)} ::
          Meets(op, |s.key|, i) ==> Meets(s.ops[o], |s.key|, i) || s.ops[o].phase != Nulled)
    && (Locked(op) ==> Locked(s.ops[o]) && op.pc.slot == s.ops[o].pc.slot)
    && (op.pc.Uncount? || op.pc.Bury? || op.pc.Free? ==>
          (s.ops[o].pc.Uncount? || s.ops[o].pc.Bury?) && op.pc.block == s.ops[o].pc.block)
  }

  lemma QuietSafe(s: State, o: OpId, op: Op)
    requires Safe(s) && o in s.ops && Quiet(s, o, op)
    ensures Safe(SetOp(s, o, op))
  {
    var t := SetOp(s, o, op);
    assert OpSafe(s, o) && SlotSafe(s, 0);
    if s.block[0].Some? && s.block[0].value in s.ops { assert OpSafe(s, s.block[0].value); }
    StepSafe(s, t, o, 0);
  }

  /** Looking at a slot or at the live count. */
  lemma LookQuiet(s: State, o: OpId)
    requires Shaped(s) && o in s.ops && OpSafe(s, o)
    requires s.ops[o].pc.Probe? || s.ops[o].pc.Check? || s.ops[o].pc.Seek?
    ensures Quiet(s, o, DriveStep(s, o).ops[o])
  {
  }

  lemma CountQuiet(s: State, o: OpId)
    requires Shaped(s) && o in s.ops && OpSafe(s, o)
    requires s.ops[o].pc.Count? || s.ops[o].pc.Uncount? || s.ops[o].pc.Rest? || s.ops[o].pc.Gone?
    ensures Quiet(s, o, DriveStep(s, o).ops[o])
  {
  }

  /** The live count is not part of it. */
  lemma LiveSafe(s: State, n: int)
    requires Safe(s)
    ensures Safe(s.(live := n))
  {
    var t := s.(live := n);
    forall p | p in t.ops ensures OpSafe(t, p) { assert OpSafe(s, p); }
    forall p, r | p in t.ops && r in t.ops && p != r ensures PairSafe(t, p, r) { assert PairSafe(s, p, r); }
    forall q | 0 <= q < |t.key| ensures SlotSafe(t, q) { assert SlotSafe(s, q); }
    forall b: OpId {:trigger FreedSafe(t, b)} ensures FreedSafe(t, b) { assert FreedSafe(s, b); }
  }

  /** A step that moves the program counter, and at most the live count. */
  lemma LookSafe(s: State, o: OpId)
    requires Safe(s) && o in s.ops && InTable(s, s.ops[o])
    requires var pc := s.ops[o].pc;
      pc.Probe? || pc.Count? || pc.Check? || pc.Seek? || pc.Uncount? || pc.Rest? || pc.Gone?
    ensures Safe(DriveStep(s, o))
  {
    var t := DriveStep(s, o);
    assert OpSafe(s, o);
    if s.ops[o].pc.Probe? || s.ops[o].pc.Check? || s.ops[o].pc.Seek? { LookQuiet(s, o); } else { CountQuiet(s, o); }
    QuietSafe(s, o, t.ops[o]);
    LiveSafe(SetOp(s, o, t.ops[o]), t.live);
  }

  lemma DriveSafe(s: State, o: OpId)
    requires Safe(s) && o in s.ops && InTable(s, s.ops[o]) && Clean(s, Drive(o))
    ensures Safe(DriveStep(s, o))
  {
    var pc, q := s.ops[o].pc, Target(s, o);
    if pc.Claim? || pc.Publish? || pc.Keep? || pc.Lock? || pc.Take? || pc.Bury? || pc.Free? {
      assert Near(s, o) by { assert OpSafe(s, o) && SlotSafe(s, q); }
      TableDoes(s, o);
      StepSafe(s, DriveStep(s, o), o, q);
    } else {
      LookSafe(s, o);
    }
  }

  lemma TableDoes(s: State, o: OpId)
    requires Near(s, o) && Clean(s, Drive(o))
    requires var pc := s.ops[o].pc;
      pc.Claim? || pc.Publish? || pc.Keep? || pc.Lock? || pc.Take? || pc.Bury? || pc.Free?
    ensures Stepped(s, DriveStep(s, o), o, Target(s, o))
  {
    match s.ops[o].pc
    case Claim(_, _) => ClaimDoes(s, o);
    case Publish(_) => PublishDoes(s, o);
    case Keep => KeepDoes(s, o);
    case Lock(_) => LockDoes(s, o);
    case Take(_) => TakeDoes(s, o);
    case Bury(_, _) => BuryDoes(s, o);
    case Free(_) => FreeDoes(s, o);
  }

  lemma PhaseSafe(s: State, a: Action)
    requires Safe(s) && (a.Start? || a.Finish? || a.Null?) && Enabled(s, a, false)
    ensures Safe(Apply(s, a))
  {
    assert OpSafe(s, a.o);
    QuietSafe(s, a.o, Apply(s, a).ops[a.o]);
  }

  lemma PostSafe(s: State, a: Action)
    requires Safe(s) && a.Post? && Enabled(s, a, false)
    ensures Safe(Apply(s, a))
  {
    var t := Apply(s, a);
    forall p | p in t.ops ensures OpSafe(t, p) { if p != a.o { assert OpSafe(s, p); } }
    forall p, r | p in t.ops && r in t.ops && p != r ensures PairSafe(t, p, r) {
      if p != a.o { assert OpSafe(s, p); }
      if r != a.o { assert OpSafe(s, r); }
      if p != a.o && r != a.o { assert PairSafe(s, p, r); }
    }
    forall q | 0 <= q < |t.key| ensures SlotSafe(t, q) { assert SlotSafe(s, q); }
    forall b: OpId {:trigger FreedSafe(t, b)} ensures FreedSafe(t, b) { assert FreedSafe(s, b); }
  }

  lemma {:induction false} CleanSafe(tr: seq<State>, i: nat)
    requires CleanRun(tr) && i < |tr|
    ensures Safe(tr[i])
  {
    if i > 0 {
      CleanSafe(tr, i - 1);
      assert CleanNext(tr[i - 1], tr[i - 1 + 1]);
      var a :| Enabled(tr[i - 1], a, false) && Clean(tr[i - 1], a) && tr[i] == Apply(tr[i - 1], a);
      match a
      case Post(_, _, _, _, _, _) => PostSafe(tr[i - 1], a);
      case Drive(o) => DriveSafe(tr[i - 1], o);
      case _ => PhaseSafe(tr[i - 1], a);
    }
  }

  /** In every clean run no block is freed while the implementation may still read it. */
  lemma SafeWhileClean(tr: seq<State>, i: nat, o: OpId)
    requires CleanRun(tr) && i < |tr| && o in tr[i].ops
    ensures Readable(tr[i].ops[o]) ==> tr[i].freed[o] == 0
  {
    CleanSafe(tr, i);
    assert FreedSafe(tr[i], o);
  }
}
