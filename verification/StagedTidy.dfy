/** Where blocks end up though request values are reissued early (src/mpiwrapper/staging.c:94-132, 255-282). */
module StagedTidy {
  import opened Common
  import opened StagedKeys
  import opened StagedLifetime
  import opened StagedAnyRun
  import A = StagedAlone
  import C = StagedClaims
  import T = StagedTable

  // In a tidy run every claim is clean, also that of an operation which has completed meanwhile.  A completion call may
  // then release another operation's entry, if both have been nulled; but nothing stored is lost.

  predicate Tidy(s: State, a: Action) {
    Claims(s, a) ==> Unmet(s, a)
  }

  ghost predicate TidyNext(s: State, t: State) {
    Shaped(s) && exists a :: Enabled(s, a, false) && Tidy(s, a) && t == Apply(s, a)
  }

  ghost predicate TidyRun(tr: seq<State>) {
    |tr| > 0 && Initial(tr[0]) && forall i | 0 <= i < |tr| - 1 :: TidyNext(tr[i], tr[i + 1])
  }

  /** A run that keeps nulled values back until they are released is tidy. */
  lemma SettledIsTidy(tr: seq<State>)
    requires Run(tr, true)
    ensures TidyRun(tr)
  {
    forall i | 0 <= i < |tr| - 1 ensures TidyNext(tr[i], tr[i + 1]) {
      RunInv(tr, i);
      assert Next(tr[i], tr[i + 1], true);
      var a :| Enabled(tr[i], a, true) && tr[i + 1] == Apply(tr[i], a);
      UnmetWhenSettled(tr[i], a);
      assert Enabled(tr[i], a, false);
    }
  }

  lemma TidyIsClean(tr: seq<State>)
    requires TidyRun(tr)
    ensures CleanRun(tr)
  {
    forall i | 0 <= i < |tr| - 1 ensures CleanNext(tr[i], tr[i + 1]) {
      assert TidyNext(tr[i], tr[i + 1]);
      var a :| Enabled(tr[i], a, false) && Tidy(tr[i], a) && tr[i + 1] == Apply(tr[i], a);
      assert Clean(tr[i], a);
    }
  }

  // ---------------------------------------------------------------- the invariant

  function Place(op: Op, n: nat): nat {
    if op.at.Some? && op.home < n && op.at.value < n then Slot(op.home, n, op.at.value) else 0
  }

  /** The entry of the operation is in the table. */
  predicate Kept(s: State, o: OpId) {
    && Shaped(s) && o in s.ops && s.ops[o].at.Some? && s.ops[o].home < |s.key| && s.ops[o].at.value < |s.key|
    && s.key[Place(s.ops[o], |s.key|)] == s.ops[o].handle
    && s.block[Place(s.ops[o], |s.key|)] == if s.ops[o].pc.Publish? then None else Some(o)
  }

  /** The block of a nulled operation of value `h`. */
  predicate Carried(s: State, b: Option<OpId>, h: Word) {
    && b.Some? && b.value in s.ops && s.ops[b.value].handle == h && s.ops[b.value].at.Some?
    && s.ops[b.value].phase == Nulled
  }

  predicate OpTidy(s: State, o: OpId)
    requires Shaped(s) && o in s.ops
  {
    var op, n := s.ops[o], |s.key|;
    && InTable(s, op)
    && (op.at.Some? ==> op.own && op.at.value < n)
    && (op.at.Some? && (op.pc.Publish? || op.pc.Count? || op.pc.Rest?) ==> Kept(s, o))
    && (op.pc.Publish? || op.pc.Count? ==> op.pc.slot == Place(op, n))
    && (Kept(s, o) && op.phase == Nulled ==> Meets(op, n, op.at.value))
    && (Kept(s, o) ==> Unbroken(s, op, op.at.value))
    && (op.pc.Keep? || op.pc.Probe? || op.pc.Claim? || op.pc.Publish? || op.pc.Count? ==> op.fate == None)
    && (op.pc.Rest? || op.phase == Nulled ==> op.fate.Some? && (op.at.Some? <==> op.fate == Some(Stored)))
    && (op.pc.Take? ==> Carried(s, s.block[op.pc.slot], op.handle))
    && (op.pc.Uncount? || op.pc.Bury? || op.pc.Free? ==> Carried(s, op.pc.block, op.handle))
    && (op.pc.Uncount? || op.pc.Bury? ==> s.block[op.pc.slot] == None)
  }

  /** Of two entries for one value the newer comes first on the probe sequence, and the older holder's search is past
    * it. */
  predicate PairTidy(s: State, o: OpId, p: OpId)
    requires Shaped(s) && o in s.ops && p in s.ops
  {
    var a, b, n := s.ops[o], s.ops[p], |s.key|;
    Kept(s, o) ==>
      && (Kept(s, p) ==> Place(a, n) != Place(b, n))
      && (a.handle == b.handle ==> a.phase == Nulled || !Meets(b, n, a.at.value))
      && (a.handle == b.handle && Kept(s, p) ==>
            b.at.value < a.at.value || (b.phase == Nulled && !Meets(b, n, a.at.value)))
  }

  ghost predicate SlotTidy(s: State, q: nat)
    requires q < |s.key| == |s.block|
  {
    && (StagedKeys.Free(s.key[q]) ==> s.block[q] == None)
    && (!Reserved(s.key[q]) ==> exists o :: Kept(s, o) && Place(s.ops[o], |s.key|) == q)
  }

  /** The thread of `p` is releasing the block of `b`, which had the same value. */
  predicate Carries(s: State, b: OpId, p: OpId) {
    && b in s.ops && p in s.ops && s.ops[p].handle == s.ops[b].handle
    && match s.ops[p].pc
       case Take(q) => q < |s.block| && s.block[q] == Some(b)
       case Uncount(_, c) => c == Some(b)
       case Bury(_, c) => c == Some(b)
       case Free(c) => c == Some(b)
       case _ => false
  }

  /** A dropped block has been freed, a stored one is in the table, being released, or freed, and no other is freed. */
  ghost predicate Ledgered(s: State, b: OpId)
    requires b in s.ops
  {
    && (s.ops[b].fate == Some(Dropped) ==> s.freed[b] > 0)
    && (s.ops[b].at.Some? ==> s.freed[b] > 0 || Kept(s, b) || exists p :: Carries(s, b, p))
    && (s.freed[b] > 0 ==> Freeable(s.ops[b]))
  }

  predicate Freeable(op: Op) {
    op.fate == Some(Dropped) || op.at.Some?
  }

  /** The operations the live count counts: entries that have been counted, and releases that still count. */
  predicate Counts(s: State, o: OpId) {
    && o in s.ops
    && ((Kept(s, o) && !s.ops[o].pc.Publish? && !s.ops[o].pc.Count?) || s.ops[o].pc.Take? || s.ops[o].pc.Uncount?)
  }

  ghost function CountSet(s: State): set<OpId> {
    set o | o in s.ops && Counts(s, o)
  }

  ghost predicate TidyInv(s: State) {
    && Shaped(s)
    && (forall o {:trigger OpTidy(s, o)} | o in s.ops :: OpTidy(s, o))
    && (forall o, p {:trigger PairTidy(s, o, p)} | o in s.ops && p in s.ops && o != p :: PairTidy(s, o, p))
    && (forall q {:trigger SlotTidy(s, q)} | 0 <= q < |s.key| :: SlotTidy(s, q))
    && (forall b {:trigger Ledgered(s, b)} | b in s.ops :: Ledgered(s, b))
    && s.live == |CountSet(s)|
  }

  // ---------------------------------------------------------------- one step

  /** The step of `o` changes at most slot `q`, and takes the entry of `l` out of the table. */
  ghost predicate Moves(s: State, t: State, o: OpId, q: nat, l: Option<OpId>) {
    && Shaped(s) && Shaped(t) && o in s.ops && o in t.ops && q < |s.key| == |t.key|
    && t.key == s.key[q := t.key[q]] && t.block == s.block[q := t.block[q]] && t.ops == s.ops[o := t.ops[o]]
    && t.ops[o].handle == s.ops[o].handle && t.ops[o].home == s.ops[o].home && t.ops[o].own == s.ops[o].own
    && (t.key[q] == KEY_EMPTY ==> s.key[q] == KEY_EMPTY)
    && (s.ops[o].phase == Nulled ==> t.ops[o].phase == Nulled)
    && (s.ops[o].at.Some? ==> t.ops[o].at == s.ops[o].at)
    && (s.freed <= t.freed)
    && ((t.key[q] == s.key[q] && t.block[q] == s.block[q]) || s.key[q] != KEY_LOCKED
        || (Locked(s.ops[o]) && s.ops[o].pc.slot == q))
    && (forall p {:trigger Kept(t, p)} {:trigger Kept(s, p)} ::
          p in s.ops && p != o ==> (Kept(t, p) <==> Kept(s, p) && l != Some(p)))
    && (Kept(s, o) && Place(s.ops[o], |s.key|) != q ==> Kept(t, o))
    && (l.Some? ==> Kept(s, l.value) && s.ops[l.value].phase == Nulled && Place(s.ops[l.value], |s.key|) == q
                    && Carries(t, l.value, o))
  }

  /** What the step of `o` has to establish itself. */
  ghost predicate Settles(s: State, t: State, o: OpId, q: nat)
    requires o in s.ops && o in t.ops && Shaped(s) && Shaped(t) && q < |s.key| == |t.key|
  {
    && OpTidy(t, o) && SlotTidy(t, q)
    && (forall p {:trigger PairTidy(t, o, p)} {:trigger PairTidy(t, p, o)} | p in t.ops && p != o ::
          PairTidy(t, o, p) && PairTidy(t, p, o))
    && (t.ops[o].at.Some? && !Kept(t, o) ==> s.ops[o].at.Some? && (Kept(s, o) ==> Carries(t, o, o)))
    && (forall b {:trigger Carries(s, b, o)} :: Carries(s, b, o) ==> Carries(t, b, o) || t.freed[b] > 0)
    && Frees(s, t, o)
  }

  ghost predicate Frees(s: State, t: State, o: OpId)
    requires o in s.ops && o in t.ops
  {
    && (Freeable(s.ops[o]) ==> Freeable(t.ops[o])) && (t.ops[o].fate == Some(Dropped) ==> t.freed[o] > 0)
    && forall b {:trigger t.freed[b]} | b in t.ops :: t.freed[b] > s.freed[b] ==> Freeable(t.ops[b])
  }

  lemma OthersTidy(s: State, t: State, o: OpId, q: nat, l: Option<OpId>, p: OpId)
    requires Moves(s, t, o, q, l) && p in s.ops && p != o
    requires OpTidy(s, p) && OpSafe(s, p) && OpSafe(s, o) && PairSafe(s, o, p) && PairSafe(s, p, o)
    ensures OpTidy(t, p)
  {
    assert Kept(t, p) ==> Kept(s, p);
    if Locked(s.ops[p]) { assert t.block[s.ops[p].pc.slot] == s.block[s.ops[p].pc.slot]; }
    assert Kept(t, p) ==> Unbroken(t, t.ops[p], t.ops[p].at.value);
  }

  lemma OthersPair(s: State, t: State, o: OpId, q: nat, l: Option<OpId>, p: OpId, r: OpId)
    requires TidyInv(s) && Moves(s, t, o, q, l) && p in s.ops && r in s.ops && p != o && r != o && p != r
    ensures PairTidy(t, p, r)
  {
    assert PairTidy(s, p, r);
    assert Kept(t, p) ==> Kept(s, p);
    assert Kept(t, r) ==> Kept(s, r);
  }

  lemma OthersSlot(s: State, t: State, o: OpId, q: nat, l: Option<OpId>, r: nat)
    requires TidyInv(s) && Moves(s, t, o, q, l) && r < |t.key| && r != q
    ensures SlotTidy(t, r)
  {
    assert SlotTidy(s, r);
    if !Reserved(t.key[r]) {
      var p :| Kept(s, p) && Place(s.ops[p], |s.key|) == r;
      assert Kept(t, p) && Place(t.ops[p], |t.key|) == r;
    }
  }

  lemma StillCarries(s: State, t: State, o: OpId, q: nat, l: Option<OpId>, b: OpId, p: OpId)
    requires Safe(s) && Moves(s, t, o, q, l) && p != o && Carries(s, b, p)
    ensures Carries(t, b, p)
  {
    assert OpSafe(s, p) && OpSafe(s, o) && PairSafe(s, o, p) && PairSafe(s, p, o);
  }

  lemma StepLedger(s: State, t: State, o: OpId, q: nat, l: Option<OpId>, b: OpId)
    requires Safe(s) && TidyInv(s) && Moves(s, t, o, q, l) && Settles(s, t, o, q) && b in t.ops
    ensures Ledgered(t, b)
  {
    assert Ledgered(s, b);
    assert t.freed[b] > s.freed[b] ==> Freeable(t.ops[b]);
    if t.ops[b].at.Some? && !Kept(t, b) {
      assert s.ops[b].at.Some?;
      if s.freed[b] == 0 && !Kept(s, b) {
        var p :| Carries(s, b, p);
        if p != o { StillCarries(s, t, o, q, l, b, p); }
      } else if s.freed[b] == 0 {
        assert Carries(t, b, o);
      }
    }
  }

  lemma StepTidy(s: State, t: State, o: OpId, q: nat, l: Option<OpId>)
    requires Safe(s) && TidyInv(s) && Moves(s, t, o, q, l) && Settles(s, t, o, q) && t.live == |CountSet(t)|
    ensures TidyInv(t)
  {
    forall p | p in t.ops ensures OpTidy(t, p) {
      if p != o {
        assert OpTidy(s, p) && OpSafe(s, p) && OpSafe(s, o) && PairSafe(s, o, p) && PairSafe(s, p, o);
        OthersTidy(s, t, o, q, l, p);
      }
    }
    forall p, r | p in t.ops && r in t.ops && p != r ensures PairTidy(t, p, r) {
      if p != o && r != o { OthersPair(s, t, o, q, l, p, r); }
    }
    forall r | 0 <= r < |t.key| ensures SlotTidy(t, r) { if r != q { OthersSlot(s, t, o, q, l, r); } }
    forall b | b in t.ops ensures Ledgered(t, b) { StepLedger(s, t, o, q, l, b); }
  }

  // ---------------------------------------------------------------- steps that leave the table as it is

  /** Only the program counter, the phase and the fate of `o` change. */
  ghost predicate Quiet(s: State, t: State, o: OpId) {
    && Shaped(s) && o in s.ops && o in t.ops && t.key == s.key && t.block == s.block && s.freed <= t.freed
    && t.ops == s.ops[o := t.ops[o]]
    && t.ops[o].(pc := s.ops[o].pc, phase := s.ops[o].phase, fate := s.ops[o].fate) == s.ops[o]
    && (s.ops[o].phase == Nulled ==> t.ops[o].phase == Nulled) && (s.ops[o].pc.Publish? <==> t.ops[o].pc.Publish?)
    && (forall i: nat {:trigger Meets(t.ops[o], |s.key|, i)} ::
          Meets(t.ops[o], |s.key|, i) ==> Meets(s.ops[o], |s.key|, i) || s.ops[o].phase != Nulled)
  }

  lemma QuietKept(s: State, t: State, o: OpId, p: OpId)
    requires Quiet(s, t, o)
    ensures Kept(t, p) <==> Kept(s, p)
  {
  }

  lemma QuietPair(s: State, t: State, o: OpId, p: OpId)
    requires Quiet(s, t, o) && p in s.ops && p != o
    requires PairSafe(s, o, p) && PairTidy(s, o, p) && PairTidy(s, p, o) && OpTidy(s, o) && OpTidy(s, p)
    ensures PairTidy(t, o, p) && PairTidy(t, p, o)
  {
    QuietKept(s, t, o, o);
    QuietKept(s, t, o, p);
  }

  lemma QuietTidy(s: State, t: State, o: OpId)
    requires Safe(s) && TidyInv(s) && Quiet(s, t, o) && OpTidy(t, o) && t.live == |CountSet(t)| && Frees(s, t, o)
    requires forall b {:trigger Carries(s, b, o)} :: Carries(s, b, o) ==> Carries(t, b, o) || t.freed[b] > 0
    ensures TidyInv(t)
  {
    forall p {:trigger Kept(t, p)} ensures Kept(t, p) <==> Kept(s, p) { QuietKept(s, t, o, p); }
    forall p {:trigger PairTidy(t, o, p)} {:trigger PairTidy(t, p, o)} | p in t.ops && p != o
      ensures PairTidy(t, o, p) && PairTidy(t, p, o)
    {
      assert PairSafe(s, o, p) && PairTidy(s, o, p) && PairTidy(s, p, o) && OpTidy(s, o) && OpTidy(s, p);
      QuietPair(s, t, o, p);
    }
    assert SlotTidy(t, 0) by {
      assert SlotTidy(s, 0);
      if !Reserved(s.key[0]) {
        var p :| Kept(s, p) && Place(s.ops[p], |s.key|) == 0;
        assert Kept(t, p) && Place(t.ops[p], |t.key|) == 0;
      }
    }
    StepTidy(s, t, o, 0, None);
  }

  lemma CountMoves(s: State, t: State, o: OpId)
    requires o in s.ops && o in t.ops && t.ops.Keys == s.ops.Keys
    requires forall p :: p in s.ops && p != o ==> (Counts(t, p) <==> Counts(s, p))
    ensures |CountSet(t)| == |CountSet(s)| + (if Counts(t, o) then 1 else 0) - (if Counts(s, o) then 1 else 0)
  {
    var rest := CountSet(s) - {o};
    assert CountSet(t) == if Counts(t, o) then rest + {o} else rest;
    assert CountSet(s) == if Counts(s, o) then rest + {o} else rest;
  }

  lemma QuietCount(s: State, t: State, o: OpId)
    requires TidyInv(s) && Quiet(s, t, o)
    requires t.live - s.live == (if Counts(t, o) then 1 else 0) - (if Counts(s, o) then 1 else 0)
    ensures t.live == |CountSet(t)|
  {
    forall p | p in s.ops && p != o ensures Counts(t, p) <==> Counts(s, p) { QuietKept(s, t, o, p); }
    CountMoves(s, t, o);
  }

  /** What a look at the table relies on: the count counts, and a matching key word is the operation's own entry. */
  predicate Looks(s: State, o: OpId)
    requires Shaped(s) && o in s.ops && InTable(s, s.ops[o])
  {
    var op := s.ops[o];
    && (op.pc.Check? && Kept(s, o) ==> s.live != 0)
    && (op.pc.Seek? && Kept(s, o) && s.key[Slot(op.home, |s.key|, op.pc.i)] == op.handle ==>
          op.pc.i == op.at.value)
  }

  lemma LooksRight(s: State, o: OpId)
    requires Safe(s) && TidyInv(s) && o in s.ops
    ensures OpTidy(s, o) && Looks(s, o)
  {
    var op, n := s.ops[o], |s.key|;
    assert OpTidy(s, o) && OpSafe(s, o);
    if op.pc.Check? && Kept(s, o) { assert o in CountSet(s); }
    if op.pc.Seek? && Kept(s, o) && s.key[Slot(op.home, n, op.pc.i)] == op.handle {
      var q := Slot(op.home, n, op.pc.i);
      assert SlotTidy(s, q);
      var p :| Kept(s, p) && Place(s.ops[p], n) == q;
      assert OpSafe(s, p);
      if p != o { assert PairTidy(s, p, o); }
    }
  }

  lemma AttachTidy(s: State, o: OpId)
    requires Shaped(s) && o in s.ops && OpSafe(s, o) && OpTidy(s, o)
    requires s.ops[o].pc.Keep? || s.ops[o].pc.Probe? || (s.ops[o].pc.Claim? && !Claims(s, Drive(o)))
    ensures Quiet(s, DriveStep(s, o), o) && OpTidy(DriveStep(s, o), o)
  {
  }

  lemma SeekTidy(s: State, o: OpId)
    requires Shaped(s) && o in s.ops && OpSafe(s, o) && OpTidy(s, o) && Looks(s, o)
    requires s.ops[o].pc.Check? || s.ops[o].pc.Seek?
    ensures Quiet(s, DriveStep(s, o), o) && OpTidy(DriveStep(s, o), o)
  {
    QuietKept(s, DriveStep(s, o), o, o);
  }

  lemma CountTidy(s: State, o: OpId)
    requires Shaped(s) && o in s.ops && OpSafe(s, o) && OpTidy(s, o)
    requires s.ops[o].pc.Count? || s.ops[o].pc.Uncount? || s.ops[o].pc.Free?
    ensures Quiet(s, DriveStep(s, o), o) && OpTidy(DriveStep(s, o), o)
  {
    QuietKept(s, DriveStep(s, o), o, o);
  }

  lemma GiveUpTidy(s: State, o: OpId)
    requires Shaped(s) && o in s.ops && OpSafe(s, o) && OpTidy(s, o)
    requires s.ops[o].pc.Lock? && s.key[s.ops[o].pc.slot] != s.ops[o].handle
    ensures Quiet(s, DriveStep(s, o), o) && OpTidy(DriveStep(s, o), o)
  {
    QuietKept(s, DriveStep(s, o), o, o);
  }

  lemma PhaseTidy(s: State, a: Action)
    requires Shaped(s) && (a.Start? || a.Finish? || a.Null?) && Enabled(s, a, false)
    requires OpSafe(s, a.o) && OpTidy(s, a.o)
    ensures Quiet(s, Apply(s, a), a.o) && OpTidy(Apply(s, a), a.o)
  {
    QuietKept(s, Apply(s, a), a.o, a.o);
  }

  lemma QuietCounts(s: State, o: OpId)
    requires Shaped(s) && o in s.ops && OpSafe(s, o) && OpTidy(s, o) && Quiet(s, DriveStep(s, o), o)
    ensures var t := DriveStep(s, o);
      && t.live - s.live == (if Counts(t, o) then 1 else 0) - (if Counts(s, o) then 1 else 0)
      && forall b {:trigger Carries(s, b, o)} :: Carries(s, b, o) ==> Carries(t, b, o) || t.freed[b] > 0
  {
    QuietKept(s, DriveStep(s, o), o, o);
  }

  lemma QuietFrees(s: State, o: OpId)
    requires Shaped(s) && o in s.ops && OpTidy(s, o) && Quiet(s, DriveStep(s, o), o) && Ledgered(s, o)
    ensures Frees(s, DriveStep(s, o), o)
  {
  }

  lemma QuietDrive(s: State, o: OpId)
    requires Safe(s) && TidyInv(s) && o in s.ops
    requires OpSafe(s, o) && OpTidy(s, o) && Quiet(s, DriveStep(s, o), o) && OpTidy(DriveStep(s, o), o)
    ensures TidyInv(DriveStep(s, o))
  {
    var t := DriveStep(s, o);
    assert Ledgered(s, o);
    QuietFrees(s, o);
    QuietCounts(s, o);
    QuietCount(s, t, o);
    QuietTidy(s, t, o);
  }

  // ---------------------------------------------------------------- steps that change the table

  lemma PublishKept(s: State, o: OpId, p: OpId)
    requires Shaped(s) && o in s.ops && OpTidy(s, o) && s.ops[o].pc.Publish? && Kept(s, o) && !Reserved(s.ops[o].handle)
    requires p != o && p in s.ops && PairTidy(s, o, p)
    ensures Kept(DriveStep(s, o), p) <==> Kept(s, p)
  {
  }

  /** The block is stored. */
  lemma PublishTidy(s: State, o: OpId)
    requires Safe(s) && TidyInv(s) && o in s.ops && s.ops[o].pc.Publish? && OpTidy(s, o)
    ensures TidyInv(DriveStep(s, o))
  {
    var t, q := DriveStep(s, o), s.ops[o].pc.slot;
    assert OpSafe(s, o);
    forall p {:trigger Kept(t, p)} {:trigger Kept(s, p)} | p in s.ops && p != o ensures Kept(t, p) <==> Kept(s, p) {
      assert PairTidy(s, o, p);
      PublishKept(s, o, p);
    }
    assert Kept(t, o);
    forall p {:trigger PairTidy(t, o, p)} {:trigger PairTidy(t, p, o)} | p in t.ops && p != o
      ensures PairTidy(t, o, p) && PairTidy(t, p, o)
    {
      assert PairTidy(s, o, p) && PairTidy(s, p, o);
    }
    CountMoves(s, t, o);
    StepTidy(s, t, o, q, None);
  }

  /** Whose entry a completion call is about to lock: that of a nulled operation. */
  lemma Owner(s: State, o: OpId, q: nat) returns (l: OpId)
    requires Safe(s) && TidyInv(s) && o in s.ops && s.ops[o].pc == Lock(q) && q < |s.key| && s.key[q] == s.ops[o].handle
    ensures Kept(s, l) && s.ops[l].phase == Nulled && Place(s.ops[l], |s.key|) == q && s.block[q] == Some(l)
    ensures s.ops[l].handle == s.ops[o].handle
    ensures forall p :: Kept(s, p) && Place(s.ops[p], |s.key|) == q ==> p == l
    ensures Kept(s, o) ==> l == o
  {
    assert OpSafe(s, o) && OpTidy(s, o) && SlotTidy(s, q);
    l :| Kept(s, l) && Place(s.ops[l], |s.key|) == q;
    assert OpSafe(s, l) && OpTidy(s, l);
    if l != o { assert PairTidy(s, l, o); }
    forall p | Kept(s, p) && Place(s.ops[p], |s.key|) == q ensures p == l { assert p != l ==> PairTidy(s, p, l); }
  }

  lemma LockKept(s: State, o: OpId, q: nat, l: OpId, p: OpId)
    requires Shaped(s) && o in s.ops && s.ops[o].pc == Lock(q) && q < |s.key| && InTable(s, s.ops[o])
    requires s.key[q] == s.ops[o].handle && Kept(s, l) && Place(s.ops[l], |s.key|) == q
    requires p in s.ops && !Reserved(s.ops[p].handle) && (Kept(s, p) && Place(s.ops[p], |s.key|) == q ==> p == l)
    ensures Kept(DriveStep(s, o), p) <==> Kept(s, p) && p != l
  {
  }

  lemma LockOwn(s: State, o: OpId, q: nat, l: OpId)
    requires Shaped(s) && o in s.ops && s.ops[o].pc == Lock(q) && OpTidy(s, o) && OpSafe(s, o)
    requires s.key[q] == s.ops[o].handle && s.block[q] == Some(l) && l in s.ops && s.ops[l].handle == s.ops[o].handle
    requires s.ops[l].at.Some? && s.ops[l].phase == Nulled && !Kept(DriveStep(s, o), o)
    ensures OpTidy(DriveStep(s, o), o) && SlotTidy(DriveStep(s, o), q) && Carries(DriveStep(s, o), l, o)
    ensures s.block[q].Some? && forall b :: !Carries(s, b, o)
  {
  }

  lemma LockCount(s: State, t: State, o: OpId, l: OpId)
    requires TidyInv(s) && o in s.ops && l in s.ops && t.ops.Keys == s.ops.Keys && Counts(s, l) && Counts(t, o)
    requires forall p :: p in s.ops && p != o && p != l ==> (Counts(t, p) <==> Counts(s, p))
    requires l != o ==> !Counts(s, o) && !Counts(t, l)
    ensures |CountSet(t)| == |CountSet(s)|
  {
    var rest := CountSet(s) - {l};
    assert CountSet(t) == rest + {o} && CountSet(s) == rest + {l};
  }

  /** An entry is locked: the operation's own, or that of another nulled one. */
  lemma LockTidy(s: State, o: OpId)
    requires Safe(s) && TidyInv(s) && o in s.ops && s.ops[o].pc.Lock? && OpTidy(s, o)
    requires s.key[s.ops[o].pc.slot] == s.ops[o].handle
    ensures TidyInv(DriveStep(s, o))
  {
    var t, q := DriveStep(s, o), s.ops[o].pc.slot;
    var l := Owner(s, o, q);
    assert OpSafe(s, o) && OpSafe(s, l) && OpTidy(s, l);
    forall p {:trigger Kept(t, p)} {:trigger Kept(s, p)} | p in s.ops ensures Kept(t, p) <==> Kept(s, p) && p != l {
      assert OpSafe(s, p);
      LockKept(s, o, q, l, p);
    }
    LockOwn(s, o, q, l);
    assert Ledgered(s, o);
    forall p {:trigger PairTidy(t, o, p)} {:trigger PairTidy(t, p, o)} | p in t.ops && p != o
      ensures PairTidy(t, o, p) && PairTidy(t, p, o)
    {
      assert PairTidy(s, p, o);
    }
    LockCount(s, t, o, l);
    StepTidy(s, t, o, q, Some(l));
  }

  lemma LockedKept(s: State, t: State, q: nat, p: OpId)
    requires Shaped(s) && Shaped(t) && |s.key| == |t.key| && q < |s.key| && s.key[q] == KEY_LOCKED && Reserved(t.key[q])
    requires t.key == s.key[q := t.key[q]] && t.block == s.block[q := t.block[q]]
    requires p in s.ops && p in t.ops && !Reserved(s.ops[p].handle) && t.ops[p] == s.ops[p]
    ensures Kept(t, p) <==> Kept(s, p)
  {
  }

  lemma EmptyOwn(s: State, o: OpId)
    requires Shaped(s) && o in s.ops && OpTidy(s, o) && OpSafe(s, o) && (s.ops[o].pc.Take? || s.ops[o].pc.Bury?)
    ensures var t, q := DriveStep(s, o), Target(s, o);
      && !Kept(s, o) && !Kept(t, o) && OpTidy(t, o) && SlotTidy(t, q)
      && (forall i: nat :: !Meets(t.ops[o], |t.key|, i)) && t.ops[o].phase == Nulled
      && (forall b {:trigger Carries(s, b, o)} :: Carries(s, b, o) ==> Carries(t, b, o))
      && (Counts(t, o) <==> Counts(s, o)) && t.live == s.live && s.freed == t.freed && s.key[q] == KEY_LOCKED
      && Reserved(t.key[q])
  {
  }

  /** A locked slot is emptied, or given back. */
  lemma EmptyTidy(s: State, o: OpId)
    requires Safe(s) && TidyInv(s) && o in s.ops && OpTidy(s, o) && (s.ops[o].pc.Take? || s.ops[o].pc.Bury?)
    ensures TidyInv(DriveStep(s, o))
  {
    var t, q := DriveStep(s, o), Target(s, o);
    assert OpSafe(s, o);
    EmptyOwn(s, o);
    assert Ledgered(s, o);
    forall p {:trigger Kept(t, p)} {:trigger Kept(s, p)} | p in s.ops && p != o ensures Kept(t, p) <==> Kept(s, p) {
      assert OpSafe(s, p);
      LockedKept(s, t, q, p);
    }
    forall p {:trigger PairTidy(t, o, p)} {:trigger PairTidy(t, p, o)} | p in t.ops && p != o
      ensures PairTidy(t, o, p) && PairTidy(t, p, o)
    {
      assert PairTidy(s, p, o);
    }
    CountMoves(s, t, o);
    StepTidy(s, t, o, q, None);
  }

  lemma ClaimKept(s: State, o: OpId, p: OpId)
    requires Shaped(s) && Claims(s, Drive(o)) && StagedKeys.Free(s.ops[o].pc.seen) && p in s.ops && p != o
    requires OpTidy(s, p) && !Reserved(s.ops[p].handle) && SlotTidy(s, Target(s, o))
    ensures Kept(DriveStep(s, o), p) <==> Kept(s, p)
  {
  }

  lemma ClaimOwn(s: State, o: OpId)
    requires Shaped(s) && Claims(s, Drive(o)) && OpSafe(s, o) && OpTidy(s, o) && SlotTidy(s, Target(s, o))
    requires C.Passed(s, o)
    ensures var t := DriveStep(s, o);
      && OpTidy(t, o) && Kept(t, o) && !Kept(s, o) && SlotTidy(t, Target(s, o))
      && Place(t.ops[o], |t.key|) == Target(s, o) && t.ops[o].at == Some(s.ops[o].pc.i)
  {
  }

  /** The newer entry comes first, and the older holder is past it. */
  lemma ClaimPair(s: State, o: OpId, p: OpId)
    requires Shaped(s) && Claims(s, Drive(o)) && Unmet(s, Drive(o)) && p in s.ops && p != o
    requires OpSafe(s, o) && OpSafe(s, p) && PairSafe(s, o, p) && C.Passed(s, o) && OpTidy(s, p)
    requires var t := DriveStep(s, o); (Kept(t, p) <==> Kept(s, p)) && Kept(t, o)
    requires var t := DriveStep(s, o);
      Place(t.ops[o], |t.key|) == Target(s, o) && t.ops[o].at == Some(s.ops[o].pc.i)
    ensures PairTidy(DriveStep(s, o), o, p) && PairTidy(DriveStep(s, o), p, o)
  {
  }

  /** A slot is claimed. */
  lemma ClaimTidy(s: State, o: OpId)
    requires Safe(s) && TidyInv(s) && Claims(s, Drive(o)) && Unmet(s, Drive(o)) && C.Passed(s, o)
    ensures TidyInv(DriveStep(s, o))
  {
    var t, q := DriveStep(s, o), Target(s, o);
    assert OpSafe(s, o) && OpTidy(s, o) && SlotTidy(s, q);
    ClaimOwn(s, o);
    forall p {:trigger Kept(t, p)} {:trigger Kept(s, p)} | p in s.ops && p != o ensures Kept(t, p) <==> Kept(s, p) {
      assert OpSafe(s, p) && OpTidy(s, p);
      ClaimKept(s, o, p);
    }
    forall p {:trigger PairTidy(t, o, p)} {:trigger PairTidy(t, p, o)} | p in t.ops && p != o
      ensures PairTidy(t, o, p) && PairTidy(t, p, o)
    {
      assert OpSafe(s, p) && OpTidy(s, p) && PairSafe(s, o, p);
      assert Kept(t, p) <==> Kept(s, p);
      ClaimPair(s, o, p);
    }
    CountMoves(s, t, o);
    StepTidy(s, t, o, q, None);
  }

  lemma PostLedger(s: State, a: Action, b: OpId)
    requires Shaped(s) && a.Post? && Enabled(s, a, false) && b in s.ops && Ledgered(s, b)
    ensures Ledgered(Apply(s, a), b)
  {
    var t := Apply(s, a);
    if s.ops[b].at.Some? && s.freed[b] == 0 && !Kept(s, b) {
      var p :| Carries(s, b, p);
      assert Carries(t, b, p);
    }
  }

  lemma PostTidy(s: State, a: Action)
    requires Safe(s) && TidyInv(s) && a.Post? && Enabled(s, a, false)
    ensures TidyInv(Apply(s, a))
  {
    var t := Apply(s, a);
    forall p {:trigger Kept(t, p)} ensures Kept(t, p) <==> Kept(s, p) {}
    forall p | p in t.ops ensures OpTidy(t, p) {
      if p != a.o { assert OpTidy(s, p) && (Kept(t, p) <==> Kept(s, p)); }
    }
    forall p, r | p in t.ops && r in t.ops && p != r ensures PairTidy(t, p, r) {
      assert Kept(t, p) <==> Kept(s, p);
      assert Kept(t, r) <==> Kept(s, r);
      if p in s.ops && r in s.ops { assert PairTidy(s, p, r); }
    }
    forall q | 0 <= q < |t.key| ensures SlotTidy(t, q) {
      assert SlotTidy(s, q);
      if !Reserved(s.key[q]) {
        var p :| Kept(s, p) && Place(s.ops[p], |s.key|) == q;
        assert Kept(t, p) && Place(t.ops[p], |t.key|) == q;
      }
    }
    forall b | b in t.ops ensures Ledgered(t, b) {
      assert FreedSafe(s, b);
      if b in s.ops { PostLedger(s, a, b); }
    }
    assert CountSet(t) == CountSet(s);
  }

  lemma DriveTidy(s: State, o: OpId)
    requires Safe(s) && TidyInv(s) && Enabled(s, Drive(o), false) && Tidy(s, Drive(o)) && C.Passed(s, o)
    ensures TidyInv(DriveStep(s, o))
  {
    LooksRight(s, o);
    assert OpSafe(s, o);
    match s.ops[o].pc
    case Keep => AttachTidy(s, o); QuietDrive(s, o);
    case Probe(_) => AttachTidy(s, o); QuietDrive(s, o);
    case Claim(_, _) =>
      if Claims(s, Drive(o)) { ClaimTidy(s, o); } else { AttachTidy(s, o); QuietDrive(s, o); }
    case Publish(_) => PublishTidy(s, o);
    case Count(_) => CountTidy(s, o); QuietDrive(s, o);
    case Check => SeekTidy(s, o); QuietDrive(s, o);
    case Seek(_) => SeekTidy(s, o); QuietDrive(s, o);
    case Lock(q) =>
      if s.key[q] == s.ops[o].handle { LockTidy(s, o); } else { GiveUpTidy(s, o); QuietDrive(s, o); }
    case Take(_) => EmptyTidy(s, o);
    case Uncount(_, _) => CountTidy(s, o); QuietDrive(s, o);
    case Bury(_, _) => EmptyTidy(s, o);
    case Free(_) => CountTidy(s, o); QuietDrive(s, o);
  }

  lemma FinishTidy(s: State, a: Action)
    requires Safe(s) && TidyInv(s) && (a.Start? || a.Finish? || a.Null?) && Enabled(s, a, false)
    ensures TidyInv(Apply(s, a))
  {
    var t, o := Apply(s, a), a.o;
    LooksRight(s, o);
    assert OpSafe(s, o) && Ledgered(s, o);
    PhaseTidy(s, a);
    QuietKept(s, t, o, o);
    QuietCount(s, t, o);
    QuietTidy(s, t, o);
  }

  lemma ActionTidy(s: State, a: Action)
    requires Safe(s) && TidyInv(s) && C.AllPassed(s) && Enabled(s, a, false) && Tidy(s, a)
    ensures TidyInv(Apply(s, a))
  {
    match a
    case Post(_, _, _, _, _, _) => PostTidy(s, a);
    case Drive(o) => assert C.Passed(s, o); DriveTidy(s, o);
    case _ => FinishTidy(s, a);
  }

  // ---------------------------------------------------------------- what holds in every tidy run

  lemma {:induction false} RunTidy(tr: seq<State>, i: nat)
    requires TidyRun(tr) && i < |tr|
    ensures Safe(tr[i]) && TidyInv(tr[i])
  {
    TidyIsClean(tr);
    CleanSafe(tr, i);
    if i == 0 {
      assert CountSet(tr[0]) == {};
    } else {
      RunTidy(tr, i - 1);
      C.RunPassed(tr, i - 1);
      assert TidyNext(tr[i - 1], tr[i - 1 + 1]);
      var a :| Enabled(tr[i - 1], a, false) && Tidy(tr[i - 1], a) && tr[i] == Apply(tr[i - 1], a);
      ActionTidy(tr[i - 1], a);
    }
  }

  /** A stored block is in the table, where its own completion call will still come to it, or a completion call of its
    * value is releasing it, or it has been freed. */
  ghost predicate Accounted(s: State, o: OpId)
    requires o in s.ops
  {
    var op, n := s.ops[o], |s.key|;
    || (Kept(s, o) && s.freed[o] == 0 && (op.phase == Nulled ==> Meets(op, n, op.at.value)))
    || (s.freed[o] == 0 && exists p :: Carries(s, o, p))
    || s.freed[o] == 1
  }

  /** Where every block ends up: a dropped one has been freed, one the table would not take is not, and one that was
    * stored is accounted for, and freed when all operations of its value have been released. */
  lemma NothingLost(tr: seq<State>, i: nat, o: OpId)
    requires TidyRun(tr) && i < |tr| && o in tr[i].ops && (tr[i].ops[o].pc.Rest? || tr[i].ops[o].phase == Nulled)
    ensures var s, op := tr[i], tr[i].ops[o];
      && op.fate.Some?
      && match op.fate.value
         case Dropped => s.freed[o] == 1
         case Full => s.freed[o] == 0
         case Duplicate => s.freed[o] == 0
         case Stored =>
           Accounted(s, o)
           && ((forall p :: p in s.ops && s.ops[p].handle == op.handle ==> s.ops[p].pc == Gone) ==> s.freed[o] == 1)
  {
    RunTidy(tr, i);
    var s := tr[i];
    assert OpTidy(s, o) && OpSafe(s, o) && Ledgered(s, o);
    OnceInTidy(tr, i, o);
    if s.ops[o].at.Some? && s.freed[o] == 0 && !Kept(s, o) {
      var p :| Carries(s, o, p);
      assert s.ops[p].pc != Gone;
    }
  }

  lemma OnceInTidy(tr: seq<State>, i: nat, o: OpId)
    requires TidyRun(tr) && i < |tr|
    ensures tr[i].freed[o] <= 1
  {
    assert Run(tr, false) by {
      forall k | 0 <= k < |tr| - 1 ensures Next(tr[k], tr[k + 1], false) { assert TidyNext(tr[k], tr[k + 1]); }
    }
    NeverFreedTwice(tr, false, i, o);
  }

  // ---------------------------------------------------------------- whose completion call it is

  lemma GoneNotKept(s: State, p: OpId)
    requires Safe(s) && TidyInv(s) && p in s.ops
    ensures Kept(s, p) ==> s.ops[p].pc != Gone
  {
    assert OpSafe(s, p) && OpTidy(s, p);
  }

  /** The only entry for a value is the one a search for the value finds. */
  lemma FindsKept(s: State, o: OpId)
    requires Safe(s) && TidyInv(s) && Kept(s, o)
    requires forall p :: p in s.ops && p != o && s.ops[p].handle == s.ops[o].handle ==> s.ops[p].pc == Gone
    ensures s.ops[o].home == Home(s.ops[o].handle, |s.key|) && !Reserved(s.ops[o].handle)
    ensures T.Found(s.key, s.ops[o].home, s.ops[o].handle) == Some(Place(s.ops[o], |s.key|))
  {
    var op, n := s.ops[o], |s.key|;
    assert OpSafe(s, o) && OpTidy(s, o);
    forall j | 0 <= j < op.at.value
      ensures s.key[Slot(op.home, n, j)] != KEY_EMPTY && s.key[Slot(op.home, n, j)] != op.handle
    {
      var q := Slot(op.home, n, j);
      assert SlotTidy(s, q);
      if s.key[q] == op.handle {
        var p :| Kept(s, p) && Place(s.ops[p], n) == q;
        GoneNotKept(s, p);
      }
    }
    C.FindsAhead(s.key, op.home, op.handle, 0, op.at.value);
  }

  /** A new operation of the value that staged nothing, complete, nulled and not yet looked up. */
  lemma Newcomer(s: State, h: Word, x: OpId) returns (u: State)
    requires Shaped(s) && x !in s.ops && !Reserved(h)
    requires forall p :: p in s.ops && s.ops[p].handle == h ==> s.ops[p].phase == Nulled
    ensures C.Leads(s, u) && u.key == s.key && u.block == s.block && u.live == s.live && u.ops.Keys == s.ops.Keys + {x}
    ensures forall p :: p in s.ops ==> u.ops[p] == s.ops[p] && u.freed[p] == s.freed[p]
    ensures u.ops[x].handle == h && u.ops[x].home == Home(h, |s.key|) && u.ops[x].pc == Check
  {
    C.Stays(s);
    var a := Post(x, h, Nonblocking, true, 0, false);
    C.OneMore(s, s, a);
    var s1 := Apply(s, a);
    C.Drives(s, s1, x);
    var s2 := DriveStep(s1, x);
    C.OneMore(s, s2, Finish(x));
    var s3 := Apply(s2, Finish(x));
    C.OneMore(s, s3, Null(x));
    u := Apply(s3, Null(x));
  }

  /** An operation's block need not be freed by its own completion call: until that has looked, the completion call of a
    * new operation of the value, which need not have stored anything, can do it. */
  lemma ForeignRelease(tr: seq<State>, s: State, o: OpId, x: OpId) returns (u: State)
    requires TidyRun(tr) && s == tr[|tr| - 1] && Kept(s, o) && s.ops[o].pc == Check && x !in s.ops
    requires forall p :: p in s.ops && p != o && s.ops[p].handle == s.ops[o].handle ==> s.ops[p].pc == Gone
    ensures C.Leads(s, u) && o in u.ops && u.ops[o].pc == Check && u.freed[o] > 0
  {
    RunTidy(tr, |tr| - 1);
    FindsKept(s, o);
    assert OpSafe(s, o) && o in CountSet(s);
    forall p | p in s.ops && s.ops[p].handle == s.ops[o].handle ensures s.ops[p].phase == Nulled {
      assert OpSafe(s, p);
    }
    var t := Newcomer(s, s.ops[o].handle, x);
    var n := A.ReleaseAlone(t, x);
    C.Releases(s, t, x, n);
    u := A.Steps(t, x, n);
  }
}
