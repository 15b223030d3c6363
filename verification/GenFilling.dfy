/** Filling the temporaries of staged arrays, and the whole of an emitted body before its call.
  *
  * A fill either converts every element or, where it narrows them, meets the first that does not fit; then it defines
  * the outs once more and jumps, unless it has to read past what is there first.  `StagingRun` puts the ways out of the
  * staging together: no memory, a fault, a misfit, or every temporary ready, the implementation not called in any.
  */
module GenFilling {
  import opened GenIR
  import opened GenEmit
  import opened GenSpec
  import opened GenRows
  import opened GenPre
  import opened GenStaging

  predicate Filled(c: Class) {
    c.StageIn? || c.StageNarrow? || c.StageInout?
  }

  /** What filling array i relies on: its length, its allocated temporary, and the flag of its buffer. */
  predicate Fillable(t: Site, s: State, i: nat, n: nat) {
    Sized0(t, s) && i < |s.slots| && Filled(t.g.params[i])
    && LenVal(s, t.g.params[i].ext.alloc) == I(n) && n == LenOf(t, t.g.params[i].ext.alloc)
    && s.slots[i].x.A? && |s.slots[i].x.a| == n && s.slots[i].abi == t.args[i]
    && (t.g.params[i].StageIn? && t.g.params[i].inplace ==>
        t.g.params[i].buffer < |s.slots| && s.slots[t.g.params[i].buffer].aux == Flag(Ignored(t, i)))
  }

  lemma FillRun(t: Site, s: State, i: nat, n: nat)
    requires Means(t) && Fillable(t, s, i, n) && !t.g.params[i].StageNarrow?
    requires Ignored(t, i) || HoldsAtLeast(t.args[i], n)
    ensures Run(t, FillOf(t.g, t.w, i), Go(s)) == Go(SetX(s, i, Temporary(t, i)))
  {
    One(t, FillOf(t.g, t.w, i)[0], s);
  }

  lemma NarrowFillRun(t: Site, s: State, i: nat, n: nat)
    requires Means(t) && Fillable(t, s, i, n) && t.g.params[i].StageNarrow?
    ensures var f := Run(t, FillOf(t.g, t.w, i), Go(s));
      match Narrowed(t, i) {
        case Fault => f == Stuck
        case Fit(_) => f == Go(SetX(s, i, Temporary(t, i)))
        case Unfit =>
          var d := DefineAll(s, t.g.nullable, OutDefined(t.g, t.w));
          f == if d.Go? then Jump(d.s.(result := ERR_TOO_LARGE)) else d
      }
  {
    One(t, FillOf(t.g, t.w, i)[0], s);
  }

  lemma FillRows(t: Site, i: nat)
    requires Given(t) && i < |t.g.params| && Filled(t.g.params[i]) && LenOf(t, t.g.params[i].ext.alloc) >= 0
    ensures Row(t, 6, i).x.A? && |Row(t, 6, i).x.a| == LenOf(t, t.g.params[i].ext.alloc)
    ensures Row(t, 6, i).abi == t.args[i]
    ensures Row(t, 7, i) == Row(t, 6, i).(x := Temporary(t, i))
    ensures Temporary(t, i).A?
    ensures !t.g.params[i].StageNarrow? ==> Ignored(t, i) || HoldsAtLeast(t.args[i], LenOf(t, t.g.params[i].ext.alloc))
  {
    assert ArgOk(t, i);
  }

  lemma BufferFlag(t: Site, s: State, i: nat)
    requires Given(t) && Between(t, s, 6, i) && i < |s.slots| && t.g.params[i].StageIn? && t.g.params[i].inplace
    ensures t.g.params[i].buffer < |s.slots| && s.slots[t.g.params[i].buffer].aux == Flag(Ignored(t, i))
  {
    assert ParamOk(t.g, i);
    var b := t.g.params[i].buffer;
    if b < i { assert Is(t, s, 7, b); } else { assert Is(t, s, 6, b); }
  }

  lemma CanFill(t: Site, s: State, i: nat)
    requires Given(t) && Roomy(t) && LensOk(t, s) && Between(t, s, 6, i) && i < |s.slots|
    requires Filled(t.g.params[i])
    ensures LenOf(t, t.g.params[i].ext.alloc) >= 0
    ensures Fillable(t, s, i, LenOf(t, t.g.params[i].ext.alloc))
  {
    LengthNow(t, s, 6, i, i);
    FillRows(t, i);
    assert Is(t, s, 6, i);
    if t.g.params[i].StageIn? && t.g.params[i].inplace { BufferFlag(t, s, i); }
  }

  predicate Fine(t: Site, i: nat)
    requires i < |t.g.params| == |t.args|
  {
    !Misfit(t, i) && !Unread(t, i)
  }

  /** One array filled from the caller's. */
  lemma FillOne(t: Site, s: State, i: nat)
    requires Legal(t) && Roomy(t) && LensOk(t, s) && Between(t, s, 6, i) && i < |s.slots|
    requires Filled(t.g.params[i])
    ensures var f := Run(t, FillOf(t.g, t.w, i), Go(s));
      && (Unread(t, i) ==> f == Stuck)
      && (Misfit(t, i) ==>
          var d := DefineAll(s, t.g.nullable, OutDefined(t.g, t.w));
          f == if d.Go? then Jump(d.s.(result := ERR_TOO_LARGE)) else d)
      && (Fine(t, i) ==> f == Go(s.(slots := s.slots[i := Row(t, 7, i)])) && s.slots[i].x.A? && Row(t, 7, i).x.A?)
  {
    CanFill(t, s, i);
    FillRows(t, i);
    assert Is(t, s, 6, i);
    var n := LenOf(t, t.g.params[i].ext.alloc);
    if t.g.params[i].StageNarrow? {
      NarrowFillRun(t, s, i, n);
    } else {
      FillRun(t, s, i, n);
    }
  }

  lemma FillNothing(t: Site, s: State, i: nat)
    requires Given(t) && Between(t, s, 6, i) && i < |s.slots| && !Filled(t.g.params[i])
    ensures Between(t, s, 6, i + 1) && Fine(t, i)
  {
    assert Is(t, s, 6, i);
    assert Row(t, 7, i) == Row(t, 6, i);
    SameBetween(t, s, 6, i);
  }

  lemma HoldSame(t: Site, s: State, i: nat, slot: Slot)
    requires HeldOk(t, s) && i < |s.slots| && (s.slots[i].x.A? <==> slot.x.A?)
    ensures HeldOk(t, s.(slots := s.slots[i := slot]))
  {
    var s' := s.(slots := s.slots[i := slot]);
    forall j: nat {:trigger HeldRight(t, s', j)} ensures HeldRight(t, s', j) {
      assert HeldRight(t, s, j);
    }
  }

  predicate MisfitFrom(t: Site, i: nat)
    requires |t.g.params| == |t.args|
  {
    exists j :: i <= j < |t.g.params| && Misfit(t, j)
  }

  /** The first trouble from array i on is a read past what is there. */
  predicate FaultFrom(t: Site, i: nat)
    requires |t.g.params| == |t.args|
  {
    exists j :: i <= j < |t.g.params| && Unread(t, j) && forall k :: i <= k < j ==> !Misfit(t, k)
  }

  lemma TroubleLater(t: Site, i: nat)
    requires i < |t.g.params| == |t.args|
    ensures Unread(t, i) ==> FaultFrom(t, i)
    ensures Misfit(t, i) ==> MisfitFrom(t, i) && !FaultFrom(t, i)
    ensures Fine(t, i) ==> (MisfitFrom(t, i) <==> MisfitFrom(t, i + 1)) && (FaultFrom(t, i) <==> FaultFrom(t, i + 1))
  {
    if Fine(t, i) && FaultFrom(t, i + 1) {
      var j :| i + 1 <= j < |t.g.params| && Unread(t, j) && forall k :: i + 1 <= k < j ==> !Misfit(t, k);
      assert forall k :: i <= k < j ==> !Misfit(t, k);
    }
  }

  ghost predicate FillOutcome(t: Site, s: State, f: Flow, i: nat)
    requires |t.g.params| == |t.args|
  {
    if FaultFrom(t, i) then f == Stuck
    else if MisfitFrom(t, i) then Aborted(t, s, f, ERR_TOO_LARGE)
    else SlotsOnly(s, f) && Between(t, f.s, 6, |t.args|) && HeldOk(t, f.s)
  }

  lemma FillOutcomeStep(t: Site, s: State, s': State, f: Flow, i: nat)
    requires i < |t.g.params| == |t.args| && Fine(t, i)
    requires SlotsOnly(s, Go(s')) && FillOutcome(t, s', f, i + 1)
    ensures FillOutcome(t, s, f, i)
  {
    TroubleLater(t, i);
  }

  lemma FillGoes(t: Site, s: State, i: nat) returns (s': State)
    requires Legal(t) && !Outlives(t.g) && Roomy(t) && LensOk(t, s) && Between(t, s, 6, i) && i < |s.slots|
    requires HeldOk(t, s) && Fine(t, i)
    ensures Run(t, FillOf(t.g, t.w, i), Go(s)) == Go(s')
    ensures SlotsOnly(s, Go(s')) && Between(t, s', 6, i + 1) && HeldOk(t, s') && LensOk(t, s')
  {
    s' := s;
    if Filled(t.g.params[i]) {
      FillOne(t, s, i);
      NextBetween(t, s, 6, i);
      HoldSame(t, s, i, Row(t, 7, i));
      s' := s.(slots := s.slots[i := Row(t, 7, i)]);
    } else {
      FillNothing(t, s, i);
    }
    SameLens(t, s, s');
  }

  lemma TempsSame(t: Site, s: State, s': State)
    requires TempsOk(t, s) && HeldOk(t, s) && Sized0(t, s') && s'.held == s.held
    requires forall j :: 0 <= j < |s.slots| ==> s'.slots[j].x == s.slots[j].x
    ensures TempsOk(t, s') && HeldOk(t, s')
  {
    forall j: nat {:trigger HeldRight(t, s', j)} ensures HeldRight(t, s', j) {
      assert HeldRight(t, s, j);
    }
    forall j: nat {:trigger TempOk(t, s', j)} | j < |s'.slots| ensures TempOk(t, s', j) {
      assert TempOk(t, s, j);
    }
  }

  /** A jump after defining every out leaves all that a failed staging must. */
  lemma DefinedAborts(t: Site, s: State, code: int) returns (s': State)
    requires Given(t) && Untouched(t, s) && TempsOk(t, s) && HeldOk(t, s)
    ensures var d := DefineAll(s, t.g.nullable, OutDefined(t.g, t.w)); d.Go? && s' == d.s.(result := code)
    ensures Aborted(t, s, Jump(s'), code)
  {
    DefinedOwed(t, s);
    LegalDefinable(t, s);
    DefineOuts(t, s);
    var d := DefineAll(s, t.g.nullable, OutDefined(t.g, t.w)).s;
    s' := d.(result := code);
    TempsSame(t, s, s');
    forall j: nat {:trigger Owed(t, s', j)} | j < |s'.slots| ensures Owed(t, s', j) { assert Owed(t, d, j); }
  }

  lemma FillsJump(t: Site, s: State, i: nat, s': State)
    requires i < |t.g.params| && Run(t, FillOf(t.g, t.w, i), Go(s)) == Jump(s')
    ensures Run(t, Fills(t.g, t.w, i), Go(s)) == Jump(s')
  {
    Chain(t, Fills(t.g, t.w, i), FillOf(t.g, t.w, i), Fills(t.g, t.w, i + 1), s, Jump(s'));
    FillsNoLabel(t.g, t.w, i + 1);
    ExecJump(t.step, Fills(t.g, t.w, i + 1), s');
  }

  lemma FillAborts(t: Site, s: State, i: nat) returns (f: Flow)
    requires Legal(t) && !Outlives(t.g) && Roomy(t) && LensOk(t, s) && Between(t, s, 6, i) && i < |s.slots|
    requires HeldOk(t, s) && Misfit(t, i) && AnyStaged(t.g)
    ensures f == Run(t, Fills(t.g, t.w, i), Go(s)) && Aborted(t, s, f, ERR_TOO_LARGE)
  {
    FillOne(t, s, i);
    TempsBetween(t, s, 6, i);
    var s' := DefinedAborts(t, s, ERR_TOO_LARGE);
    f := Jump(s');
    FillsJump(t, s, i, s');
  }

  lemma FillsNext(t: Site, s: State, i: nat) returns (s': State)
    requires Legal(t) && !Outlives(t.g) && Roomy(t) && LensOk(t, s) && Between(t, s, 6, i) && i < |s.slots|
    requires HeldOk(t, s) && Fine(t, i)
    ensures Run(t, Fills(t.g, t.w, i), Go(s)) == Run(t, Fills(t.g, t.w, i + 1), Go(s'))
    ensures SlotsOnly(s, Go(s')) && Between(t, s', 6, i + 1) && HeldOk(t, s') && LensOk(t, s')
  {
    s' := FillGoes(t, s, i);
    Chain(t, Fills(t.g, t.w, i), FillOf(t.g, t.w, i), Fills(t.g, t.w, i + 1), s, Go(s'));
  }

  lemma FillsDone(t: Site, s: State)
    requires Legal(t) && Between(t, s, 6, |t.args|) && HeldOk(t, s)
    ensures Run(t, Fills(t.g, t.w, |t.args|), Go(s)) == Go(s) && FillOutcome(t, s, Go(s), |t.args|)
  {
  }

  lemma FillFaults(t: Site, s: State, i: nat)
    requires Legal(t) && !Outlives(t.g) && Roomy(t) && LensOk(t, s) && Between(t, s, 6, i) && i < |s.slots|
      && Unread(t, i)
    ensures Run(t, Fills(t.g, t.w, i), Go(s)) == Stuck
  {
    FillOne(t, s, i);
    Chain(t, Fills(t.g, t.w, i), FillOf(t.g, t.w, i), Fills(t.g, t.w, i + 1), s, Stuck);
    ExecEnded(t.step, Fills(t.g, t.w, i + 1), Stuck);
  }

  lemma {:induction false} FillsAll(t: Site, s: State, i: nat) returns (f: Flow)
    requires Legal(t) && !Outlives(t.g) && Roomy(t) && LensOk(t, s) && Between(t, s, 6, i) && i <= |s.slots|
    requires HeldOk(t, s) && AnyStaged(t.g)
    ensures f == Run(t, Fills(t.g, t.w, i), Go(s))
    ensures FillOutcome(t, s, f, i)
    decreases |s.slots| - i
  {
    if i == |s.slots| {
      f := Go(s);
      FillsDone(t, s);
    } else if Fine(t, i) {
      var s' := FillsNext(t, s, i);
      f := FillsAll(t, s', i + 1);
      FillOutcomeStep(t, s, s', f, i);
    } else {
      TroubleLater(t, i);
      if Misfit(t, i) {
        f := FillAborts(t, s, i);
      } else {
        f := Stuck;
        FillFaults(t, s, i);
      }
    }
  }

  // ---------------------------------------------------------------- everything before the call

  lemma Patched(t: Site, s: State, lo: nat, ph: nat)
    requires Sized0(t, s) && lo <= |s.slots|
    ensures InStage(t, s.(slots := Patch(t, s.slots, lo, |s.slots|, ph)), ph, lo, |s.slots|)
    ensures forall q: nat :: InStage(t, s, q, 0, lo) ==>
      InStage(t, s.(slots := Patch(t, s.slots, lo, |s.slots|, ph)), q, 0, lo)
  {
    var s' := s.(slots := Patch(t, s.slots, lo, |s.slots|, ph));
    forall i: nat {:trigger Is(t, s', ph, i)} | lo <= i < |s.slots| ensures Is(t, s', ph, i) {
    }
    forall q: nat | InStage(t, s, q, 0, lo) ensures InStage(t, s', q, 0, lo) {
      forall i: nat {:trigger Is(t, s', q, i)} | i < lo ensures Is(t, s', q, i) {
        assert Is(t, s, q, i);
      }
    }
  }

  lemma FirstRows(t: Site, s: State, m: nat)
    requires Sized0(t, s) && InStage(t, s, 0, 0, |s.slots|) && m <= |s.slots|
    ensures Checking(t, s.(slots := Patch(t, s.slots, 0, m, 1)), m, 0)
  {
    var s' := s.(slots := Patch(t, s.slots, 0, m, 1));
    forall i: nat {:trigger Is(t, s', 1, i)} | i < m ensures Is(t, s', 1, i) {
    }
    forall i: nat {:trigger Is(t, s', 0, i)} | m <= i < |s.slots| ensures Is(t, s', 0, i) {
      assert Is(t, s, 0, i);
    }
  }

  /** The second half of the declarations declares nothing a check narrows. */
  lemma LastRows(t: Site, s: State, m: nat)
    requires Given(t) && m == Cut(t.g, |t.g.params|) && Checking(t, s, m, |s.slots|) && m <= |s.slots|
    ensures InStage(t, s, 0, m, |s.slots|)
    ensures InStage(t, s.(slots := Patch(t, s.slots, m, |s.slots|, 1)), 2, 0, |s.slots|)
  {
    var s' := s.(slots := Patch(t, s.slots, m, |s.slots|, 1));
    Patched(t, s, m, 1);
    forall i: nat {:trigger Is(t, s', 2, i)} | i < |s.slots| ensures Is(t, s', 2, i) {
      if i < m {
        assert InStage(t, s', 2, 0, m);
        assert Is(t, s', 2, i);
      } else {
        assert Is(t, s', 1, i);
        CutCovers(t.g, t.handles, i, |t.g.params|);
        assert Row(t, 1, i) == Row(t, 2, i);
      }
    }
  }

  lemma StageUntouched(t: Site, s: State)
    requires InStage(t, s, 3, 0, |s.slots|)
    ensures Untouched(t, s)
  {
    forall j: nat {:trigger Early(t, s, j)} | j < |s.slots| ensures Early(t, s, j) {
      assert Is(t, s, 3, j);
    }
  }

  /** What the declarations, checks and queries lead to. */
  ghost predicate DeclaredOutcome(t: Site, s: State, f: Flow)
    requires |t.g.params| == |t.args|
  {
    if CheckRefusal(t, 0) != [] then Refused(t, s, f, CheckRefusal(t, 0)[0])
    else if ProbeRefusal(t, 0) != [] then Refused(t, s, f, ProbeRefusal(t, 0)[0])
    else f.Go? && f.s == s.(slots := f.s.slots, lens := f.s.lens) && InStage(t, f.s, 3, 0, |t.args|) && LensOk(t, f.s)
  }

  lemma KeepAndProbe(t: Site, s: State) returns (f: Flow)
    requires Legal(t) && InStage(t, s, 2, 0, |t.args|) && s.lens == map[] && CheckRefusal(t, 0) == []
    ensures f == Run(t, Keeps(t.g, 0) + Probes(t.g, t.w, 0, {}), Go(s)) && DeclaredOutcome(t, s, f)
  {
    var f1 := KeepsAll(t, s, 0);
    StageUntouched(t, f1.s);
    f := ProbesAll(t, f1.s, 0, {});
    Chain(t, Keeps(t.g, 0) + Probes(t.g, t.w, 0, {}), Keeps(t.g, 0), Probes(t.g, t.w, 0, {}), s, f1);
    if ProbeRefusal(t, 0) == [] { StageSlots(t, f1.s, f.s, 3, 0, |t.args|); }
  }

  lemma DeclarationsRun(t: Site, s: State) returns (f: Flow)
    requires Legal(t) && InStage(t, s, 0, 0, |t.args|) && s.lens == map[] && Cut(t.g, |t.g.params|) <= |t.g.params|
    ensures f == Run(t, Declarations(t.g, t.w), Go(s)) && DeclaredOutcome(t, s, f)
  {
    var n, m := |t.g.params|, Cut(t.g, |t.g.params|);
    var tail := Keeps(t.g, 0) + Probes(t.g, t.w, 0, {});
    var later := AllRows(t.g, m, n) + tail;
    var checks := Checks(t.g, t.w, 0, {});
    StageSub(t, s, 0, m);
    RowsAll(t, s, 0, m);
    var s1 := s.(slots := Patch(t, s.slots, 0, m, 1));
    FirstRows(t, s, m);
    Chain(t, Declarations(t.g, t.w), AllRows(t.g, 0, m), checks + later, s, Go(s1));
    ChecksAll(t, s1, m, 0);
    var f2 := ChecksRun(t, s1, 0);
    Chain(t, checks + later, checks, later, s1, f2);
    if CheckRefusal(t, 0) != [] {
      f := f2;
      ExecEnded(t.step, later, f2);
    } else {
      LastRows(t, f2.s, m);
      RowsAll(t, f2.s, m, n);
      var s3 := f2.s.(slots := Patch(t, f2.s.slots, m, n, 1));
      Chain(t, later, AllRows(t.g, m, n), tail, f2.s, Go(s3));
      f := KeepAndProbe(t, s3);
    }
  }

  lemma StageSub(t: Site, s: State, ph: nat, m: nat)
    requires InStage(t, s, ph, 0, |s.slots|) && m <= |s.slots|
    ensures InStage(t, s, ph, 0, m)
  {
    forall i: nat {:trigger Is(t, s, ph, i)} | i < m ensures Is(t, s, ph, i) {
    }
  }

  /** What staging leads to: the label with nothing called, or temporaries ready for the call. */
  ghost predicate StagedOutcome(t: Site, s: State, f: Flow)
    requires |t.g.params| == |t.args|
  {
    if AnyFails(t, 0) then Aborted(t, s, f, ERR_INTERN)
    else if FaultFrom(t, 0) then f == Stuck
    else if MisfitFrom(t, 0) then Aborted(t, s, f, ERR_TOO_LARGE)
    else f.Go? && f.s == s.(slots := f.s.slots, held := f.s.held, result := f.s.result)
         && InStage(t, f.s, 7, 0, |t.args|) && HeldOk(t, f.s)
  }

  lemma NothingHeld(t: Site, s: State)
    requires InStage(t, s, 5, 0, |t.args|) && s.held == multiset{}
    ensures HeldOk(t, s)
  {
    forall j: nat {:trigger HeldRight(t, s, j)} ensures HeldRight(t, s, j) {
      if j < |s.slots| { assert Is(t, s, 5, j); }
    }
  }

  lemma AllocAndFill(t: Site, s: State) returns (f: Flow)
    requires Legal(t) && !Outlives(t.g) && LensOk(t, s) && InStage(t, s, 5, 0, |t.args|)
    requires AnyStaged(t.g) && s.held == multiset{} && s.result == ERR_INTERN
    ensures f == Run(t, Allocs(t.g, 0) + Fills(t.g, t.w, 0), Go(s)) && StagedOutcome(t, s, f)
  {
    NothingHeld(t, s);
    var f1 := AllocsAll(t, s, 0);
    Chain(t, Allocs(t.g, 0) + Fills(t.g, t.w, 0), Allocs(t.g, 0), Fills(t.g, t.w, 0), s, f1);
    if AnyFails(t, 0) {
      f := f1;
      FillsNoLabel(t.g, t.w, 0);
      ExecJump(t.step, Fills(t.g, t.w, 0), f1.s);
    } else {
      SameLens(t, s, f1.s);
      NoneFails(t);
      f := FillsAll(t, f1.s, 0);
    }
  }

  lemma StagingRun(t: Site, s: State) returns (f: Flow)
    requires Legal(t) && !Outlives(t.g) && LensOk(t, s) && InStage(t, s, 3, 0, |t.args|)
    requires AnyStaged(t.g) && s.held == multiset{}
    ensures f == Run(t, Staging(t.g, t.w), Go(s)) && StagedOutcome(t, s, f)
  {
    var fill := Allocs(t.g, 0) + Fills(t.g, t.w, 0);
    var define := Defines(OutDefined(t.g, t.w));
    var f1 := NullTempsAll(t, s, 0);
    Chain(t, Staging(t.g, t.w), NullTemps(t.g, 0), [InternByDefault] + (define + fill), s, f1);
    var s2 := f1.s.(result := ERR_INTERN);
    One(t, InternByDefault, f1.s);
    Chain(t, [InternByDefault] + (define + fill), [InternByDefault], define + fill, f1.s, Go(s2));
    StageSlots(t, f1.s, s2, 4, 0, |t.args|);
    DefinesAll(t, s2);
    var f3 := Run(t, define, Go(s2));
    Chain(t, define + fill, define, fill, s2, f3);
    SameLens(t, s, f3.s);
    f := AllocAndFill(t, f3.s);
  }

  /** A body that stages nothing is ready as soon as it is declared. */
  lemma NothingStaged(t: Site, s: State)
    requires InStage(t, s, 3, 0, |t.args|) && !AnyStaged(t.g) && |t.args| == |t.g.params|
    ensures InStage(t, s, 7, 0, |t.args|)
    ensures !AnyFails(t, 0) && !MisfitFrom(t, 0) && !FaultFrom(t, 0)
    ensures s.held == multiset{} ==> HeldOk(t, s)
  {
    forall j: nat {:trigger Is(t, s, 7, j)} | j < |s.slots| ensures Is(t, s, 7, j) {
      assert Is(t, s, 3, j);
      assert Row(t, 7, j) == Row(t, 3, j);
    }
    forall j: nat {:trigger HeldRight(t, s, j)} | s.held == multiset{} ensures HeldRight(t, s, j) {
    }
  }
}
