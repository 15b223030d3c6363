/** The rest of an emitted body before its arrays are filled: kept requests, extent queries, and temporaries.
  *
  * From here on an exit also owes the release of what has been allocated.  `HeldRight` ties the temporaries held to the
  * locals that point at them, so that the label, which releases every local that is not null, releases each temporary
  * exactly once, however far the allocations have come.
  */
module GenStaging {
  import opened GenIR
  import opened GenEmit
  import opened GenSpec
  import opened GenRows
  import opened GenPre

  /** The first i parameters are one stage further than the rest. */
  predicate Between(t: Site, s: State, ph: nat, i: nat) {
    InStage(t, s, ph + 1, 0, i) && InStage(t, s, ph, i, |s.slots|)
  }

  lemma NextBetween(t: Site, s: State, ph: nat, i: nat)
    requires Between(t, s, ph, i) && i < |s.slots|
    ensures Is(t, s, ph, i)
    ensures Between(t, s.(slots := s.slots[i := Row(t, ph + 1, i)]), ph, i + 1)
  {
    var s' := s.(slots := s.slots[i := Row(t, ph + 1, i)]);
    StageLess(t, s, ph, i, |s.slots|);
    StageStep(t, s, ph, i + 1, |s.slots|, i, Row(t, ph + 1, i));
    StageStep(t, s, ph + 1, 0, i, i, Row(t, ph + 1, i));
    assert Is(t, s', ph + 1, i);
    StageMore(t, s', ph + 1, 0, i);
  }

  lemma SameBetween(t: Site, s: State, ph: nat, i: nat)
    requires Between(t, s, ph, i) && i < |s.slots| && Is(t, s, ph + 1, i)
    ensures Between(t, s, ph, i + 1)
  {
    StageLess(t, s, ph, i, |s.slots|);
    StageMore(t, s, ph + 1, 0, i);
  }

  lemma SlotsBetween(t: Site, s: State, s': State, ph: nat, i: nat)
    requires Between(t, s, ph, i) && s'.slots == s.slots
    ensures Between(t, s', ph, i)
  {
    StageSlots(t, s, s', ph + 1, 0, i);
    StageSlots(t, s, s', ph, i, |s.slots|);
  }

  /** Only the slots differ. */
  predicate SlotsOnly(s: State, f: Flow) {
    f.Go? && f.s == s.(slots := f.s.slots)
  }

  // ---------------------------------------------------------------- kept requests and extent queries

  function KeepOf(g: Signature, i: nat): seq<Stmt>
    requires i < |g.params|
  {
    if g.params[i] == Inout(REQUEST) then [Keep(i)] else []
  }

  lemma KeepOne(t: Site, s: State, i: nat)
    requires Legal(t) && Sized0(t, s) && i < |s.slots| && s.slots[i] == Row(t, 2, i)
    ensures Run(t, KeepOf(t.g, i), Go(s)) == Go(s.(slots := s.slots[i := Row(t, 3, i)]))
  {
    if t.g.params[i] == Inout(REQUEST) {
      One(t, Keep(i), s);
    } else {
      assert Row(t, 3, i) == Row(t, 2, i);
      assert s.slots[i := Row(t, 3, i)] == s.slots;
    }
  }

  lemma {:induction false} KeepsAll(t: Site, s: State, i: nat) returns (f: Flow)
    requires Legal(t) && Between(t, s, 2, i) && i <= |s.slots|
    ensures f == Run(t, Keeps(t.g, i), Go(s))
    ensures SlotsOnly(s, f) && Between(t, f.s, 2, |s.slots|)
    decreases |s.slots| - i
  {
    if i == |s.slots| {
      f := Go(s);
    } else {
      NextBetween(t, s, 2, i);
      KeepOne(t, s, i);
      var s' := s.(slots := s.slots[i := Row(t, 3, i)]);
      f := KeepsAll(t, s', i + 1);
      Chain(t, Keeps(t.g, i), KeepOf(t.g, i), Keeps(t.g, i + 1), s, Go(s'));
    }
  }

  /** An extent query has been answered, and its answer kept. */
  predicate Known(t: Site, s: State, id: nat) {
    id in s.lens && s.lens[id] == t.w.probeLen(id) && t.w.probeError(id) == 0
  }

  predicate LensTrue(t: Site, s: State) {
    forall id {:trigger Known(t, s, id)} :: id in s.lens ==> Known(t, s, id)
  }

  predicate KnownFor(t: Site, s: State, j: nat)
    requires j < |t.g.params|
  {
    Sized(t.g.params[j]) && t.g.params[j].ext.alloc.OfProbe? ==> t.g.params[j].ext.alloc.id in s.lens
  }

  /** Every array from parameter i on that is sized by a query has its length in scope. */
  predicate LensFrom(t: Site, s: State, i: nat) {
    forall j: nat {:trigger KnownFor(t, s, j)} :: i <= j < |t.g.params| ==> KnownFor(t, s, j)
  }

  predicate LensOnly(s: State, f: Flow) {
    f.Go? && f.s == s.(lens := f.s.lens) && s.lens.Keys <= f.s.lens.Keys
  }

  lemma LearnLen(t: Site, s: State, id: nat)
    requires LensTrue(t, s) && t.w.probeError(id) == 0
    ensures LensTrue(t, s.(lens := s.lens[id := t.w.probeLen(id)]))
  {
    var s' := s.(lens := s.lens[id := t.w.probeLen(id)]);
    forall k {:trigger Known(t, s', k)} | k in s'.lens ensures Known(t, s', k) {
      if k != id { assert Known(t, s, k); }
    }
  }

  lemma LensMore(t: Site, s: State, i: nat)
    requires i < |t.g.params| && LensFrom(t, s, i + 1) && KnownFor(t, s, i)
    ensures LensFrom(t, s, i)
  {
    forall j: nat {:trigger KnownFor(t, s, j)} | i <= j < |t.g.params| ensures KnownFor(t, s, j) {
      if i < j { assert i + 1 <= j; }
    }
  }

  lemma LensUntouched(t: Site, s: State, m: map<nat, nat>)
    requires Untouched(t, s)
    ensures Untouched(t, s.(lens := m))
  {
    var s' := s.(lens := m);
    forall j: nat {:trigger Early(t, s', j)} | j < |s'.slots| ensures Early(t, s', j) {
      assert Early(t, s, j);
    }
  }

  /** One new query: its error, or its answer. */
  lemma ProbeOne(t: Site, s: State, id: nat)
    requires Legal(t) && Untouched(t, s)
    ensures var f := Run(t, [ProbeOr(id, OutDefined(t.g, t.w))], Go(s));
      if t.w.probeError(id) != 0 then Refused(t, s, f, t.w.errorToAbi(t.w.probeError(id)))
      else f == Go(s.(lens := s.lens[id := t.w.probeLen(id)]))
  {
    One(t, ProbeOr(id, OutDefined(t.g, t.w)), s);
    Refuses(t, s, t.w.errorToAbi(t.w.probeError(id)));
  }

  ghost predicate ProbeOutcome(t: Site, s: State, f: Flow, i: nat)
    requires i <= |t.g.params|
  {
    if ProbeRefusal(t, i) != [] then Refused(t, s, f, ProbeRefusal(t, i)[0])
    else LensOnly(s, f) && LensTrue(t, f.s) && LensFrom(t, f.s, i)
  }

  lemma ProbeOutcomeStep(t: Site, s: State, s': State, f: Flow, i: nat)
    requires i < |t.g.params| && LensOnly(s, Go(s')) && LensTrue(t, s') && KnownFor(t, s', i)
    requires ProbeOutcome(t, s', f, i + 1)
    ensures ProbeOutcome(t, s, f, i)
  {
    var c := t.g.params[i];
    if Sized(c) && c.ext.alloc.OfProbe? {
      assert Known(t, s', c.ext.alloc.id);
    }
    if ProbeRefusal(t, i + 1) == [] {
      assert KnownFor(t, f.s, i);
      LensMore(t, f.s, i);
    }
  }

  lemma {:induction false} ProbesAll(t: Site, s: State, i: nat, seen: set<nat>) returns (f: Flow)
    requires Legal(t) && Untouched(t, s) && LensTrue(t, s) && seen <= s.lens.Keys && i <= |t.g.params|
    ensures f == Run(t, Probes(t.g, t.w, i, seen), Go(s))
    ensures ProbeOutcome(t, s, f, i)
    decreases |t.g.params| - i
  {
    if i == |t.g.params| {
      f := Go(s);
    } else {
      var c := t.g.params[i];
      if Sized(c) && c.ext.alloc.OfProbe? && c.ext.alloc.id !in seen {
        var id := c.ext.alloc.id;
        var st, rest := ProbeOr(id, OutDefined(t.g, t.w)), Probes(t.g, t.w, i + 1, seen + {id});
        ProbeOne(t, s, id);
        var s' := s.(lens := s.lens[id := t.w.probeLen(id)]);
        if t.w.probeError(id) != 0 {
          f := Run(t, [st], Go(s));
          Chain(t, Probes(t.g, t.w, i, seen), [st], rest, s, f);
          ExecEnded(t.step, rest, f);
        } else {
          LearnLen(t, s, id);
          LensUntouched(t, s, s'.lens);
          f := ProbesAll(t, s', i + 1, seen + {id});
          Chain(t, Probes(t.g, t.w, i, seen), [st], rest, s, Go(s'));
          ProbeOutcomeStep(t, s, s', f, i);
        }
      } else {
        f := ProbesAll(t, s, i + 1, seen);
        ProbeOutcomeStep(t, s, s, f, i);
      }
    }
  }

  predicate LensOk(t: Site, s: State) {
    LensTrue(t, s) && LensFrom(t, s, 0)
  }

  lemma SameLens(t: Site, s: State, s': State)
    requires LensOk(t, s) && s'.lens == s.lens
    ensures LensOk(t, s')
  {
    forall id {:trigger Known(t, s', id)} | id in s'.lens ensures Known(t, s', id) {
      assert Known(t, s, id);
    }
    forall j: nat {:trigger KnownFor(t, s', j)} | j < |t.g.params| ensures KnownFor(t, s', j) {
      assert KnownFor(t, s, j);
    }
  }

  // ---------------------------------------------------------------- lengths

  lemma {:induction false} NoneRefuses(t: Site, i: nat, j: nat)
    requires i <= j < |t.g.params| == |t.args| && CheckRefusal(t, i) == []
    ensures OwnRefusal(t, j) == []
    decreases j - i
  {
    if i < j { NoneRefuses(t, i + 1, j); }
  }

  /** After the checks, the length of every array has its value for the rest of the body. */
  lemma LengthNow(t: Site, s: State, ph: nat, i: nat, k: nat)
    requires Given(t) && Between(t, s, ph, i) && ph >= 2 && LensOk(t, s)
    requires k < |s.slots| && Sized(t.g.params[k])
    ensures LenVal(s, t.g.params[k].ext.alloc) == I(LenOf(t, t.g.params[k].ext.alloc))
  {
    assert ParamOk(t.g, k);
    var e := t.g.params[k].ext;
    if e.alloc.OfParam? {
      var l := e.alloc.index;
      assert ArgOk(t, l);
      if l < i { assert Is(t, s, ph + 1, l); } else { assert Is(t, s, ph, l); }
    } else {
      assert KnownFor(t, s, k);
      assert Known(t, s, e.alloc.id);
    }
  }

  /** No array that is staged has a negative length. */
  predicate Roomy(t: Site)
    requires |t.g.params| == |t.args|
  {
    forall i :: 0 <= i < |t.args| && Staged(t.g.params[i]) && !Skipped(t, i) ==> LenOf(t, t.g.params[i].ext.alloc) >= 0
  }

  // ---------------------------------------------------------------- temporaries

  function NullTempOf(g: Signature, i: nat): seq<Stmt>
    requires i < |g.params|
  {
    if Staged(g.params[i]) then [NullTemp(i)] else []
  }

  lemma NullTempOne(t: Site, s: State, i: nat)
    requires Legal(t) && !Outlives(t.g) && Sized0(t, s) && i < |s.slots| && s.slots[i] == Row(t, 3, i)
    ensures Run(t, NullTempOf(t.g, i), Go(s)) == Go(s.(slots := s.slots[i := Row(t, 4, i)]))
  {
    if Staged(t.g.params[i]) {
      One(t, NullTemp(i), s);
    } else {
      assert Row(t, 4, i) == Row(t, 3, i);
      assert s.slots[i := Row(t, 4, i)] == s.slots;
    }
  }

  lemma {:induction false} NullTempsAll(t: Site, s: State, i: nat) returns (f: Flow)
    requires Legal(t) && !Outlives(t.g) && Between(t, s, 3, i) && i <= |s.slots|
    ensures f == Run(t, NullTemps(t.g, i), Go(s))
    ensures SlotsOnly(s, f) && Between(t, f.s, 3, |s.slots|)
    decreases |s.slots| - i
  {
    if i == |s.slots| {
      f := Go(s);
    } else {
      NextBetween(t, s, 3, i);
      NullTempOne(t, s, i);
      var s' := s.(slots := s.slots[i := Row(t, 4, i)]);
      f := NullTempsAll(t, s', i + 1);
      Chain(t, NullTemps(t.g, i), NullTempOf(t.g, i), NullTemps(t.g, i + 1), s, Go(s'));
    }
  }

  lemma DefinedRow(t: Site, j: nat)
    requires Given(t) && !Outlives(t.g) && AnyStaged(t.g) && j < |t.g.params|
    ensures Row(t, 4, j).abi == t.args[j]
    ensures Row(t, 5, j) == if Defaulted(t.g.params[j]) then Put(t, Row(t, 4, j), j) else Row(t, 4, j)
  {
  }

  lemma DefinesAll(t: Site, s: State)
    requires Legal(t) && !Outlives(t.g) && AnyStaged(t.g) && InStage(t, s, 4, 0, |t.g.params|)
    ensures var f := Run(t, Defines(OutDefined(t.g, t.w)), Go(s));
      SlotsOnly(s, f) && InStage(t, f.s, 5, 0, |t.g.params|)
  {
    forall j: nat {:trigger Early(t, s, j)} | j < |s.slots| ensures Early(t, s, j) {
      assert Is(t, s, 4, j);
      DefinedRow(t, j);
    }
    LegalDefinable(t, s);
    DefineOuts(t, s);
    DefinesRun(t, s, OutDefined(t.g, t.w));
    var s' := DefineAll(s, t.g.nullable, OutDefined(t.g, t.w)).s;
    forall j: nat {:trigger Is(t, s', 5, j)} | j < |s'.slots| ensures Is(t, s', 5, j) {
      assert Is(t, s, 4, j);
      DefinedRow(t, j);
    }
  }

  predicate Allocated(t: Site, s: State, j: nat) {
    Sized0(t, s) && j < |s.slots| && Staged(t.g.params[j]) && s.slots[j].x.A?
  }

  predicate HeldRight(t: Site, s: State, j: nat) {
    s.held[j] == if Allocated(t, s, j) then 1 else 0
  }

  /** A temporary is held exactly while its pointer is not null. */
  ghost predicate HeldOk(t: Site, s: State) {
    Sized0(t, s) && forall j: nat {:trigger HeldRight(t, s, j)} :: HeldRight(t, s, j)
  }

  predicate TempOk(t: Site, s: State, j: nat) {
    Sized0(t, s) && j < |s.slots| && (Staged(t.g.params[j]) ==> s.slots[j].x.Absent? || s.slots[j].x.A?)
  }

  predicate TempsOk(t: Site, s: State) {
    Sized0(t, s) && forall j: nat {:trigger TempOk(t, s, j)} :: j < |s.slots| ==> TempOk(t, s, j)
  }

  /** The body is on its way to `done:` without having called. */
  ghost predicate Aborted(t: Site, s: State, f: Flow, code: int) {
    f.Jump? && f.s.result == code && f.s.calls == s.calls && f.s.released == s.released
    && f.s.block == s.block && f.s.table == s.table
    && HeldOk(t, f.s) && TempsOk(t, f.s) && AllOwed(t, f.s)
  }

  lemma TempsBetween(t: Site, s: State, ph: nat, i: nat)
    requires Given(t) && !Outlives(t.g) && Between(t, s, ph, i) && 5 <= ph <= 6 && AnyStaged(t.g)
    ensures TempsOk(t, s) && Untouched(t, s) && AllOwed(t, s)
  {
    forall j: nat {:trigger TempOk(t, s, j)} | j < |s.slots|
      ensures TempOk(t, s, j) && Early(t, s, j) && Owed(t, s, j)
    {
      if j < i { assert Is(t, s, ph + 1, j); } else { assert Is(t, s, ph, j); }
    }
    forall j: nat {:trigger Owed(t, s, j)} | j < |s.slots| ensures Owed(t, s, j) { assert TempOk(t, s, j); }
    forall j: nat {:trigger Early(t, s, j)} | j < |s.slots| ensures Early(t, s, j) { assert TempOk(t, s, j); }
  }

  predicate MaySkip(g: Signature, c: Class) {
    c.StageStatus? || (c.StageOut? && g.nullable)
  }

  lemma AllocRun(t: Site, s: State, i: nat, n: int)
    requires Means(t) && Sized0(t, s) && i < |s.slots| && Staged(t.g.params[i]) && s.slots[i].x == Absent
    requires LenVal(s, t.g.params[i].ext.alloc) == I(n) && n == LenOf(t, t.g.params[i].ext.alloc)
    requires MaySkip(t.g, t.g.params[i]) ==> s.slots[i].aux == Flag(t.args[i] == Absent)
    ensures var f := Run(t, AllocOf(t.g, i), Go(s));
      if Skipped(t, i) then f == Go(s)
      else if Fails(t, i) then f == Jump(s)
      else n >= 0 && f == Go(SetX(s, i, A(Blank(t, i, n, t.g.params[i].StageStatus?))).(held := s.held + multiset{i}))
  {
    One(t, AllocOf(t.g, i)[0], s);
    if n >= 0 {
      var z := t.g.params[i].StageStatus?;
      assert seq(n, k requires 0 <= k < n => if z then 0 else t.w.junk(i, k)) == Blank(t, i, n, z);
    }
  }

  lemma AllocRows(t: Site, i: nat)
    requires Given(t) && !Outlives(t.g) && i < |t.g.params| && Staged(t.g.params[i])
    ensures Row(t, 5, i).x == Absent
    ensures MaySkip(t.g, t.g.params[i]) ==> Row(t, 5, i).aux == Flag(t.args[i] == Absent)
    ensures var n := LenOf(t, t.g.params[i].ext.alloc);
      Row(t, 6, i) == if Skipped(t, i) then Row(t, 5, i)
        else Row(t, 5, i).(x := A(Blank(t, i, if n < 0 then 0 else n, t.g.params[i].StageStatus?)))
  {
  }

  lemma AllocOne(t: Site, s: State, i: nat)
    requires Legal(t) && !Outlives(t.g) && LensOk(t, s) && Between(t, s, 5, i) && i < |s.slots|
    requires Staged(t.g.params[i])
    ensures var f := Run(t, AllocOf(t.g, i), Go(s));
      if Fails(t, i) then f == Jump(s)
      else if Skipped(t, i) then f == Go(s) && Is(t, s, 6, i)
      else f == Go(s.(slots := s.slots[i := Row(t, 6, i)], held := s.held + multiset{i}))
           && s.slots[i].x == Absent && Row(t, 6, i).x.A?
  {
    LengthNow(t, s, 5, i, i);
    AllocRows(t, i);
    assert Is(t, s, 5, i);
    AllocRun(t, s, i, LenOf(t, t.g.params[i].ext.alloc));
  }

  lemma AllocNothing(t: Site, s: State, i: nat)
    requires Given(t) && Between(t, s, 5, i) && i < |s.slots| && !Staged(t.g.params[i])
    ensures Between(t, s, 5, i + 1)
  {
    assert Is(t, s, 5, i);
    assert Row(t, 6, i) == Row(t, 5, i);
    SameBetween(t, s, 5, i);
  }

  lemma HoldMore(t: Site, s: State, i: nat)
    requires HeldOk(t, s) && i < |s.slots| && Staged(t.g.params[i]) && !s.slots[i].x.A? && Row(t, 6, i).x.A?
    ensures HeldOk(t, s.(slots := s.slots[i := Row(t, 6, i)], held := s.held + multiset{i}))
  {
    var s' := s.(slots := s.slots[i := Row(t, 6, i)], held := s.held + multiset{i});
    forall j: nat {:trigger HeldRight(t, s', j)} ensures HeldRight(t, s', j) {
      assert HeldRight(t, s, j);
    }
  }

  predicate AnyFails(t: Site, i: nat)
    requires |t.g.params| == |t.args|
  {
    exists j :: i <= j < |t.g.params| && Fails(t, j)
  }

  lemma NoneFails(t: Site)
    requires |t.g.params| == |t.args| && !AnyFails(t, 0)
    ensures Roomy(t)
  {
    forall i | 0 <= i < |t.args| && Staged(t.g.params[i]) && !Skipped(t, i)
      ensures LenOf(t, t.g.params[i].ext.alloc) >= 0
    {
      assert !Fails(t, i);
    }
  }

  lemma FailsLater(t: Site, i: nat)
    requires i < |t.g.params| == |t.args|
    ensures AnyFails(t, i) <==> Fails(t, i) || AnyFails(t, i + 1)
  {
  }

  predicate SlotsAndHeld(s: State, f: Flow) {
    f.Go? && f.s == s.(slots := f.s.slots, held := f.s.held)
  }

  /** What the allocations of parameters i.. lead to. */
  ghost predicate AllocOutcome(t: Site, s: State, f: Flow, i: nat)
    requires |t.g.params| == |t.args|
  {
    if AnyFails(t, i) then Aborted(t, s, f, ERR_INTERN)
    else SlotsAndHeld(s, f) && Between(t, f.s, 5, |t.args|) && HeldOk(t, f.s)
  }

  lemma AllocAborts(t: Site, s: State, i: nat) returns (f: Flow)
    requires Legal(t) && !Outlives(t.g) && LensOk(t, s) && Between(t, s, 5, i) && i < |s.slots|
    requires HeldOk(t, s) && AnyStaged(t.g) && s.result == ERR_INTERN
    requires Fails(t, i)
    ensures f == Run(t, Allocs(t.g, i), Go(s)) && AllocOutcome(t, s, f, i)
  {
    f := Jump(s);
    ExecConcat(t.step, AllocOf(t.g, i), Allocs(t.g, i + 1), Go(s));
    AllocOne(t, s, i);
    AllocsNoLabel(t.g, i + 1);
    ExecJump(t.step, Allocs(t.g, i + 1), s);
    TempsBetween(t, s, 5, i);
  }

  /** One array allocated, or not wanted: the loop goes on. */
  lemma AllocGoes(t: Site, s: State, i: nat) returns (s': State)
    requires Legal(t) && !Outlives(t.g) && LensOk(t, s) && Between(t, s, 5, i) && i < |s.slots|
    requires HeldOk(t, s) && !Fails(t, i)
    ensures Run(t, AllocOf(t.g, i), Go(s)) == Go(s')
    ensures SlotsAndHeld(s, Go(s')) && Between(t, s', 5, i + 1) && HeldOk(t, s') && LensOk(t, s')
    ensures |s'.slots| == |s.slots| && s'.result == s.result
  {
    s' := s;
    if Staged(t.g.params[i]) {
      AllocOne(t, s, i);
      if Skipped(t, i) {
        SameBetween(t, s, 5, i);
      } else {
        HoldMore(t, s, i);
        s' := s.(slots := s.slots[i := Row(t, 6, i)], held := s.held + multiset{i});
        NextBetween(t, s, 5, i);
        SlotsBetween(t, s.(slots := s'.slots), s', 5, i + 1);
      }
    } else {
      AllocNothing(t, s, i);
    }
    SameLens(t, s, s');
  }

  lemma AllocOutcomeStep(t: Site, s: State, s': State, f: Flow, i: nat)
    requires i < |t.g.params| == |t.args| && !Fails(t, i)
    requires SlotsAndHeld(s, Go(s')) && AllocOutcome(t, s', f, i + 1)
    ensures AllocOutcome(t, s, f, i)
  {
    FailsLater(t, i);
  }

  lemma {:induction false} AllocsAll(t: Site, s: State, i: nat) returns (f: Flow)
    requires Legal(t) && !Outlives(t.g) && LensOk(t, s) && Between(t, s, 5, i) && i <= |s.slots|
    requires HeldOk(t, s) && AnyStaged(t.g) && s.result == ERR_INTERN
    ensures f == Run(t, Allocs(t.g, i), Go(s))
    ensures AllocOutcome(t, s, f, i)
    decreases |s.slots| - i
  {
    if i == |s.slots| {
      f := Go(s);
    } else if Fails(t, i) {
      f := AllocAborts(t, s, i);
    } else {
      var s' := AllocGoes(t, s, i);
      f := AllocsAll(t, s', i + 1);
      Chain(t, Allocs(t.g, i), AllocOf(t.g, i), Allocs(t.g, i + 1), s, Go(s'));
      AllocOutcomeStep(t, s, s', f, i);
    }
  }

  lemma {:induction false} AllocsNoLabel(g: Signature, i: nat)
    requires i <= |g.params|
    ensures Done !in Allocs(g, i)
    decreases |g.params| - i
  {
    if i < |g.params| { AllocsNoLabel(g, i + 1); }
  }

  lemma {:induction false} FillsNoLabel(g: Signature, w: World, i: nat)
    requires i <= |g.params|
    ensures Done !in Fills(g, w, i)
    decreases |g.params| - i
  {
    if i < |g.params| { FillsNoLabel(g, w, i + 1); }
  }
}
