/** Copying arrays back, and mapping those that lie in the caller's own memory.
  *
  * How many elements come back may itself be an answer of the call, read through the caller's pointer after it has been
  * written; `BackNow` says that the count is always in range of both arrays.  Requests are copied whatever the call
  * answered, other arrays only after success, and statuses only where the caller wants them.
  */
module GenLeaving {
  import opened GenIR
  import opened GenEmit
  import opened GenSpec
  import opened GenRows
  import opened GenPre
  import opened GenStaging
  import opened GenCalling
  import opened GenReturning

  // ---------------------------------------------------------------- arrays

  lemma BackNow(t: Site, s: State, ph: nat, i: nat, k: nat)
    requires Given(t) && LensOk(t, s) && Between(t, s, ph, i) && 10 <= ph <= 11 && k < |t.args| && Sized(t.g.params[k])
    ensures BackCount(s, t.g.params[k].ext) == Back(t, t.g.params[k].ext)
    ensures Back(t, t.g.params[k].ext) <= Max(0, LenOf(t, t.g.params[k].ext.alloc))
  {
    LengthNow(t, s, ph, i, k);
    assert ParamOk(t.g, k);
    var e := t.g.params[k].ext;
    if e.reported {
      assert ReportOk(t, k);
      ReportRow(t, ph, e.via);
      if e.via < i { assert Is(t, s, ph + 1, e.via); } else { assert Is(t, s, ph, e.via); }
      ReportRow(t, ph + 1, e.via);
    }
  }

  lemma ReportRow(t: Site, ph: nat, v: nat)
    requires Given(t) && v < |t.args| && t.g.params[v] == PassPtr(true) && t.args[v].I? && ph >= 9
    ensures Row(t, ph, v).abi == OutOf(t, v) && OutOf(t, v).I?
  {
    OutShape(t, v);
  }

  lemma CopyRows(t: Site, i: nat)
    requires Given(t) && i < |t.args| && Staged(t.g.params[i])
    ensures Row(t, 11, i) == Row(t, 10, i).(abi := After(t, i))
    ensures Skipped(t, i) ==> After(t, i) == t.args[i] == Row(t, 10, i).abi && !ClashAt(t, i)
    ensures MaySkip(t.g, t.g.params[i]) ==> Row(t, 10, i).aux == Flag(t.args[i] == Absent)
    ensures !InMode(t.g.params[i]) && !Skipped(t, i) ==> t.args[i].A?
  {
    assert ArgOk(t, i);
  }

  /** What copying array i back relies on. */
  predicate Copyable(t: Site, s: State, i: nat) {
    Sized0(t, s) && i < |s.slots| && Staged(t.g.params[i]) && s.ierror == Answer(t).ierror
    && s.slots[i].x == OutOf(t, i) && s.slots[i].abi == t.args[i]
    && OutOf(t, i).A? && HoldsAtLeast(t.args[i], |OutOf(t, i).a|)
    && |OutOf(t, i).a| == LenOf(t, t.g.params[i].ext.alloc)
    && LenVal(s, t.g.params[i].ext.alloc) == I(|OutOf(t, i).a|)
    && BackCount(s, t.g.params[i].ext) == Back(t, t.g.params[i].ext) <= |OutOf(t, i).a|
  }

  function Copied(t: Site, s: State, i: nat): Flow
    requires i < |s.slots| && i < |t.g.params| == |t.args|
  {
    Go(SetAbi(s.(clashed := s.clashed || ClashAt(t, i)), i, After(t, i)))
  }

  lemma CopyRequests(t: Site, s: State, i: nat)
    requires Means(t) && Copyable(t, s, i) && t.g.params[i].StageInout?
    ensures Run(t, CopyBack(t.g, i), Go(s)) == Copied(t, s, i)
  {
    One(t, CopyBack(t.g, i)[0], s);
    assert OutOf(t, i).a[..|OutOf(t, i).a|] == OutOf(t, i).a;
  }

  lemma CopyOuts(t: Site, s: State, i: nat)
    requires Means(t) && Copyable(t, s, i) && t.g.params[i].StageOut? && (t.g.nullable ==> s.slots[i].aux == I(0))
    ensures Run(t, CopyBack(t.g, i), Go(s)) == Copied(t, s, i)
  {
    One(t, CopyBack(t.g, i)[0], s);
    if s.ierror != 0 { assert s.slots[i := s.slots[i].(abi := After(t, i))] == s.slots; }
  }

  lemma CopyStatusArray(t: Site, s: State, i: nat)
    requires Means(t) && Copyable(t, s, i) && t.g.params[i].StageStatus? && s.slots[i].aux == I(0)
    ensures Run(t, CopyBack(t.g, i), Go(s)) == Copied(t, s, i)
  {
    One(t, CopyBack(t.g, i)[0], s);
  }

  lemma CopySkipped(t: Site, s: State, i: nat)
    requires Legal(t) && Is(t, s, 10, i) && Staged(t.g.params[i]) && Skipped(t, i)
    ensures Run(t, CopyBack(t.g, i), Go(s)) == Copied(t, s, i)
  {
    CopyRows(t, i);
    One(t, CopyBack(t.g, i)[0], s);
    assert s.slots[i := s.slots[i].(abi := After(t, i))] == s.slots;
  }

  lemma CopyReady(t: Site, s: State, i: nat)
    requires Given(t) && Roomy(t) && LensOk(t, s) && Between(t, s, 10, i) && i < |t.args|
    requires s.ierror == Answer(t).ierror && Staged(t.g.params[i]) && !Skipped(t, i) && !InMode(t.g.params[i])
    ensures Copyable(t, s, i)
    ensures MaySkip(t.g, t.g.params[i]) ==> s.slots[i].aux == I(0)
  {
    StagedOut(t, i);
    StagedRow10(t, i);
    CopyRows(t, i);
    assert Is(t, s, 10, i);
    LengthNow(t, s, 10, i, i);
    BackNow(t, s, 10, i, i);
  }

  lemma CopyRun(t: Site, s: State, i: nat)
    requires Legal(t) && Roomy(t) && LensOk(t, s) && Between(t, s, 10, i) && i < |t.args|
    requires s.ierror == Answer(t).ierror && Staged(t.g.params[i]) && !InMode(t.g.params[i])
    ensures Run(t, CopyBack(t.g, i), Go(s)) == Copied(t, s, i)
  {
    assert Is(t, s, 10, i);
    if Skipped(t, i) {
      CopySkipped(t, s, i);
    } else {
      CopyReady(t, s, i);
      if t.g.params[i].StageInout? { CopyRequests(t, s, i); }
      else if t.g.params[i].StageOut? { CopyOuts(t, s, i); }
      else { CopyStatusArray(t, s, i); }
    }
  }

  lemma CopyNothing(t: Site, i: nat)
    requires i < |t.g.params| == |t.args| && (!Staged(t.g.params[i]) || InMode(t.g.params[i]))
    ensures CopyBack(t.g, i) == [] && Row(t, 11, i) == Row(t, 10, i)
    ensures Staged(t.g.params[i]) ==> !ClashAt(t, i)
  {
  }

  predicate CopyClash(t: Site, i: nat)
    requires |t.g.params| == |t.args|
  {
    exists j :: i <= j < |t.g.params| && Staged(t.g.params[j]) && ClashAt(t, j)
  }

  lemma CopyClashStep(t: Site, i: nat)
    requires i < |t.g.params| == |t.args|
    ensures CopyClash(t, i) <==> (Staged(t.g.params[i]) && ClashAt(t, i)) || CopyClash(t, i + 1)
  {
  }

  lemma CopyOne(t: Site, s: State, i: nat) returns (s': State)
    requires Legal(t) && Roomy(t) && LensOk(t, s) && Between(t, s, 10, i) && i < |t.args|
    requires s.ierror == Answer(t).ierror
    ensures Run(t, CopyBack(t.g, i), Go(s)) == Go(s')
    ensures SlotsAndClash(s, Go(s'), Staged(t.g.params[i]) && ClashAt(t, i)) && Between(t, s', 10, i + 1)
  {
    NextBetween(t, s, 10, i);
    if Staged(t.g.params[i]) && !InMode(t.g.params[i]) {
      CopyRun(t, s, i);
      CopyRows(t, i);
      var s1 := s.(slots := s.slots[i := Row(t, 11, i)]);
      s' := s1.(clashed := s.clashed || ClashAt(t, i));
      SlotsBetween(t, s1, s', 10, i + 1);
    } else {
      CopyNothing(t, i);
      assert Is(t, s, 11, i);
      SameBetween(t, s, 10, i);
      s' := s;
    }
  }

  lemma {:induction false} CopyBacksAll(t: Site, s: State, i: nat) returns (f: Flow)
    requires Legal(t) && Roomy(t) && LensOk(t, s) && Between(t, s, 10, i) && i <= |t.args|
    requires s.ierror == Answer(t).ierror
    ensures f == Run(t, CopyBacks(t.g, i), Go(s))
    ensures SlotsAndClash(s, f, CopyClash(t, i)) && InStage(t, f.s, 11, 0, |t.args|)
    decreases |t.args| - i
  {
    if i == |t.args| {
      f := Go(s);
    } else {
      var s' := CopyOne(t, s, i);
      SameLens(t, s, s');
      f := CopyBacksAll(t, s', i + 1);
      Chain(t, CopyBacks(t.g, i), CopyBack(t.g, i), CopyBacks(t.g, i + 1), s, Go(s'));
      CopyClashStep(t, i);
    }
  }

  function MapOf(g: Signature, i: nat): seq<Stmt>
    requires i < |g.params|
  {
    if g.params[i].MapOut? then [MapOnSuccess(i, g.params[i].fam, g.params[i].ext)] else []
  }

  lemma MapShape(t: Site, i: nat)
    requires Given(t) && i < |t.args| && t.g.params[i].MapOut?
    ensures OutOf(t, i).A? && |OutOf(t, i).a| >= Max(0, LenOf(t, t.g.params[i].ext.alloc))
    ensures Row(t, 11, i) == Slot(OutOf(t, i), Ptr, Undeclared)
    ensures Row(t, 12, i) == Slot(After(t, i), Ptr, Undeclared)
  {
    assert ArgOk(t, i);
    OutShape(t, i);
  }

  lemma MapRun(t: Site, s: State, i: nat)
    requires Legal(t) && LensOk(t, s) && Between(t, s, 11, i) && i < |t.args| && t.g.params[i].MapOut?
    requires s.ierror == Answer(t).ierror
    ensures Run(t, MapOf(t.g, i), Go(s)) == Go(s.(slots := s.slots[i := Row(t, 12, i)]))
  {
    MapShape(t, i);
    BackNow(t, s, 11, i, i);
    assert Is(t, s, 11, i);
    One(t, MapOf(t.g, i)[0], s);
    if s.ierror != 0 { assert s.slots[i := Row(t, 12, i)] == s.slots; }
  }

  lemma MapOne(t: Site, s: State, i: nat)
    requires Legal(t) && LensOk(t, s) && Between(t, s, 11, i) && Is(t, s, 11, i) && s.ierror == Answer(t).ierror
    ensures Run(t, MapOf(t.g, i), Go(s)) == Go(s.(slots := s.slots[i := Row(t, 12, i)]))
  {
    if t.g.params[i].MapOut? {
      MapRun(t, s, i);
    } else {
      MapNothing(t, i);
      assert s.slots[i := Row(t, 12, i)] == s.slots;
    }
  }

  lemma MapNothing(t: Site, i: nat)
    requires i < |t.g.params| == |t.args| && !t.g.params[i].MapOut?
    ensures Row(t, 12, i) == Row(t, 11, i)
  {
  }

  lemma {:induction false} MapsAll(t: Site, s: State, i: nat) returns (f: Flow)
    requires Legal(t) && LensOk(t, s) && Between(t, s, 11, i) && i <= |t.args| && s.ierror == Answer(t).ierror
    ensures f == Run(t, Maps(t.g, i), Go(s))
    ensures SlotsOnly(s, f) && InStage(t, f.s, 12, 0, |t.args|)
    decreases |t.args| - i
  {
    if i == |t.args| {
      f := Go(s);
    } else {
      NextBetween(t, s, 11, i);
      var s' := s.(slots := s.slots[i := Row(t, 12, i)]);
      MapOne(t, s, i);
      SameLens(t, s, s');
      f := MapsAll(t, s', i + 1);
      Chain(t, Maps(t.g, i), MapOf(t.g, i), Maps(t.g, i + 1), s, Go(s'));
    }
  }
}
