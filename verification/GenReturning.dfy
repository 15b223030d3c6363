/** After the call: storing the answers and releasing the staged blocks of requests the call nulled.
  *
  * The releases come after the scalar answers are stored and before any array is copied back: the caller's array still
  * holds the handles as they were before the call, and those are what the blocks are keyed on.  A scalar request keeps
  * its value before the call in a local of its own.
  */
module GenReturning {
  import opened GenIR
  import opened GenEmit
  import opened GenSpec
  import opened GenRows
  import opened GenPre
  import opened GenStaging
  import opened GenCalling

  // ---------------------------------------------------------------- scalars

  lemma PostRows(t: Site, i: nat)
    requires Given(t) && i < |t.args| && Posted(t.g.params[i])
    ensures Row(t, 10, i) == Row(t, 9, i).(abi := After(t, i))
    ensures Row(t, 9, i).abi == Before(t, i)
    ensures (t.args[i] == Absent) <==> (Before(t, i) == Absent)
    ensures t.args[i] != Absent ==> t.args[i].I? && Before(t, i).I?
    ensures t.args[i] == Absent ==>
      After(t, i) == Absent && !ClashAt(t, i) && (t.g.nullable || t.g.params[i].StatusOut?)
    ensures t.args[i] != Absent && !t.g.params[i].LargeZero? ==> Row(t, 9, i).x == OutOf(t, i) && OutOf(t, i).I?
  {
    assert ArgOk(t, i);
    if !t.g.params[i].LargeZero? { OutShape(t, i); }
  }

  function Stored(t: Site, s: State, i: nat): Flow
    requires i < |s.slots| && i < |t.g.params| == |t.args|
  {
    Go(s.(slots := s.slots[i := Row(t, 10, i)], clashed := s.clashed || ClashAt(t, i)))
  }

  lemma PostHandle(t: Site, s: State, i: nat)
    requires Legal(t) && Is(t, s, 9, i) && t.g.params[i].HandleOut? && s.ierror == Answer(t).ierror
    ensures Run(t, Post(t.g, i), Go(s)) == Stored(t, s, i)
  {
    PostRows(t, i);
    One(t, Post(t.g, i)[0], s);
    if t.args[i] == Absent { assert s.slots[i := Row(t, 10, i)] == s.slots; }
  }

  /** `*abi_x = toabi(x);`, where there is an object to write to. */
  lemma StoreRun(t: Site, s: State, i: nat, fam: Family)
    requires Means(t) && i < |s.slots|
    requires (s.slots[i].abi == Absent && t.g.nullable) || (s.slots[i].abi.I? && s.slots[i].x.I?)
    ensures Run(t, [Store(i, fam)], Go(s)) ==
      if s.slots[i].abi == Absent then Go(s)
      else Go(SetAbi(s.(clashed := s.clashed || Clash(t.w, fam, s.slots[i].x.i)), i, I(To(t.w, fam, s.slots[i].x.i))))
  {
    One(t, Store(i, fam), s);
  }

  predicate StoredClass(c: Class) {
    c.ScalarOut? || c.Inout? || c.NarrowInout?
  }

  function StoreFamily(c: Class): Family
    requires StoredClass(c)
  {
    match c
    case ScalarOut(fam, _) => fam
    case Inout(fam) => fam
    case _ => IDENTITY
  }

  lemma StoredAfter(t: Site, i: nat)
    requires Given(t) && i < |t.args| && StoredClass(t.g.params[i])
    ensures var fam, out := StoreFamily(t.g.params[i]), OutOf(t, i);
      && Post(t.g, i) == [Store(i, fam)]
      && (t.args[i] == Absent ==> t.g.nullable)
      && (t.args[i] != Absent ==> out.I? && After(t, i) == I(To(t.w, fam, out.i))
                                     && ClashAt(t, i) == Clash(t.w, fam, out.i))
  {
    assert ArgOk(t, i);
    PostRows(t, i);
  }

  lemma PostStore(t: Site, s: State, i: nat)
    requires Legal(t) && Is(t, s, 9, i) && s.ierror == Answer(t).ierror && StoredClass(t.g.params[i])
    ensures Run(t, Post(t.g, i), Go(s)) == Stored(t, s, i)
  {
    PostRows(t, i);
    StoredAfter(t, i);
    StoreRun(t, s, i, StoreFamily(t.g.params[i]));
    if t.args[i] == Absent { assert s.slots[i := Row(t, 10, i)] == s.slots; }
  }

  lemma PostOther(t: Site, s: State, i: nat)
    requires Legal(t) && Is(t, s, 9, i) && s.ierror == Answer(t).ierror
    requires t.g.params[i].LargeZero? || t.g.params[i].StatusOut?
    ensures Run(t, Post(t.g, i), Go(s)) == Stored(t, s, i)
  {
    PostRows(t, i);
    One(t, Post(t.g, i)[0], s);
    if t.args[i] == Absent { assert s.slots[i := Row(t, 10, i)] == s.slots; }
  }

  lemma PostRun(t: Site, s: State, i: nat)
    requires Legal(t) && Is(t, s, 9, i) && Posted(t.g.params[i]) && s.ierror == Answer(t).ierror
    ensures Run(t, Post(t.g, i), Go(s)) == Stored(t, s, i)
  {
    var c := t.g.params[i];
    if c.HandleOut? { PostHandle(t, s, i); }
    else if c.LargeZero? || c.StatusOut? { PostOther(t, s, i); }
    else { PostStore(t, s, i); }
  }

  lemma PostNothing(t: Site, i: nat)
    requires i < |t.g.params| == |t.args| && !Posted(t.g.params[i])
    ensures Post(t.g, i) == [] && Row(t, 10, i) == Row(t, 9, i)
  {
  }

  predicate PostClash(t: Site, i: nat)
    requires |t.g.params| == |t.args|
  {
    exists j :: i <= j < |t.g.params| && Posted(t.g.params[j]) && ClashAt(t, j)
  }

  lemma PostClashStep(t: Site, i: nat)
    requires i < |t.g.params| == |t.args|
    ensures PostClash(t, i) <==> (Posted(t.g.params[i]) && ClashAt(t, i)) || PostClash(t, i + 1)
  {
  }

  /** Slots and the thread's handle error. */
  predicate SlotsAndClash(s: State, f: Flow, b: bool) {
    f.Go? && f.s == s.(slots := f.s.slots, clashed := s.clashed || b)
  }

  lemma PostOne(t: Site, s: State, i: nat) returns (s': State)
    requires Legal(t) && Between(t, s, 9, i) && i < |t.args| && s.ierror == Answer(t).ierror
    ensures Run(t, Post(t.g, i), Go(s)) == Go(s')
    ensures SlotsAndClash(s, Go(s'), Posted(t.g.params[i]) && ClashAt(t, i)) && Between(t, s', 9, i + 1)
  {
    NextBetween(t, s, 9, i);
    if Posted(t.g.params[i]) {
      PostRun(t, s, i);
      var s1 := s.(slots := s.slots[i := Row(t, 10, i)]);
      s' := s1.(clashed := s.clashed || ClashAt(t, i));
      SlotsBetween(t, s1, s', 9, i + 1);
    } else {
      PostNothing(t, i);
      assert Is(t, s, 10, i);
      SameBetween(t, s, 9, i);
      s' := s;
    }
  }

  lemma {:induction false} PostsAll(t: Site, s: State, i: nat) returns (f: Flow)
    requires Legal(t) && Between(t, s, 9, i) && i <= |t.args| && s.ierror == Answer(t).ierror
    ensures f == Run(t, Posts(t.g, i), Go(s))
    ensures SlotsAndClash(s, f, PostClash(t, i)) && InStage(t, f.s, 10, 0, |t.args|)
    decreases |t.args| - i
  {
    if i == |t.args| {
      f := Go(s);
    } else {
      var s' := PostOne(t, s, i);
      f := PostsAll(t, s', i + 1);
      Chain(t, Posts(t.g, i), Post(t.g, i), Posts(t.g, i + 1), s, Go(s'));
      PostClashStep(t, i);
    }
  }

  // ---------------------------------------------------------------- staged blocks of nulled requests

  lemma StagedOut(t: Site, i: nat)
    requires Given(t) && i < |t.args| && Staged(t.g.params[i]) && Roomy(t) && !Skipped(t, i)
    ensures OutOf(t, i).A?
    ensures !InMode(t.g.params[i]) ==>
      |OutOf(t, i).a| == LenOf(t, t.g.params[i].ext.alloc) && HoldsAtLeast(t.args[i], |OutOf(t, i).a|)
  {
    assert ArgOk(t, i);
    StagedRows(t, i);
    OutShape(t, i);
  }

  function ArrayReleaseOf(g: Signature, i: nat): seq<Stmt>
    requires i < |g.params|
  {
    if g.params[i].StageInout? then [ReleaseEach(i, g.params[i].ext.alloc)] else []
  }

  function ArrayReleasedOf(t: Site, i: nat): seq<int>
    requires i < |t.g.params| == |t.args|
  {
    var c, v, out := t.g.params[i], t.args[i], OutOf(t, i);
    if c.StageInout? && v.A? && out.A? && |out.a| <= |v.a| then Nulled(t.w, v.a, out.a) else []
  }

  /** The state after releasing the blocks of `a`, if the table holds any block at all. */
  function Freed(t: Site, s: State, a: seq<int>): State {
    if t.w.anyStaged then s.(released := s.released + a) else s
  }

  lemma FreedTwice(t: Site, s: State, a: seq<int>, b: seq<int>)
    ensures Freed(t, Freed(t, s, a), b) == Freed(t, s, a + b)
  {
    assert s.released + a + b == s.released + (a + b);
  }

  lemma FreedNone(t: Site, s: State)
    ensures Freed(t, s, []) == s
  {
    assert s.released + [] == s.released;
  }

  lemma ArrayReleaseOne(t: Site, s: State, i: nat)
    requires Legal(t) && Roomy(t) && LensOk(t, s) && InStage(t, s, 10, 0, |t.args|) && i < |t.args|
    ensures Run(t, ArrayReleaseOf(t.g, i), Go(s)) ==
      Go(Freed(t, s, ArrayReleasedOf(t, i)))
  {
    if t.g.params[i].StageInout? {
      assert Is(t, s, 10, i);
      StagedOut(t, i);
      StagedRow10(t, i);
      LengthNow(t, s, 10, 0, i);
      ReleaseEachRun(t, s, i);
    } else {
      FreedNone(t, s);
    }
  }

  lemma StagedRow10(t: Site, i: nat)
    requires i < |t.g.params| == |t.args| && Staged(t.g.params[i]) && !Skipped(t, i)
    ensures Row(t, 10, i).x == OutOf(t, i) && Row(t, 10, i).abi == t.args[i]
    ensures MaySkip(t.g, t.g.params[i]) ==> Row(t, 10, i).aux == Flag(t.args[i] == Absent)
  {
  }

  lemma ReleaseEachRun(t: Site, s: State, i: nat)
    requires Means(t) && Sized0(t, s) && i < |s.slots| && t.g.params[i].StageInout?
    requires s.slots[i].x == OutOf(t, i) && s.slots[i].abi == t.args[i] && OutOf(t, i).A?
    requires HoldsAtLeast(t.args[i], |OutOf(t, i).a|) && LenVal(s, t.g.params[i].ext.alloc) == I(|OutOf(t, i).a|)
    ensures Run(t, ArrayReleaseOf(t.g, i), Go(s)) == Go(Freed(t, s, ArrayReleasedOf(t, i)))
  {
    One(t, ReleaseEach(i, t.g.params[i].ext.alloc), s);
  }

  lemma ArrayReleasesNext(t: Site, s: State, i: nat)
    requires Legal(t) && Roomy(t) && LensOk(t, s) && InStage(t, s, 10, 0, |t.args|) && i < |t.args|
    ensures var s' := Freed(t, s, ArrayReleasedOf(t, i));
      && Run(t, ArrayReleases(t.g, i), Go(s)) == Run(t, ArrayReleases(t.g, i + 1), Go(s'))
      && LensOk(t, s') && InStage(t, s', 10, 0, |t.args|)
  {
    ArrayReleaseOne(t, s, i);
    var s' := Freed(t, s, ArrayReleasedOf(t, i));
    StageSlots(t, s, s', 10, 0, |t.args|);
    SameLens(t, s, s');
    Chain(t, ArrayReleases(t.g, i), ArrayReleaseOf(t.g, i), ArrayReleases(t.g, i + 1), s, Go(s'));
  }

  lemma {:induction false} ArrayReleasesAll(t: Site, s: State, i: nat)
    requires Legal(t) && Roomy(t) && LensOk(t, s) && InStage(t, s, 10, 0, |t.args|) && i <= |t.args|
    ensures Run(t, ArrayReleases(t.g, i), Go(s)) == Go(Freed(t, s, ArrayReleased(t, i)))
    decreases |t.args| - i
  {
    if i == |t.args| {
      FreedNone(t, s);
    } else {
      var s' := Freed(t, s, ArrayReleasedOf(t, i));
      ArrayReleasesNext(t, s, i);
      ArrayReleasesAll(t, s', i + 1);
      FreedTwice(t, s, ArrayReleasedOf(t, i), ArrayReleased(t, i + 1));
    }
  }

  function ScalarReleaseOf(g: Signature, i: nat): seq<Stmt>
    requires i < |g.params|
  {
    if g.params[i] == Inout(REQUEST) then [ReleaseOne(i)] else []
  }

  function ScalarReleasedOf(t: Site, i: nat): seq<int>
    requires i < |t.g.params| == |t.args|
  {
    var before := From(t.w, REQUEST, Whole(t.args[i]));
    if t.g.params[i] == Inout(REQUEST) && OutOf(t, i) == I(t.w.implNull(REQUEST)) && before != t.w.implNull(REQUEST)
    then [before] else []
  }

  lemma ScalarReleaseOne(t: Site, s: State, i: nat)
    requires Legal(t) && Is(t, s, 10, i)
    ensures Run(t, ScalarReleaseOf(t.g, i), Go(s)) ==
      Go(Freed(t, s, ScalarReleasedOf(t, i)))
  {
    if t.g.params[i] == Inout(REQUEST) {
      assert ArgOk(t, i);
      OutShape(t, i);
      One(t, ReleaseOne(i), s);
    }
    FreedNone(t, s);
  }

  lemma ScalarReleasesNext(t: Site, s: State, i: nat)
    requires Legal(t) && InStage(t, s, 10, 0, |t.args|) && i < |t.args|
    ensures var s' := Freed(t, s, ScalarReleasedOf(t, i));
      && Run(t, ScalarReleases(t.g, i), Go(s)) == Run(t, ScalarReleases(t.g, i + 1), Go(s'))
      && InStage(t, s', 10, 0, |t.args|)
  {
    assert Is(t, s, 10, i);
    ScalarReleaseOne(t, s, i);
    var s' := Freed(t, s, ScalarReleasedOf(t, i));
    StageSlots(t, s, s', 10, 0, |t.args|);
    Chain(t, ScalarReleases(t.g, i), ScalarReleaseOf(t.g, i), ScalarReleases(t.g, i + 1), s, Go(s'));
  }

  lemma {:induction false} ScalarReleasesAll(t: Site, s: State, i: nat)
    requires Legal(t) && InStage(t, s, 10, 0, |t.args|) && i <= |t.args|
    ensures Run(t, ScalarReleases(t.g, i), Go(s)) == Go(Freed(t, s, ScalarReleased(t, i)))
    decreases |t.args| - i
  {
    if i == |t.args| {
      FreedNone(t, s);
    } else {
      var s' := Freed(t, s, ScalarReleasedOf(t, i));
      ScalarReleasesNext(t, s, i);
      ScalarReleasesAll(t, s', i + 1);
      FreedTwice(t, s, ScalarReleasedOf(t, i), ScalarReleased(t, i + 1));
    }
  }

  lemma ReleasesRun(t: Site, s: State) returns (f: Flow)
    requires Legal(t) && !Outlives(t.g) && Roomy(t) && LensOk(t, s) && InStage(t, s, 10, 0, |t.args|)
    ensures f == Run(t, ArrayReleases(t.g, 0) + ScalarReleases(t.g, 0), Go(s))
    ensures f == Go(s.(released := s.released + Released(t)))
  {
    var s1 := Freed(t, s, ArrayReleased(t, 0));
    ArrayReleasesAll(t, s, 0);
    StageSlots(t, s, s1, 10, 0, |t.args|);
    ScalarReleasesAll(t, s1, 0);
    f := Go(Freed(t, s1, ScalarReleased(t, 0)));
    Chain(t, ArrayReleases(t.g, 0) + ScalarReleases(t.g, 0), ArrayReleases(t.g, 0), ScalarReleases(t.g, 0), s, Go(s1));
    FreedTwice(t, s, ArrayReleased(t, 0), ScalarReleased(t, 0));
    assert s.released + Released(t) == Freed(t, s, ArrayReleased(t, 0) + ScalarReleased(t, 0)).released;
  }
}
