/** The call itself: what the implementation is given, and where its answers land.
  *
  * Parameters differ in what they pass -- a value, the address of a local, a temporary, the caller's own pointer -- and
  * in whether they pass anything, so the answers are matched to parameters by how many arguments come before.
  * `ArgsImages` has the way in, and `CallRun` the way back: each answer lands behind its own pointer and nowhere else.
  */
module GenCalling {
  import opened GenIR
  import opened GenEmit
  import opened GenSpec
  import opened GenRows
  import opened GenPre
  import opened GenStaging

  // ---------------------------------------------------------------- out locals

  lemma OutLocalOne(t: Site, s: State, i: nat)
    requires Legal(t) && Sized0(t, s) && i < |s.slots| && Is(t, s, 7, i)
    ensures Run(t, OutLocal(t.g, t.w, i), Go(s)) == Go(s.(slots := s.slots[i := Row(t, 8, i)]))
  {
    var b := OutLocal(t.g, t.w, i);
    if b == [] {
      assert Row(t, 8, i) == Row(t, 7, i);
      assert s.slots[i := Row(t, 8, i)] == s.slots;
    } else {
      assert b == [b[0]];
      One(t, b[0], s);
    }
  }

  lemma {:induction false} OutLocalsAll(t: Site, s: State, i: nat) returns (f: Flow)
    requires Legal(t) && Between(t, s, 7, i) && i <= |s.slots|
    ensures f == Run(t, OutLocals(t.g, t.w, i), Go(s))
    ensures SlotsOnly(s, f) && Between(t, f.s, 7, |s.slots|)
    decreases |s.slots| - i
  {
    if i == |s.slots| {
      f := Go(s);
    } else {
      NextBetween(t, s, 7, i);
      OutLocalOne(t, s, i);
      var s' := s.(slots := s.slots[i := Row(t, 8, i)]);
      f := OutLocalsAll(t, s', i + 1);
      Chain(t, OutLocals(t.g, t.w, i), OutLocal(t.g, t.w, i), OutLocals(t.g, t.w, i + 1), s, Go(s'));
    }
  }

  // ---------------------------------------------------------------- the arguments

  lemma ProbedKnown(t: Site, s: State, id: nat)
    requires LensOk(t, s) && Probed(t.g, id)
    ensures LenVal(s, OfProbe(id)) == I(t.w.probeLen(id))
  {
    var j :| 0 <= j < |t.g.params| && Sized(t.g.params[j]) && t.g.params[j].ext.alloc == OfProbe(id);
    assert KnownFor(t, s, j) && Known(t, s, id);
  }

  predicate ByValue(c: Class) {
    c.In? || c.Buffer? || c.Narrow? || c.Subst?
  }

  predicate ByObject(c: Class) {
    c.PassPtr? || c.MapOut? || c.NarrowInout? || c.Inout?
  }

  predicate ByLocal(c: Class) {
    c.HandleOut? || c.ScalarOut? || c.StatusOut?
  }

  /** The argument passed for parameter i is its image. */
  predicate Faithful(t: Site, s: State, i: nat)
    requires i < |t.g.params| == |t.args|
  {
    |ArgOf(t.g, i)| == |Image(t, i)|
    && (ArgOf(t.g, i) != [] ==> Pass(s, ArgOf(t.g, i)[0]) == Image(t, i)[0] && Image(t, i)[0] != Undeclared)
  }

  lemma ArgByValue(t: Site, s: State, i: nat)
    requires Given(t) && LensOk(t, s) && Is(t, s, 8, i) && ByValue(t.g.params[i])
    ensures Faithful(t, s, i)
  {
    assert ArgOk(t, i) && ParamOk(t.g, i);
    var c := t.g.params[i];
    if c.Subst? { ProbedKnown(t, s, c.id); }
    if c.Narrow? && c.sub { ProbedKnown(t, s, c.probe); }
  }

  lemma ArgByObject(t: Site, s: State, i: nat)
    requires Given(t) && Is(t, s, 8, i) && ByObject(t.g.params[i])
    ensures Faithful(t, s, i)
  {
    assert ArgOk(t, i);
  }

  lemma ArgByLocal(t: Site, s: State, i: nat)
    requires Given(t) && Is(t, s, 8, i) && ByLocal(t.g.params[i])
    ensures Faithful(t, s, i)
  {
    assert ArgOk(t, i);
  }

  lemma ArgStaged(t: Site, s: State, i: nat)
    requires Given(t) && Is(t, s, 8, i) && Staged(t.g.params[i])
    ensures Faithful(t, s, i)
  {
    assert ArgOk(t, i);
    StagedRows(t, i);
  }

  /** The slot of a staged array around the call. */
  lemma StagedRows(t: Site, i: nat)
    requires i < |t.g.params| == |t.args| && Staged(t.g.params[i])
    ensures Row(t, 8, i).x == Temporary(t, i)
    ensures Image(t, i) == [Temporary(t, i)]
    ensures Skipped(t, i) <==> Temporary(t, i) == Absent
    ensures !Skipped(t, i) ==> Temporary(t, i).A?
    ensures MaySkip(t.g, t.g.params[i]) ==> Row(t, 8, i).aux == Flag(t.args[i] == Absent)
    ensures Row(t, 9, i) == if Skipped(t, i) then Row(t, 8, i) else Row(t, 8, i).(x := OutOf(t, i))
  {
  }

  /** The implementation is given the image of the caller's argument. */
  lemma ArgImage(t: Site, s: State, i: nat)
    requires Given(t) && LensOk(t, s) && Is(t, s, 8, i)
    ensures Faithful(t, s, i)
  {
    var c := t.g.params[i];
    if ByValue(c) { ArgByValue(t, s, i); }
    else if ByObject(c) { ArgByObject(t, s, i); }
    else if ByLocal(c) { ArgByLocal(t, s, i); }
    else if Staged(c) { ArgStaged(t, s, i); }
  }

  lemma PassConcat(s: State, a: seq<Arg>, b: seq<Arg>)
    ensures PassAll(s, a + b) == PassAll(s, a) + PassAll(s, b)
  {
  }

  lemma FaithfulAll(t: Site, s: State, i: nat)
    requires i < |t.g.params| == |t.args| && Faithful(t, s, i)
    ensures PassAll(s, ArgOf(t.g, i)) == Image(t, i) && Undeclared !in Image(t, i)
  {
  }

  lemma ArgsStep(t: Site, s: State, i: nat)
    requires i < |t.g.params| == |t.args|
    requires PassAll(s, ArgOf(t.g, i)) == Image(t, i) && PassAll(s, Args(t.g, i + 1)) == Images(t, i + 1)
    requires Undeclared !in Image(t, i) && Undeclared !in Images(t, i + 1)
    ensures PassAll(s, Args(t.g, i)) == Images(t, i) && Undeclared !in Images(t, i)
  {
    ArgShape(t, i);
    PassConcat(s, ArgOf(t.g, i), Args(t.g, i + 1));
  }

  lemma ArgPassed(t: Site, s: State, i: nat)
    requires Given(t) && LensOk(t, s) && InStage(t, s, 8, 0, |t.args|) && i < |t.args|
    ensures PassAll(s, ArgOf(t.g, i)) == Image(t, i) && Undeclared !in Image(t, i)
  {
    assert Is(t, s, 8, i);
    ArgImage(t, s, i);
    FaithfulAll(t, s, i);
  }

  lemma {:induction false} ArgsImages(t: Site, s: State, i: nat)
    requires Given(t) && LensOk(t, s) && InStage(t, s, 8, 0, |t.args|) && i <= |t.args|
    ensures PassAll(s, Args(t.g, i)) == Images(t, i)
    ensures Undeclared !in Images(t, i)
    decreases |t.args| - i
  {
    if i < |t.args| {
      ArgPassed(t, s, i);
      ArgsImages(t, s, i + 1);
      ArgsStep(t, s, i);
    }
  }

  // ---------------------------------------------------------------- the answers

  /** The position of parameter i among the arguments. */
  function Place(t: Site, i: nat): int
    requires i <= |t.g.params| == |t.args|
  {
    |Images(t, 0)| - |Images(t, i)|
  }

  lemma {:induction false} ImagesSuffix(t: Site, i: nat)
    requires i <= |t.g.params| == |t.args|
    ensures 0 <= Place(t, i)
    ensures Images(t, 0)[Place(t, i)..] == Images(t, i)
    decreases i
  {
    if i > 0 {
      ImagesSuffix(t, i - 1);
      assert Images(t, i - 1) == Image(t, i - 1) + Images(t, i);
      assert Images(t, 0)[Place(t, i)..] == Images(t, 0)[Place(t, i - 1)..][|Image(t, i - 1)|..];
    }
  }

  lemma AnswerLength(t: Site)
    requires Given(t)
    ensures |Answer(t).out| == |Images(t, 0)|
  {
    assert Answers(t.w, Images(t, 0));
  }

  /** What comes back through a pointer has the type of the object behind it. */
  lemma OutShape(t: Site, i: nat)
    requires Given(t) && i < |t.args| && Image(t, i) != []
    ensures 0 <= Place(t, i) < |Answer(t).out| && OutOf(t, i) == Answer(t).out[Place(t, i)]
    ensures SameShape(Image(t, i)[0], OutOf(t, i))
  {
    ImagesSuffix(t, i);
    assert Images(t, i) == Image(t, i) + Images(t, i + 1);
    var k := Place(t, i);
    assert Images(t, 0)[k] == Images(t, 0)[k..][0] == Image(t, i)[0];
    assert Answers(t.w, Images(t, 0));
  }

  /** An answer lands behind the pointer that was passed, and nowhere else. */
  predicate Lands(t: Site, s: State, i: nat)
    requires i < |t.g.params| == |t.args| && i < |s.slots|
  {
    if ArgOf(t.g, i) == [] then Row(t, 9, i) == Row(t, 8, i)
    else Written(s, ArgOf(t.g, i)[0], OutOf(t, i)) == s.(slots := s.slots[i := Row(t, 9, i)])
  }

  lemma LandByValue(t: Site, s: State, i: nat)
    requires Given(t) && Is(t, s, 8, i)
    requires ByValue(t.g.params[i]) || t.g.params[i].LargeZero? || t.g.params[i].LargeVoid?
    ensures Lands(t, s, i)
  {
    assert Row(t, 9, i) == Row(t, 8, i);
    assert s.slots[i := Row(t, 9, i)] == s.slots;
  }

  lemma LandByObject(t: Site, s: State, i: nat)
    requires Given(t) && Is(t, s, 8, i) && ByObject(t.g.params[i])
    ensures Lands(t, s, i)
  {
    assert ArgOk(t, i);
    assert Row(t, 9, i) == s.slots[i] ==> s.slots[i := Row(t, 9, i)] == s.slots;
  }

  lemma LandByLocal(t: Site, s: State, i: nat)
    requires Given(t) && Is(t, s, 8, i) && ByLocal(t.g.params[i])
    ensures Lands(t, s, i)
  {
    assert ArgOk(t, i);
    assert Row(t, 9, i) == s.slots[i] ==> s.slots[i := Row(t, 9, i)] == s.slots;
  }

  lemma LandStaged(t: Site, s: State, i: nat)
    requires Given(t) && Is(t, s, 8, i) && Staged(t.g.params[i])
    ensures Lands(t, s, i)
  {
    assert ArgOk(t, i);
    StagedRows(t, i);
    assert Skipped(t, i) ==> s.slots[i := Row(t, 9, i)] == s.slots;
  }

  lemma WriteOne(t: Site, s: State, i: nat)
    requires Given(t) && Is(t, s, 8, i)
    ensures Lands(t, s, i)
  {
    var c := t.g.params[i];
    if ByObject(c) { LandByObject(t, s, i); }
    else if ByLocal(c) { LandByLocal(t, s, i); }
    else if Staged(c) { LandStaged(t, s, i); }
    else { LandByValue(t, s, i); }
  }

  /** The answers for parameters i.. */
  function Rest(t: Site, i: nat): seq<Val>
    requires i <= |t.g.params| == |t.args| && 0 <= Place(t, i) <= |Answer(t).out|
  {
    Answer(t).out[Place(t, i)..]
  }

  lemma RestStep(t: Site, i: nat)
    requires Given(t) && i < |t.args|
    ensures 0 <= Place(t, i) <= |Answer(t).out| && 0 <= Place(t, i + 1) <= |Answer(t).out|
    ensures |Rest(t, i)| == |Args(t.g, i)|
    ensures Image(t, i) == [] ==> Rest(t, i + 1) == Rest(t, i)
    ensures Image(t, i) != [] ==> Rest(t, i)[0] == OutOf(t, i) && Rest(t, i)[1..] == Rest(t, i + 1)
  {
    AnswerLength(t);
    ImagesSuffix(t, i);
    ImagesSuffix(t, i + 1);
    ArgShape(t, i);
    ArgsLength(t, i);
    if Image(t, i) != [] { OutShape(t, i); }
  }

  lemma {:induction false} ArgsLength(t: Site, i: nat)
    requires i <= |t.g.params| == |t.args|
    ensures |Args(t.g, i)| == |Images(t, i)|
    decreases |t.args| - i
  {
    if i < |t.args| {
      ArgShape(t, i);
      ArgsLength(t, i + 1);
    }
  }

  lemma ArgShape(t: Site, i: nat)
    requires i < |t.g.params| == |t.args|
    ensures |ArgOf(t.g, i)| == |Image(t, i)| <= 1
    ensures Args(t.g, i) == ArgOf(t.g, i) + Args(t.g, i + 1)
    ensures Images(t, i) == Image(t, i) + Images(t, i + 1)
  {
  }

  /** Nothing is passed for parameter i, and nothing lands. */
  lemma WriteNothing(t: Site, s: State, i: nat)
    requires Given(t) && Between(t, s, 8, i) && i < |t.args| && ArgOf(t.g, i) == []
    requires 0 <= Place(t, i) <= |Answer(t).out| && |Rest(t, i)| == |Args(t.g, i)|
    ensures Between(t, s, 8, i + 1)
    ensures 0 <= Place(t, i + 1) <= |Answer(t).out|
    ensures Args(t.g, i + 1) == Args(t.g, i) && Rest(t, i + 1) == Rest(t, i)
  {
    NextBetween(t, s, 8, i);
    WriteOne(t, s, i);
    RestStep(t, i);
    ArgShape(t, i);
    SameBetween(t, s, 8, i);
  }

  lemma WriteSomething(t: Site, s: State, i: nat) returns (s': State)
    requires Given(t) && Between(t, s, 8, i) && i < |t.args| && ArgOf(t.g, i) != []
    ensures s' == Written(s, ArgOf(t.g, i)[0], OutOf(t, i))
    ensures SlotsOnly(s, Go(s')) && Between(t, s', 8, i + 1)
  {
    NextBetween(t, s, 8, i);
    WriteOne(t, s, i);
    s' := s.(slots := s.slots[i := Row(t, 9, i)]);
  }

  lemma WriteStep(t: Site, s: State, i: nat) returns (s': State)
    requires Given(t) && Between(t, s, 8, i) && i < |t.args|
    requires 0 <= Place(t, i) <= |Answer(t).out| && |Rest(t, i)| == |Args(t.g, i)|
    ensures SlotsOnly(s, Go(s')) && Between(t, s', 8, i + 1)
    ensures 0 <= Place(t, i + 1) <= |Answer(t).out| && |Rest(t, i + 1)| == |Args(t.g, i + 1)|
    ensures WriteAll(s, Args(t.g, i), Rest(t, i)) == WriteAll(s', Args(t.g, i + 1), Rest(t, i + 1))
  {
    if ArgOf(t.g, i) == [] {
      WriteNothing(t, s, i);
      s' := s;
    } else {
      s' := WriteSomething(t, s, i);
      RestStep(t, i);
      ArgShape(t, i);
      assert Args(t.g, i)[0] == ArgOf(t.g, i)[0] && Args(t.g, i)[1..] == Args(t.g, i + 1);
      WriteCons(s, Args(t.g, i), Rest(t, i));
    }
  }

  lemma {:induction false} WritesAll(t: Site, s: State, i: nat) returns (s': State)
    requires Given(t) && Between(t, s, 8, i) && i <= |t.args|
    requires 0 <= Place(t, i) <= |Answer(t).out| && |Rest(t, i)| == |Args(t.g, i)|
    ensures s' == WriteAll(s, Args(t.g, i), Rest(t, i))
    ensures SlotsOnly(s, Go(s')) && Between(t, s', 8, |t.args|)
    decreases |t.args| - i
  {
    if i == |t.args| {
      s' := s;
    } else {
      var s1 := WriteStep(t, s, i);
      s' := WritesAll(t, s1, i + 1);
    }
  }

  lemma CallOnce(t: Site, s: State, args: seq<Arg>, vals: seq<Val>)
    requires Means(t) && vals == PassAll(s, args) && Undeclared !in vals && |args| <= |t.w.impl(vals).out|
    ensures Run(t, [Call(args)], Go(s)) ==
      Go(WriteAll(s.(calls := s.calls + [vals], ierror := t.w.impl(vals).ierror), args, t.w.impl(vals).out))
  {
    One(t, Call(args), s);
    CallIs(t.w, t.g.nullable, args, s);
    CallDoes(t.w, args, s, vals);
  }

  lemma CallStep(t: Site, s: State)
    requires Legal(t) && LensOk(t, s) && InStage(t, s, 8, 0, |t.args|)
    ensures |Args(t.g, 0)| == |Answer(t).out|
    ensures Run(t, [Call(Args(t.g, 0))], Go(s)) ==
      Go(WriteAll(s.(calls := s.calls + [Images(t, 0)], ierror := Answer(t).ierror), Args(t.g, 0), Answer(t).out))
  {
    ArgsImages(t, s, 0);
    AnswerLength(t);
    ArgsLength(t, 0);
    CallOnce(t, s, Args(t.g, 0), Images(t, 0));
  }

  lemma CallRun(t: Site, s: State) returns (f: Flow)
    requires Legal(t) && LensOk(t, s) && InStage(t, s, 8, 0, |t.args|)
    ensures f == Run(t, [Call(Args(t.g, 0))], Go(s))
    ensures f.Go? && f.s == s.(slots := f.s.slots, calls := s.calls + [Images(t, 0)], ierror := Answer(t).ierror)
    ensures InStage(t, f.s, 9, 0, |t.args|)
  {
    CallStep(t, s);
    var s1 := s.(calls := s.calls + [Images(t, 0)], ierror := Answer(t).ierror);
    StageSlots(t, s, s1, 8, 0, |t.args|);
    assert Rest(t, 0) == Answer(t).out;
    var s2 := WritesAll(t, s1, 0);
    f := Go(s2);
  }
}
