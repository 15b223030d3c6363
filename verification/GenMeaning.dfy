/** What every emitted body that releases its own temporaries does, for all signatures, arguments and implementations.
  *
  * The groups of lines are put together: before the call, the call, after it, and the label, past which every way out
  * of a body that stages arrays leads.  `Does` is the specification, shared with the other assembler's bodies, and
  * `Meets` adds where a body faults; `StagedDoes` follows the lines after the declarations.
  */
module GenMeaning {
  import opened GenIR
  import opened GenEmit
  import opened GenSpec
  import opened GenRows
  import opened GenPre
  import opened GenStaging
  import opened GenFilling
  import opened GenCalling
  import opened GenReturning
  import opened GenLeaving

  // ---------------------------------------------------------------- from the call to the copies

  /** The body has called once and converted everything. */
  ghost predicate CalledOutcome(t: Site, s: State, f: Flow)
    requires |t.g.params| == |t.args|
  {
    f.Go? && f.s.calls == s.calls + [Images(t, 0)] && f.s.ierror == Answer(t).ierror
    && f.s.released == s.released + Released(t) && f.s.clashed == (s.clashed || AnyClash(t))
    && f.s.held == s.held && f.s.result == s.result && f.s.block == s.block && f.s.table == s.table
    && InStage(t, f.s, 12, 0, |t.args|)
  }

  lemma ClashSplit(t: Site)
    requires |t.g.params| == |t.args|
    ensures AnyClash(t) <==> PostClash(t, 0) || CopyClash(t, 0)
  {
    if AnyClash(t) {
      var i :| 0 <= i < |t.g.params| && ClashAt(t, i);
      assert Posted(t.g.params[i]) || Staged(t.g.params[i]);
    }
  }

  lemma ConvertRun(t: Site, s: State) returns (f: Flow)
    requires Legal(t) && !Outlives(t.g) && Roomy(t) && LensOk(t, s) && InStage(t, s, 9, 0, |t.args|)
    requires s.ierror == Answer(t).ierror
    ensures f == Run(t, Posts(t.g, 0) + ((ArrayReleases(t.g, 0) + ScalarReleases(t.g, 0))
                                         + (CopyBacks(t.g, 0) + Maps(t.g, 0))), Go(s))
    ensures f.Go? && f.s == s.(slots := f.s.slots, released := s.released + Released(t), clashed := f.s.clashed)
    ensures f.s.clashed == (s.clashed || AnyClash(t)) && InStage(t, f.s, 12, 0, |t.args|)
  {
    var release, copy := ArrayReleases(t.g, 0) + ScalarReleases(t.g, 0), CopyBacks(t.g, 0) + Maps(t.g, 0);
    var f1 := PostsAll(t, s, 0);
    Chain(t, Posts(t.g, 0) + (release + copy), Posts(t.g, 0), release + copy, s, f1);
    SameLens(t, s, f1.s);
    var f2 := ReleasesRun(t, f1.s);
    Chain(t, release + copy, release, copy, f1.s, f2);
    SameLens(t, s, f2.s);
    StageSlots(t, f1.s, f2.s, 10, 0, |t.args|);
    f := CopyRun2(t, f2.s);
    ClashSplit(t);
  }

  lemma CopyRun2(t: Site, s: State) returns (f: Flow)
    requires Legal(t) && Roomy(t) && LensOk(t, s) && InStage(t, s, 10, 0, |t.args|)
    requires s.ierror == Answer(t).ierror
    ensures f == Run(t, CopyBacks(t.g, 0) + Maps(t.g, 0), Go(s))
    ensures SlotsAndClash(s, f, CopyClash(t, 0)) && InStage(t, f.s, 12, 0, |t.args|)
  {
    var f1 := CopyBacksAll(t, s, 0);
    Chain(t, CopyBacks(t.g, 0) + Maps(t.g, 0), CopyBacks(t.g, 0), Maps(t.g, 0), s, f1);
    SameLens(t, s, f1.s);
    f := MapsAll(t, f1.s, 0);
  }

  lemma CallingRun(t: Site, s: State) returns (f: Flow)
    requires Legal(t) && !Outlives(t.g) && Roomy(t) && LensOk(t, s) && InStage(t, s, 7, 0, |t.args|)
    ensures f == Run(t, Calling(t.g, t.w), Go(s)) && CalledOutcome(t, s, f)
  {
    var call := [Call(Args(t.g, 0))];
    var rest := Posts(t.g, 0) + ((ArrayReleases(t.g, 0) + ScalarReleases(t.g, 0)) + (CopyBacks(t.g, 0) + Maps(t.g, 0)));
    var f1 := OutLocalsAll(t, s, 0);
    Chain(t, Calling(t.g, t.w), OutLocals(t.g, t.w, 0), call + rest, s, f1);
    SameLens(t, s, f1.s);
    var f2 := CallRun(t, f1.s);
    Chain(t, call + rest, call, rest, f1.s, f2);
    SameLens(t, s, f2.s);
    f := ConvertRun(t, f2.s);
  }

  // ---------------------------------------------------------------- leaving

  /** The temporaries of parameters i.. are the ones still held. */
  predicate HeldRightFrom(t: Site, s: State, i: nat, j: nat) {
    s.held[j] == if i <= j && Allocated(t, s, j) then 1 else 0
  }

  ghost predicate HeldFrom(t: Site, s: State, i: nat) {
    Sized0(t, s) && forall j: nat {:trigger HeldRightFrom(t, s, i, j)} :: HeldRightFrom(t, s, i, j)
  }

  lemma AllReleased(t: Site, s: State)
    requires HeldFrom(t, s, |s.slots|)
    ensures s.held == multiset{}
  {
    forall j: nat ensures s.held[j] == 0 { assert HeldRightFrom(t, s, |s.slots|, j); }
  }

  function UnstageOf(g: Signature, i: nat): seq<Stmt>
    requires i < |g.params|
  {
    if Staged(g.params[i]) then [Unstage(i)] else []
  }

  lemma UnstageOne(t: Site, s: State, i: nat) returns (s': State)
    requires Means(t) && HeldFrom(t, s, i) && TempsOk(t, s) && i < |s.slots|
    ensures Run(t, UnstageOf(t.g, i), Go(s)) == Go(s')
    ensures s' == s.(held := s'.held) && HeldFrom(t, s', i + 1)
  {
    assert TempOk(t, s, i) && HeldRightFrom(t, s, i, i);
    if Staged(t.g.params[i]) { One(t, Unstage(i), s); }
    s' := if Allocated(t, s, i) then s.(held := s.held - multiset{i}) else s;
    forall j: nat {:trigger HeldRightFrom(t, s', i + 1, j)} ensures HeldRightFrom(t, s', i + 1, j) {
      assert HeldRightFrom(t, s, i, j);
    }
  }

  lemma SameTemps(t: Site, s: State, s': State)
    requires TempsOk(t, s) && s'.slots == s.slots
    ensures TempsOk(t, s')
  {
    forall j: nat {:trigger TempOk(t, s', j)} | j < |s'.slots| ensures TempOk(t, s', j) { assert TempOk(t, s, j); }
  }

  lemma {:induction false} UnstagesAll(t: Site, s: State, i: nat) returns (f: Flow)
    requires Means(t) && HeldFrom(t, s, i) && TempsOk(t, s) && i <= |s.slots|
    ensures f == Run(t, Unstages(t.g, i), Go(s))
    ensures f == Go(s.(held := multiset{}))
    decreases |s.slots| - i
  {
    if i == |s.slots| {
      AllReleased(t, s);
      f := Go(s);
    } else {
      var s' := UnstageOne(t, s, i);
      SameTemps(t, s, s');
      f := UnstagesAll(t, s', i + 1);
      Chain(t, Unstages(t.g, i), UnstageOf(t.g, i), Unstages(t.g, i + 1), s, Go(s'));
    }
  }

  /** From the label on: every temporary is released, and the result is returned. */
  lemma LabelRun(t: Site, s: State, f0: Flow)
    requires Means(t) && HeldOk(t, s) && TempsOk(t, s) && (f0 == Go(s) || f0 == Jump(s))
    ensures Run(t, ([Done] + Unstages(t.g, 0)) + [ReturnResult], f0) == Ret(s.(held := multiset{}), s.result)
  {
    HeldWhole(t, s);
    var f := UnstagesAll(t, s, 0);
    DoneRun(t, s, f0);
    var s' := s.(held := multiset{});
    One(t, ReturnResult, s');
    Labelled(t.step, Unstages(t.g, 0), s, f0, s', Ret(s', s.result));
  }

  lemma HeldWhole(t: Site, s: State)
    requires HeldOk(t, s)
    ensures HeldFrom(t, s, 0)
  {
    forall j: nat {:trigger HeldRightFrom(t, s, 0, j)} ensures HeldRightFrom(t, s, 0, j) { assert HeldRight(t, s, j); }
  }

  lemma Labelled(step: Step, body: seq<Stmt>, s: State, f0: Flow, s': State, end: Flow)
    requires Exec(step, [Done], f0) == Go(s) && Exec(step, body, Go(s)) == Go(s')
    requires Exec(step, [ReturnResult], Go(s')) == end
    ensures Exec(step, ([Done] + body) + [ReturnResult], f0) == end
  {
    ExecConcat(step, [Done], body, f0);
    ExecConcat(step, [Done] + body, [ReturnResult], f0);
  }

  /** The label is reached by falling through to it or by jumping to it. */
  lemma DoneRun(t: Site, s: State, f0: Flow)
    requires Means(t) && (f0 == Go(s) || f0 == Jump(s))
    ensures Run(t, [Done], f0) == Go(s)
  {
    if f0.Go? {
      One(t, Done, s);
    } else {
      assert [Done][1..] == [];
      assert Exec(t.step, [], Go(s)) == Go(s);
      assert Exec(t.step, [Done], f0) == Exec(t.step, [Done][1..], Go(s));
    }
  }

  function Head(t: Site): seq<Stmt> {
    if HandleOuts(t.g, t.handles) then [CheckHandles] else []
  }

  function Tail(t: Site): seq<Stmt> {
    (if AnyStaged(t.g) then [Done] + Unstages(t.g, 0) else []) + [ReturnResult]
  }

  lemma ResultRun(t: Site, s: State) returns (s': State)
    requires Means(t)
    ensures Run(t, [SetResult] + (Head(t) + Tail(t)), Go(s)) == Run(t, Tail(t), Go(s'))
    ensures s' == s.(result := s'.result, clashed := s'.clashed)
    ensures s'.result == if HandleOuts(t.g, t.handles) && s.clashed then ERR_INTERN else t.w.errorToAbi(s.ierror)
  {
    var s1 := s.(result := t.w.errorToAbi(s.ierror));
    One(t, SetResult, s);
    Chain(t, [SetResult] + (Head(t) + Tail(t)), [SetResult], Head(t) + Tail(t), s, Go(s1));
    s' := if HandleOuts(t.g, t.handles) && s.clashed then s1.(result := ERR_INTERN, clashed := false) else s1;
    if HandleOuts(t.g, t.handles) { One(t, CheckHandles, s1); }
    assert Run(t, Head(t), Go(s1)) == Go(s');
    Chain(t, Head(t) + Tail(t), Head(t), Tail(t), s1, Go(s'));
  }

  lemma EndingRun(t: Site, s: State) returns (f: Flow)
    requires Means(t) && HeldOk(t, s) && TempsOk(t, s)
    ensures f == Run(t, Ending(t.g, t.handles), Go(s))
    ensures f.Ret? && f.s.slots == s.slots && f.s.held == multiset{} && f.s.calls == s.calls
      && f.s.released == s.released
    ensures f.s.block == s.block && f.s.table == s.table
    ensures f.code == if HandleOuts(t.g, t.handles) && s.clashed then ERR_INTERN else t.w.errorToAbi(s.ierror)
  {
    var s' := ResultRun(t, s);
    assert Ending(t.g, t.handles) == [SetResult] + (Head(t) + Tail(t));
    f := Run(t, Tail(t), Go(s'));
    if AnyStaged(t.g) {
      SameTemps(t, s, s');
      forall j: nat {:trigger HeldRight(t, s', j)} ensures HeldRight(t, s', j) { assert HeldRight(t, s, j); }
      LabelRun(t, s', Go(s'));
    } else {
      One(t, ReturnResult, s');
      assert Tail(t) == [ReturnResult];
      forall j: nat ensures s.held[j] == 0 { assert HeldRight(t, s, j); }
    }
  }

  lemma {:induction false} NoLabelLocals(g: Signature, w: World, i: nat)
    requires i <= |g.params|
    ensures Done !in OutLocals(g, w, i)
    decreases |g.params| - i
  {
    if i < |g.params| { NoLabelLocals(g, w, i + 1); }
  }

  lemma {:induction false} NoLabelStores(g: Signature, i: nat)
    requires i <= |g.params|
    ensures Done !in Posts(g, i)
    decreases |g.params| - i
  {
    if i < |g.params| { NoLabelStores(g, i + 1); }
  }

  lemma {:induction false} NoLabelReleases(g: Signature, i: nat)
    requires i <= |g.params|
    ensures Done !in ArrayReleases(g, i) && Done !in ScalarReleases(g, i)
    decreases |g.params| - i
  {
    if i < |g.params| { NoLabelReleases(g, i + 1); }
  }

  lemma {:induction false} NoLabelCopies(g: Signature, i: nat)
    requires i <= |g.params|
    ensures Done !in CopyBacks(g, i) && Done !in Maps(g, i)
    decreases |g.params| - i
  {
    if i < |g.params| { NoLabelCopies(g, i + 1); }
  }

  function BeforeLabel(t: Site): seq<Stmt> {
    Calling(t.g, t.w) + ([SetResult] + Head(t))
  }

  lemma NoLabel(t: Site)
    ensures Done !in BeforeLabel(t)
    ensures Calling(t.g, t.w) + Ending(t.g, t.handles) == BeforeLabel(t) + Tail(t)
  {
    NoLabelLocals(t.g, t.w, 0);
    NoLabelStores(t.g, 0);
    NoLabelReleases(t.g, 0);
    NoLabelCopies(t.g, 0);
    assert Done !in Calling(t.g, t.w);
  }

  /** A jump skips the call and everything after it up to the label. */
  lemma AbortRun(t: Site, s: State) returns (f: Flow)
    requires Means(t) && HeldOk(t, s) && TempsOk(t, s) && AnyStaged(t.g)
    ensures f == Run(t, Calling(t.g, t.w) + Ending(t.g, t.handles), Jump(s))
    ensures f == Ret(s.(held := multiset{}), s.result)
  {
    NoLabel(t);
    var first, tail := BeforeLabel(t), Tail(t);
    ExecJump(t.step, first, s);
    ExecConcat(t.step, first, tail, Jump(s));
    LabelRun(t, s, Jump(s));
    f := Ret(s.(held := multiset{}), s.result);
  }

  // ---------------------------------------------------------------- the whole body

  function Entry(t: Site): State {
    State(seq(|t.args|, i requires 0 <= i < |t.args| => Slot(t.args[i], Undeclared, Undeclared)), map[], 0, 0, t.stale,
          multiset{}, [], [], Unasked, t.w.table)
  }

  lemma EntryStage(t: Site)
    requires |t.g.params| == |t.args|
    ensures InStage(t, Entry(t), 0, 0, |t.args|)
  {
    forall i: nat {:trigger Is(t, Entry(t), 0, i)} | i < |t.args| ensures Is(t, Entry(t), 0, i) {
    }
  }

  /** What the caller's objects hold in the end. */
  predicate Leaves(t: Site, s: State, i: nat) {
    |t.args| == |t.g.params| == |s.slots| && i < |t.args|
    && s.slots[i].abi == if Refusal(t) != [] then Defined(t, i) else After(t, i)
  }

  /** A wrapper refuses, and then the implementation is not called and every out parameter is defined; or it calls
    * once, with the image of the arguments, and the caller finds the image of the answers. */
  ghost predicate Does(t: Site, f: Flow)
    requires |t.g.params| == |t.args|
  {
    && f.Ret? && f.s.held == multiset{} && |f.s.slots| == |t.args|
    && f.s.block == BlockLeft(t) && f.s.table == TableLeft(t)
    && (Refusal(t) != [] ==> f.code == Refusal(t)[0] && f.s.calls == [] && f.s.released == [])
    && (Refusal(t) == [] ==> f.code == Code(t) && f.s.calls == [Images(t, 0)] && f.s.released == Released(t))
    && forall i: nat {:trigger Leaves(t, f.s, i)} :: i < |t.args| ==> Leaves(t, f.s, i)
  }

  /** A body does that unless it reads past an array the caller was free to leave out, and then it faults. */
  ghost predicate Meets(t: Site, f: Flow)
    requires |t.g.params| == |t.args|
  {
    if Faults(t) then f == Stuck else Does(t, f)
  }

  lemma RefusedDoes(t: Site, f: Flow, code: int)
    requires |t.g.params| == |t.args| && Refused(t, Entry(t), f, code) && Refusal(t) == [code]
    requires CheckRefusal(t, 0) != [] || ProbeRefusal(t, 0) != []
    ensures Meets(t, f)
  {
    forall i: nat {:trigger Leaves(t, f.s, i)} | i < |t.args| ensures Leaves(t, f.s, i) {
      assert Owed(t, f.s, i);
    }
  }

  lemma AbortedDoes(t: Site, s: State, f1: Flow, f: Flow, code: int)
    requires |t.g.params| == |t.args| && Refusal(t) == [code] && Aborted(t, s, f1, code)
    requires s.calls == [] && s.released == [] && f == Ret(f1.s.(held := multiset{}), f1.s.result)
    requires !Outlives(t.g) && s.block == Unasked && s.table == t.w.table
    ensures Does(t, f)
  {
    forall i: nat {:trigger Leaves(t, f.s, i)} | i < |t.args| ensures Leaves(t, f.s, i) {
      assert Owed(t, f1.s, i);
    }
  }

  lemma FinalRow(t: Site, i: nat)
    requires i < |t.g.params| == |t.args| && !Outlives(t.g)
    ensures Row(t, 12, i).abi == After(t, i)
  {
  }

  /** The temporaries live at the end are those that were staged. */
  lemma StillHeld(t: Site, s: State, s': State)
    requires Given(t) && Roomy(t) && HeldOk(t, s) && InStage(t, s, 7, 0, |t.args|)
    requires InStage(t, s', 12, 0, |t.args|) && s'.held == s.held
    ensures HeldOk(t, s') && TempsOk(t, s')
  {
    forall j: nat | j < |t.args| && Staged(t.g.params[j])
      ensures s'.slots[j].x.A? <==> s.slots[j].x.A?
      ensures s'.slots[j].x.A? || s'.slots[j].x.Absent?
    {
      assert Is(t, s, 7, j) && Is(t, s', 12, j);
      StagedEnds(t, j);
    }
    forall j: nat {:trigger HeldRight(t, s', j)} ensures HeldRight(t, s', j) { assert HeldRight(t, s, j); }
    forall j: nat {:trigger TempOk(t, s', j)} | j < |s'.slots| ensures TempOk(t, s', j) {
    }
  }

  lemma StagedEnds(t: Site, j: nat)
    requires Given(t) && Roomy(t) && j < |t.args| && Staged(t.g.params[j])
    ensures if Skipped(t, j) then Row(t, 12, j).x == Row(t, 7, j).x == Absent
      else Row(t, 12, j).x.A? && Row(t, 7, j).x.A?
  {
    if !Skipped(t, j) { StagedOut(t, j); }
  }

  lemma CalledDoes(t: Site, s: State) returns (f: Flow)
    requires Legal(t) && !Outlives(t.g) && Roomy(t) && Refusal(t) == [] && LensOk(t, s)
    requires InStage(t, s, 7, 0, |t.args|) && HeldOk(t, s) && s.calls == [] && s.released == [] && s.clashed == t.stale
    requires s.block == Unasked && s.table == t.w.table
    ensures f == Run(t, Calling(t.g, t.w) + Ending(t.g, t.handles), Go(s)) && Does(t, f)
  {
    var f1 := CallingRun(t, s);
    Chain(t, Calling(t.g, t.w) + Ending(t.g, t.handles), Calling(t.g, t.w), Ending(t.g, t.handles), s, f1);
    StillHeld(t, s, f1.s);
    f := EndingRun(t, f1.s);
    forall i: nat {:trigger Leaves(t, f.s, i)} | i < |t.args| ensures Leaves(t, f.s, i) {
      assert Is(t, f1.s, 12, i);
      FinalRow(t, i);
    }
  }

  /** The spec's conditions are those the proof has followed. */
  lemma SameConditions(t: Site)
    requires |t.g.params| == |t.args| && !Outlives(t.g) && CheckRefusal(t, 0) == [] && ProbeRefusal(t, 0) == []
    ensures OutOfMemory(t) <==> AnyFails(t, 0)
    ensures Faults(t) <==> !AnyFails(t, 0) && FaultFrom(t, 0)
    ensures AnyMisfit(t) <==> MisfitFrom(t, 0)
  {
  }

  lemma StagedDoes(t: Site, s: State) returns (f: Flow)
    requires Legal(t) && !Outlives(t.g) && CheckRefusal(t, 0) == [] && ProbeRefusal(t, 0) == [] && LensOk(t, s)
    requires InStage(t, s, 3, 0, |t.args|) && s.held == multiset{} && s.block == Unasked && s.table == t.w.table
    requires s.calls == [] && s.released == [] && s.clashed == t.stale
    ensures f == Run(t, Staging(t.g, t.w) + (Calling(t.g, t.w) + Ending(t.g, t.handles)), Go(s)) && Meets(t, f)
  {
    var rest := Calling(t.g, t.w) + Ending(t.g, t.handles);
    SameConditions(t);
    if AnyStaged(t.g) {
      var f1 := StagingRun(t, s);
      Chain(t, Staging(t.g, t.w) + rest, Staging(t.g, t.w), rest, s, f1);
      if AnyFails(t, 0) {
        f := AbortRun(t, f1.s);
        AbortedDoes(t, s, f1, f, ERR_INTERN);
      } else if FaultFrom(t, 0) {
        f := Stuck;
        ExecEnded(t.step, rest, Stuck);
      } else if MisfitFrom(t, 0) {
        f := AbortRun(t, f1.s);
        AbortedDoes(t, s, f1, f, ERR_TOO_LARGE);
      } else {
        SameLens(t, s, f1.s);
        NoneFails(t);
        f := CalledDoes(t, f1.s);
      }
    } else {
      assert Staging(t.g, t.w) + rest == rest;
      NothingStaged(t, s);
      NoneFails(t);
      f := CalledDoes(t, s);
    }
  }
}
