/** From the entry of an emitted body to its queries: declarations and checks.
  *
  * Every exit on the way owes the caller the same: each out handle null, each out integer zero, and nothing else of the
  * caller's changed.  `DefineOuts` says that the lines of `out_defined` pay that debt wherever they are executed, and
  * `ChecksAll` that the first check to fail, in parameter order, decides the error.
  */
module GenPre {
  import opened GenIR
  import opened GenEmit
  import opened GenSpec
  import opened GenRows

  // ---------------------------------------------------------------- defining the outs

  predicate Mentions(defs: seq<(nat, int)>, j: nat) {
    exists k :: 0 <= k < |defs| && defs[k].0 == j
  }

  /** Every line gives an out parameter its own default. */
  predicate Proper(t: Site, defs: seq<(nat, int)>) {
    forall k :: 0 <= k < |defs| ==>
      defs[k].0 < |t.g.params| && Defaulted(t.g.params[defs[k].0]) && defs[k].1 == Default(t.w, t.g.params[defs[k].0])
  }

  /** The out parameter's object, given its default. */
  function Put(t: Site, slot: Slot, j: nat): Slot
    requires j < |t.g.params|
  {
    if slot.abi.I? then slot.(abi := I(Default(t.w, t.g.params[j]))) else slot
  }

  /** Every out parameter has an object, or the null pointer its routine admits. */
  predicate Definable(t: Site, slots: seq<Slot>) {
    |slots| == |t.g.params| == |t.args|
    && forall j :: 0 <= j < |slots| && Defaulted(t.g.params[j]) ==>
         slots[j].abi.I? || (t.g.nullable && slots[j].abi.Absent?)
  }

  lemma {:induction false} DefineProper(t: Site, s: State, defs: seq<(nat, int)>)
    requires Definable(t, s.slots) && Proper(t, defs)
    ensures var f := DefineAll(s, t.g.nullable, defs);
      f.Go? && f.s == s.(slots := f.s.slots) && |f.s.slots| == |s.slots|
      && forall j :: 0 <= j < |s.slots| ==>
           f.s.slots[j] == if Mentions(defs, j) then Put(t, s.slots[j], j) else s.slots[j]
    decreases |defs|
  {
    if defs != [] {
      var d, rest := defs[0], defs[1..];
      var f := Assign(s, t.g.nullable, d.0, d.1);
      assert f.Go? && f.s == s.(slots := s.slots[d.0 := Put(t, s.slots[d.0], d.0)]);
      assert Definable(t, f.s.slots);
      DefineProper(t, f.s, rest);
      forall j | 0 <= j < |s.slots| ensures Mentions(defs, j) <==> j == d.0 || Mentions(rest, j) {
        if Mentions(rest, j) {
          var k :| 0 <= k < |rest| && rest[k].0 == j;
          assert defs[k + 1].0 == j;
        }
        assert j == d.0 ==> defs[0].0 == j;
        if Mentions(defs, j) && j != d.0 {
          var k :| 0 <= k < |defs| && defs[k].0 == j;
          assert rest[k - 1].0 == j;
        }
      }
    }
  }

  lemma MentionsConcat(a: seq<(nat, int)>, b: seq<(nat, int)>, j: nat)
    ensures Mentions(a + b, j) <==> Mentions(a, j) || Mentions(b, j)
  {
    if Mentions(a, j) {
      var k :| 0 <= k < |a| && a[k].0 == j;
      assert (a + b)[k].0 == j;
    }
    if Mentions(b, j) {
      var k :| 0 <= k < |b| && b[k].0 == j;
      assert (a + b)[|a| + k].0 == j;
    }
  }

  lemma {:induction false} NullsProper(t: Site, i: nat, j: nat)
    requires i <= |t.g.params|
    ensures Proper(t, NullHandles(t.g, t.w, i))
    ensures Mentions(NullHandles(t.g, t.w, i), j) <==> i <= j < |t.g.params| && t.g.params[j].HandleOut?
    decreases |t.g.params| - i
  {
    if i < |t.g.params| {
      NullsProper(t, i + 1, j);
      var head := if t.g.params[i].HandleOut? then [(i, t.w.abiNull(t.g.params[i].fam))] else [];
      MentionsConcat(head, NullHandles(t.g, t.w, i + 1), j);
      assert Mentions(head, j) <==> j == i && t.g.params[i].HandleOut? by {
        assert t.g.params[i].HandleOut? ==> head[0].0 == i;
      }
    }
  }

  lemma {:induction false} ZerosProper(t: Site, i: nat, j: nat)
    requires i <= |t.g.params|
    ensures Proper(t, Zeros(t.g, i))
    ensures Mentions(Zeros(t.g, i), j) <==> i <= j < |t.g.params| && Zeroable(t.g.params[j])
    decreases |t.g.params| - i
  {
    if i < |t.g.params| {
      ZerosProper(t, i + 1, j);
      var head := if Zeroable(t.g.params[i]) then [(i, 0)] else [];
      MentionsConcat(head, Zeros(t.g, i + 1), j);
      assert Mentions(head, j) <==> j == i && Zeroable(t.g.params[i]) by {
        assert Zeroable(t.g.params[i]) ==> head[0].0 == i;
      }
    }
  }

  /** Defining the outs gives every out parameter its default, and touches nothing else. */
  lemma DefineOuts(t: Site, s: State)
    requires Definable(t, s.slots)
    ensures var f := DefineAll(s, t.g.nullable, OutDefined(t.g, t.w));
      f.Go? && f.s == s.(slots := f.s.slots) && |f.s.slots| == |s.slots|
      && forall j :: 0 <= j < |s.slots| ==>
           f.s.slots[j] == if Defaulted(t.g.params[j]) then Put(t, s.slots[j], j) else s.slots[j]
  {
    NullsProper(t, 0, 0);
    ZerosProper(t, 0, 0);
    DefineProper(t, s, OutDefined(t.g, t.w));
    forall j | 0 <= j < |s.slots| ensures Mentions(OutDefined(t.g, t.w), j) <==> Defaulted(t.g.params[j]) {
      NullsProper(t, 0, j);
      ZerosProper(t, 0, j);
      MentionsConcat(NullHandles(t.g, t.w, 0), Zeros(t.g, 0), j);
    }
  }

  lemma {:induction false} DefinesRun(t: Site, s: State, defs: seq<(nat, int)>)
    requires Means(t) && DefineAll(s, t.g.nullable, defs).Go?
    ensures Run(t, Defines(defs), Go(s)) == DefineAll(s, t.g.nullable, defs)
    decreases |defs|
  {
    if defs == [] {
      assert Defines(defs) == [];
    } else {
      assert Defines(defs) == [Define(defs[0].0, defs[0].1)] + Defines(defs[1..]);
      One(t, Define(defs[0].0, defs[0].1), s);
      ExecConcat(t.step, [Define(defs[0].0, defs[0].1)], Defines(defs[1..]), Go(s));
      DefinesRun(t, Assign(s, t.g.nullable, defs[0].0, defs[0].1).s, defs[1..]);
    }
  }

  /** The caller finds its default behind an out parameter, and its own value behind every other. */
  predicate Owed(t: Site, s: State, j: nat) {
    Sized0(t, s) && j < |s.slots| && s.slots[j].abi == Defined(t, j)
  }

  predicate AllOwed(t: Site, s: State) {
    Sized0(t, s) && forall j: nat {:trigger Owed(t, s, j)} :: j < |s.slots| ==> Owed(t, s, j)
  }

  /** The body has answered without calling: every out parameter is defined, everything else is as it was. */
  predicate Refused(t: Site, s: State, f: Flow, code: int) {
    f.Ret? && f.code == code && f.s.calls == s.calls && f.s.held == s.held && f.s.released == s.released
    && f.s.block == s.block && f.s.table == s.table && AllOwed(t, f.s)
  }

  predicate Early(t: Site, s: State, j: nat) {
    Sized0(t, s) && j < |s.slots| && (s.slots[j].abi == t.args[j] || s.slots[j].abi == Defined(t, j))
  }

  predicate Untouched(t: Site, s: State) {
    Sized0(t, s) && forall j: nat {:trigger Early(t, s, j)} :: j < |s.slots| ==> Early(t, s, j)
  }

  lemma LegalDefinable(t: Site, s: State)
    requires Given(t) && Untouched(t, s)
    ensures Definable(t, s.slots)
    ensures forall j :: 0 <= j < |s.slots| ==>
      Defined(t, j) == (if Defaulted(t.g.params[j]) then Put(t, s.slots[j], j) else s.slots[j]).abi
  {
    forall j | 0 <= j < |s.slots|
      ensures Defaulted(t.g.params[j]) ==> s.slots[j].abi.I? || (t.g.nullable && s.slots[j].abi.Absent?)
      ensures Defined(t, j) == (if Defaulted(t.g.params[j]) then Put(t, s.slots[j], j) else s.slots[j]).abi
    {
      assert ArgOk(t, j) && Early(t, s, j);
    }
  }

  lemma DefinedOwed(t: Site, s: State)
    requires Given(t) && Untouched(t, s)
    ensures var f := DefineAll(s, t.g.nullable, OutDefined(t.g, t.w));
      f.Go? && f.s == s.(slots := f.s.slots) && AllOwed(t, f.s)
  {
    LegalDefinable(t, s);
    DefineOuts(t, s);
    var s' := DefineAll(s, t.g.nullable, OutDefined(t.g, t.w)).s;
    forall j: nat {:trigger Owed(t, s', j)} | j < |s'.slots| ensures Owed(t, s', j) {
    }
  }

  lemma Refuses(t: Site, s: State, code: int)
    requires Given(t) && Untouched(t, s)
    ensures Refused(t, s, Refuse(s, t.g.nullable, OutDefined(t.g, t.w), code), code)
  {
    DefinedOwed(t, s);
  }

  // ---------------------------------------------------------------- checks

  predicate Narrowing(c: Class) {
    c.Narrow? || c.NarrowInout?
  }

  /** Every check is keyed on a parameter declared before the checks. */
  lemma {:induction false} CutCovers(g: Signature, handles: set<Family>, i: nat, n: nat)
    requires WellFormed(g, handles) && i < n <= |g.params|
    ensures Cut(g, n) <= |g.params|
    ensures Narrowing(g.params[i]) ==> i < Cut(g, n)
    ensures Staged(g.params[i]) && g.params[i].ext.alloc.OfParam? ==> g.params[i].ext.alloc.index < Cut(g, n)
    decreases n
  {
    CutBounded(g, handles, n);
    CutBounded(g, handles, n - 1);
    if i < n - 1 {
      CutCovers(g, handles, i, n - 1);
    }
  }

  lemma {:induction false} CutBounded(g: Signature, handles: set<Family>, n: nat)
    requires WellFormed(g, handles) && n <= |g.params|
    ensures Cut(g, n) <= |g.params|
    ensures n > 0 ==> Cut(g, n - 1) <= Cut(g, n) || Narrowing(g.params[n - 1])
    decreases n
  {
    if n > 0 {
      CutBounded(g, handles, n - 1);
      assert ParamOk(g, n - 1);
    }
  }

  /** Between the two halves of the declarations: the first m parameters declared, the first i of them checked. */
  predicate Checking(t: Site, s: State, m: nat, i: nat) {
    && InStage(t, s, 2, 0, if i < m then i else m)
    && InStage(t, s, 1, i, m) && InStage(t, s, 0, m, |s.slots|)
  }

  lemma CheckingUntouched(t: Site, s: State, m: nat, i: nat)
    requires Checking(t, s, m, i)
    ensures Untouched(t, s)
  {
    forall j: nat {:trigger Early(t, s, j)} | j < |s.slots| ensures Early(t, s, j) {
      assert Is(t, s, 0, j) || Is(t, s, 1, j) || Is(t, s, 2, j) by {
        if j >= m { assert Is(t, s, 0, j); } else if j >= i { assert Is(t, s, 1, j); } else { assert Is(t, s, 2, j); }
      }
    }
  }

  lemma NarrowOne(t: Site, s: State, m: nat, i: nat)
    requires Legal(t) && Checking(t, s, m, i) && i < |s.slots| && Narrowing(t.g.params[i]) && i < m
    ensures var f := Run(t, [NarrowOr(i, t.g.params[i].bytes, OutDefined(t.g, t.w))], Go(s));
      t.args[i].I? &&
      if Fits(t.args[i].i, t.g.params[i].bytes) then f == Go(s.(slots := s.slots[i := Row(t, 2, i)]))
      else Refused(t, s, f, ERR_TOO_LARGE)
  {
    assert ArgOk(t, i) && Is(t, s, 1, i);
    One(t, NarrowOr(i, t.g.params[i].bytes, OutDefined(t.g, t.w)), s);
    CheckingUntouched(t, s, m, i);
    Refuses(t, s, ERR_TOO_LARGE);
  }

  /** The length of a staged array is in scope when it is checked; it is zero if it is narrowed later. */
  lemma LengthInScope(t: Site, s: State, m: nat, i: nat)
    requires Given(t) && Checking(t, s, m, i) && i < |s.slots| && Staged(t.g.params[i])
      && t.g.params[i].ext.alloc.OfParam?
    requires t.g.params[i].ext.alloc.index < m
    ensures LenVal(s, t.g.params[i].ext.alloc) == I(CheckedLen(t, i))
  {
    var l := t.g.params[i].ext.alloc.index;
    assert ParamOk(t.g, i) && ArgOk(t, l);
    if l < i { assert Is(t, s, 2, l); } else { assert Is(t, s, 1, l); }
  }

  lemma NegativeOne(t: Site, s: State, m: nat, i: nat)
    requires Legal(t) && Checking(t, s, m, i) && i < |s.slots| && Staged(t.g.params[i])
      && t.g.params[i].ext.alloc.OfParam?
    requires t.g.params[i].ext.alloc.index < m
    ensures var l := t.g.params[i].ext.alloc.index;
      var f := Run(t, [NotNegativeOr(l, OutDefined(t.g, t.w))], Go(s));
      if CheckedLen(t, i) < 0 then Refused(t, s, f, ERR_COUNT) else f == Go(s)
  {
    var l := t.g.params[i].ext.alloc.index;
    LengthInScope(t, s, m, i);
    One(t, NotNegativeOr(l, OutDefined(t.g, t.w)), s);
    CheckingUntouched(t, s, m, i);
    Refuses(t, s, ERR_COUNT);
  }

  lemma OverflowOne(t: Site, s: State, m: nat, i: nat)
    requires Legal(t) && Checking(t, s, m, i) && i < |s.slots| && Staged(t.g.params[i])
      && t.g.params[i].ext.alloc.OfParam?
    requires t.g.params[i].ext.alloc.index < m
    ensures var e, n := t.g.params[i].ext, CheckedLen(t, i);
      var f := Run(t, [NoOverflowOr(e.alloc.index, e.size, OutDefined(t.g, t.w))], Go(s));
      if n < 0 || n > t.w.sizeMax / e.size then Refused(t, s, f, ERR_COUNT) else f == Go(s)
  {
    var e := t.g.params[i].ext;
    LengthInScope(t, s, m, i);
    One(t, NoOverflowOr(e.alloc.index, e.size, OutDefined(t.g, t.w)), s);
    CheckingUntouched(t, s, m, i);
    Refuses(t, s, ERR_COUNT);
  }

  lemma LengthOne(t: Site, s: State, m: nat, i: nat)
    requires Legal(t) && Checking(t, s, m, i) && i < |s.slots| && Staged(t.g.params[i])
      && t.g.params[i].ext.alloc.OfParam?
    requires t.g.params[i].ext.alloc.index < m
    ensures var f := Run(t, Check(t.g, t.w, i, SeenBefore(t.g, i)), Go(s));
      if BadLength(t, i) then Refused(t, s, f, ERR_COUNT) else f == Go(s)
  {
    var e, defs := t.g.params[i].ext, OutDefined(t.g, t.w);
    var l := e.alloc.index;
    var first := if l in SeenBefore(t.g, i) then [] else [NotNegativeOr(l, defs)];
    var second := if e.wide then [NoOverflowOr(l, e.size, defs)] else [];
    assert Check(t.g, t.w, i, SeenBefore(t.g, i)) == first + second;
    ExecConcat(t.step, first, second, Go(s));
    NegativeOne(t, s, m, i);
    if CheckedLen(t, i) < 0 && first != [] {
      ExecEnded(t.step, second, Run(t, first, Go(s)));
    } else if e.wide {
      OverflowOne(t, s, m, i);
    }
  }

  lemma NothingNarrowed(t: Site, s: State, m: nat, i: nat)
    requires Checking(t, s, m, i) && i < |s.slots| && !Narrowing(t.g.params[i])
    ensures Checking(t, s, m, i + 1)
  {
    if i < m {
      StageLess(t, s, 1, i, m);
      assert Is(t, s, 2, i);
      StageMore(t, s, 2, 0, i);
    }
  }

  lemma OneNarrowed(t: Site, s: State, m: nat, i: nat)
    requires Checking(t, s, m, i) && i < |s.slots| && i < m
    ensures Checking(t, s.(slots := s.slots[i := Row(t, 2, i)]), m, i + 1)
  {
    var s' := s.(slots := s.slots[i := Row(t, 2, i)]);
    StageLess(t, s, 1, i, m);
    StageStep(t, s, 1, i + 1, m, i, Row(t, 2, i));
    StageStep(t, s, 0, m, |s.slots|, i, Row(t, 2, i));
    StageStep(t, s, 2, 0, i, i, Row(t, 2, i));
    assert Is(t, s', 2, i);
    StageMore(t, s', 2, 0, i);
  }

  /** One parameter's checks: the code of its refusal, or its local narrowed. */
  lemma CheckOne(t: Site, s: State, m: nat, i: nat)
    requires Legal(t) && m == Cut(t.g, |t.g.params|) && Checking(t, s, m, i) && i < |s.slots|
    ensures var f := Run(t, Check(t.g, t.w, i, SeenBefore(t.g, i)), Go(s));
      if OwnRefusal(t, i) != [] then Refused(t, s, f, OwnRefusal(t, i)[0])
      else f.Go? && f.s == s.(slots := f.s.slots) && Checking(t, f.s, m, i + 1)
  {
    var c := t.g.params[i];
    CutCovers(t.g, t.handles, i, |t.g.params|);
    if Narrowing(c) {
      NarrowOne(t, s, m, i);
      OneNarrowed(t, s, m, i);
    } else {
      NothingNarrowed(t, s, m, i);
      if Staged(c) && c.ext.alloc.OfParam? {
        LengthOne(t, s, m, i);
      } else {
        assert Check(t.g, t.w, i, SeenBefore(t.g, i)) == [];
      }
    }
  }

  /** What the checks from parameter i on lead to. */
  ghost predicate CheckedFrom(t: Site, s: State, f: Flow, m: nat, i: nat)
    requires i <= |t.g.params| == |t.args|
  {
    if CheckRefusal(t, i) == [] then f.Go? && f.s == s.(slots := f.s.slots) && Checking(t, f.s, m, |s.slots|)
    else Refused(t, s, f, CheckRefusal(t, i)[0])
  }

  lemma CheckedStep(t: Site, s: State, s': State, f: Flow, m: nat, i: nat)
    requires |t.g.params| == |t.args| && i < |t.args| && OwnRefusal(t, i) == []
    requires s' == s.(slots := s'.slots) && |s'.slots| == |s.slots| && CheckedFrom(t, s', f, m, i + 1)
    ensures CheckedFrom(t, s, f, m, i)
  {
  }

  lemma ChecksSplit(t: Site, s: State, i: nat)
    requires i < |t.g.params|
    ensures Run(t, Checks(t.g, t.w, i, SeenBefore(t.g, i)), Go(s)) ==
            Run(t, Checks(t.g, t.w, i + 1, SeenBefore(t.g, i + 1)),
              Run(t, Check(t.g, t.w, i, SeenBefore(t.g, i)), Go(s)))
  {
    var seen := SeenBefore(t.g, i);
    Chain(t, Checks(t.g, t.w, i, seen), Check(t.g, t.w, i, seen), Checks(t.g, t.w, i + 1, Seen(t.g, i, seen)), s,
          Run(t, Check(t.g, t.w, i, seen), Go(s)));
  }

  lemma ChecksNext(t: Site, s: State, m: nat, i: nat) returns (s': State)
    requires Legal(t) && m == Cut(t.g, |t.g.params|) && Checking(t, s, m, i) && i < |s.slots| && OwnRefusal(t, i) == []
    ensures ChecksRun(t, s, i) == ChecksRun(t, s', i + 1)
    ensures s' == s.(slots := s'.slots) && |s'.slots| == |s.slots| && Checking(t, s', m, i + 1)
  {
    CheckOne(t, s, m, i);
    ChecksSplit(t, s, i);
    s' := Run(t, Check(t.g, t.w, i, SeenBefore(t.g, i)), Go(s)).s;
  }

  /** What the checks of parameters i.. do. */
  function ChecksRun(t: Site, s: State, i: nat): Flow
    requires i <= |t.g.params|
  {
    Run(t, Checks(t.g, t.w, i, SeenBefore(t.g, i)), Go(s))
  }

  lemma ChecksEnd(t: Site, s: State, m: nat, i: nat)
    requires Legal(t) && m == Cut(t.g, |t.g.params|) && Checking(t, s, m, i) && i < |s.slots| && OwnRefusal(t, i) != []
    ensures CheckedFrom(t, s, ChecksRun(t, s, i), m, i)
  {
    CheckOne(t, s, m, i);
    ChecksSplit(t, s, i);
    var f := Run(t, Check(t.g, t.w, i, SeenBefore(t.g, i)), Go(s));
    ExecEnded(t.step, Checks(t.g, t.w, i + 1, SeenBefore(t.g, i + 1)), f);
  }

  lemma ChecksDone(t: Site, s: State, m: nat)
    requires |t.g.params| == |t.args| == |s.slots| && Checking(t, s, m, |s.slots|)
    ensures CheckedFrom(t, s, ChecksRun(t, s, |s.slots|), m, |s.slots|)
  {
  }

  lemma {:induction false} ChecksAll(t: Site, s: State, m: nat, i: nat)
    requires Legal(t) && m == Cut(t.g, |t.g.params|) && Checking(t, s, m, i) && i <= |s.slots|
    ensures CheckedFrom(t, s, ChecksRun(t, s, i), m, i)
    decreases |s.slots| - i
  {
    if i == |s.slots| {
      ChecksDone(t, s, m);
    } else if OwnRefusal(t, i) == [] {
      var s' := ChecksNext(t, s, m, i);
      ChecksAll(t, s', m, i + 1);
      CheckedStep(t, s, s', ChecksRun(t, s', i + 1), m, i);
    } else {
      ChecksEnd(t, s, m, i);
    }
  }
}
