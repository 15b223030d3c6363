/** The slot of every parameter at each stage of an emitted body, and the stages before the call.
  *
  * A body goes from stage to stage, one group of lines at a time, and within a group from parameter to parameter: below
  * parameter i the slots are those of the next stage, from i on those of the stage it leaves.  `Row` gives the slot of
  * one parameter at one stage, and `Is` says that a state has it; the lemmas of the proof speak of nothing else.
  */
module GenRows {
  import opened GenIR
  import opened GenEmit
  import opened GenSpec

  // Stages: 0 entry, 1 declared, 2 checked, 3 requests kept, 4 temporaries declared, 5 outs defined,
  // 6 allocated or carved, 7 filled, 8 out locals declared, 9 answered, 10 stored, 11 copied back, 12 mapped in place.

  function XAt(t: Site, ph: nat, i: nat): Val
    requires i < |t.g.params| == |t.args|
  {
    var c, v := t.g.params[i], t.args[i];
    match c
    case In(fam) => if ph >= 1 then I(From(t.w, fam, Whole(v))) else Undeclared
    case Buffer(fam, _) => if ph >= 1 then I(From(t.w, fam, Whole(v))) else Undeclared
    case Inout(fam) =>
      if ph >= 9 then OutOf(t, i) else if ph >= 1 then I(From(t.w, fam, Whole(v))) else Undeclared
    case PassPtr(_) => if ph >= 1 then Ptr else Undeclared
    case MapOut(_, _) => if ph >= 1 then Ptr else Undeclared
    case Narrow(_, _, _) => if ph >= 2 then v else if ph == 1 then I(0) else Undeclared
    case NarrowInout(_) => if ph >= 9 then OutOf(t, i) else if ph >= 2 then v else if ph == 1 then I(0) else Undeclared
    case Subst(_) => if ph >= 1 then v else Undeclared
    case HandleOut(_) => OutAt(t, ph, i)
    case ScalarOut(_, _) => OutAt(t, ph, i)
    case StatusOut => if ph >= 9 && v != Absent then OutOf(t, i) else if ph >= 8 then I(0) else Undeclared
    case LargeZero => Undeclared
    case LargeVoid => Undeclared
    case _ =>
      if ph < (if Outlives(t.g) then 6 else 4) then Undeclared
      else if ph < 6 || Skipped(t, i) then Absent
      else if ph == 6 then A(Blank(t, i, Max(0, LenOf(t, c.ext.alloc)), c.StageStatus?))
      else if ph < 9 then Temporary(t, i)
      else OutOf(t, i)
  }

  function OutAt(t: Site, ph: nat, i: nat): Val
    requires i < |t.g.params| == |t.args|
  {
    if ph < 8 then Undeclared
    else if ph == 8 || t.args[i] == Absent then OutBefore(t, i)
    else OutOf(t, i)
  }

  function AuxAt(t: Site, ph: nat, i: nat): Val
    requires i < |t.g.params| == |t.args|
  {
    var c, v := t.g.params[i], t.args[i];
    match c
    case Buffer(_, flagged) => if ph >= 1 && flagged then Flag(v == I(t.w.inPlace)) else Undeclared
    case StatusOut => if ph >= 1 then Flag(v == Absent) else Undeclared
    case StageStatus(_) => if ph >= 1 then Flag(v == Absent) else Undeclared
    case StageOut(_, _) => if ph >= 1 && t.g.nullable then Flag(v == Absent) else Undeclared
    case Inout(fam) => if ph >= 3 && fam == REQUEST then I(From(t.w, fam, Whole(v))) else Undeclared
    case _ => Undeclared
  }

  predicate Posted(c: Class) {
    c.NarrowInout? || c.HandleOut? || c.ScalarOut? || c.Inout? || c.LargeZero? || c.StatusOut?
  }

  function AbiAt(t: Site, ph: nat, i: nat): Val
    requires i < |t.g.params| == |t.args|
  {
    var c, v := t.g.params[i], t.args[i];
    if ph < 5 then v
    else if ph < 9 then Before(t, i)
    else if c.PassPtr? then (if v == Absent then v else OutOf(t, i))
    else if c.MapOut? then (if ph < 12 then OutOf(t, i) else After(t, i))
    else if Posted(c) then (if ph < 10 then Before(t, i) else After(t, i))
    else if Staged(c) then (if ph < 11 then v else After(t, i))
    else v
  }

  function Row(t: Site, ph: nat, i: nat): Slot
    requires i < |t.g.params| == |t.args|
  {
    Slot(AbiAt(t, ph, i), XAt(t, ph, i), AuxAt(t, ph, i))
  }

  /** The slots with those of parameters lo..hi moved to stage `ph`. */
  function Patch(t: Site, slots: seq<Slot>, lo: nat, hi: nat, ph: nat): (r: seq<Slot>)
    requires |slots| == |t.g.params| == |t.args|
    ensures |r| == |slots|
    ensures forall i :: 0 <= i < |slots| ==> r[i] == if lo <= i < hi then Row(t, ph, i) else slots[i]
  {
    seq(|slots|, i requires 0 <= i < |slots| => if lo <= i < hi then Row(t, ph, i) else slots[i])
  }

  lemma PatchStep(t: Site, slots: seq<Slot>, lo: nat, hi: nat, ph: nat)
    requires |slots| == |t.g.params| == |t.args| && lo < hi <= |slots|
    ensures Patch(t, slots[lo := Row(t, ph, lo)], lo + 1, hi, ph) == Patch(t, slots, lo, hi, ph)
  {
  }

  lemma PatchNone(t: Site, slots: seq<Slot>, lo: nat, ph: nat)
    requires |slots| == |t.g.params| == |t.args|
    ensures Patch(t, slots, lo, lo, ph) == slots
  {
  }

  predicate Sized0(t: Site, s: State) {
    |s.slots| == |t.g.params| == |t.args|
  }

  /** Parameter i has reached stage `ph`. */
  predicate Is(t: Site, s: State, ph: nat, i: nat) {
    Sized0(t, s) && i < |s.slots| && s.slots[i] == Row(t, ph, i)
  }

  predicate InStage(t: Site, s: State, ph: nat, lo: nat, hi: nat) {
    Sized0(t, s) && hi <= |s.slots| && forall i: nat {:trigger Is(t, s, ph, i)} :: lo <= i < hi ==> Is(t, s, ph, i)
  }

  lemma StageStep(t: Site, s: State, ph: nat, lo: nat, hi: nat, k: nat, slot: Slot)
    requires InStage(t, s, ph, lo, hi) && k < |s.slots| && (k < lo || hi <= k)
    ensures InStage(t, s.(slots := s.slots[k := slot]), ph, lo, hi)
  {
    var s' := s.(slots := s.slots[k := slot]);
    forall i: nat {:trigger Is(t, s', ph, i)} | lo <= i < hi ensures Is(t, s', ph, i) {
      assert Is(t, s, ph, i);
    }
  }

  lemma StageMore(t: Site, s: State, ph: nat, lo: nat, hi: nat)
    requires InStage(t, s, ph, lo, hi) && Is(t, s, ph, hi) && lo <= hi
    ensures InStage(t, s, ph, lo, hi + 1)
  {
    forall i: nat {:trigger Is(t, s, ph, i)} | lo <= i < hi + 1 ensures Is(t, s, ph, i) {
      if i < hi { assert Is(t, s, ph, i); }
    }
  }

  lemma StageLess(t: Site, s: State, ph: nat, lo: nat, hi: nat)
    requires InStage(t, s, ph, lo, hi) && lo < hi
    ensures InStage(t, s, ph, lo + 1, hi) && Is(t, s, ph, lo)
  {
    forall i: nat {:trigger Is(t, s, ph, i)} | lo + 1 <= i < hi ensures Is(t, s, ph, i) {
    }
  }

  /** Stages are about the slots only. */
  lemma StageSlots(t: Site, s: State, s': State, ph: nat, lo: nat, hi: nat)
    requires InStage(t, s, ph, lo, hi) && s'.slots == s.slots
    ensures InStage(t, s', ph, lo, hi)
  {
    forall i: nat {:trigger Is(t, s', ph, i)} | lo <= i < hi ensures Is(t, s', ph, i) {
      assert Is(t, s, ph, i);
    }
  }

  function Run(t: Site, body: seq<Stmt>, f: Flow): Flow {
    Exec(t.step, body, f)
  }

  lemma One(t: Site, st: Stmt, s: State)
    requires Means(t)
    ensures Run(t, [st], Go(s)) == Exec1(t.w, t.g.nullable, st, s)
  {
    var f := Exec1(t.w, t.g.nullable, st, s);
    assert t.step(st, s) == f;
    assert [st][1..] == [];
    assert Exec(t.step, [], f) == f;
    assert Exec(t.step, [st], Go(s)) == Exec(t.step, [], f);
  }

  lemma Two(t: Site, st: Stmt, st': Stmt, s: State)
    requires Means(t)
    requires Exec1(t.w, t.g.nullable, st, s).Go?
    ensures Run(t, [st] + [st'], Go(s)) == Exec1(t.w, t.g.nullable, st', Exec1(t.w, t.g.nullable, st, s).s)
  {
    ExecConcat(t.step, [st], [st'], Go(s));
    One(t, st, s);
    One(t, st', Exec1(t.w, t.g.nullable, st, s).s);
  }

  /** The first part of a body leads to one state, so the whole leads where the rest does from there. */
  lemma Chain(t: Site, whole: seq<Stmt>, first: seq<Stmt>, rest: seq<Stmt>, s: State, f: Flow)
    requires whole == first + rest && Run(t, first, Go(s)) == f
    ensures Run(t, whole, Go(s)) == Run(t, rest, f)
  {
    ExecConcat(t.step, first, rest, Go(s));
  }

  // ---------------------------------------------------------------- declarations

  lemma RowsOne(t: Site, s: State, i: nat)
    requires Legal(t) && Sized0(t, s) && i < |s.slots| && s.slots[i] == Row(t, 0, i)
    ensures Run(t, Rows(t.g, i), Go(s)) == Go(s.(slots := s.slots[i := Row(t, 1, i)]))
  {
    assert ArgOk(t, i);
    var c := t.g.params[i];
    if Rows(t.g, i) == [] {
      assert s.slots[i := Row(t, 1, i)] == s.slots;
    } else if c.Buffer? && c.flagged {
      Two(t, Convert(i, c.fam), InPlaceFlag(i), s);
    } else {
      var st := Rows(t.g, i)[0];
      assert Rows(t.g, i) == [st];
      One(t, st, s);
    }
  }

  lemma {:induction false} RowsAll(t: Site, s: State, lo: nat, hi: nat)
    requires Legal(t) && lo <= hi <= |t.g.params| && InStage(t, s, 0, lo, hi)
    ensures Run(t, AllRows(t.g, lo, hi), Go(s)) == Go(s.(slots := Patch(t, s.slots, lo, hi, 1)))
    decreases hi - lo
  {
    if lo == hi {
      PatchNone(t, s.slots, lo, 1);
    } else {
      StageLess(t, s, 0, lo, hi);
      RowsOne(t, s, lo);
      StageStep(t, s, 0, lo + 1, hi, lo, Row(t, 1, lo));
      var s' := s.(slots := s.slots[lo := Row(t, 1, lo)]);
      RowsAll(t, s', lo + 1, hi);
      Chain(t, AllRows(t.g, lo, hi), Rows(t.g, lo), AllRows(t.g, lo + 1, hi), s, Go(s'));
      PatchStep(t, s.slots, lo, hi, 1);
    }
  }
}
