/** A run that is not safe.  NOTES.md section 6.3 rests the release-by-value scheme on one inference, that two live
  * operations do not share a request value, and that is not enough: where nulled values are not held back, a run frees
  * a block that is still being read. */
module StagedReissue {
  import opened Common
  import opened StagedKeys
  import opened StagedLifetime
  import opened StagedAlone
  import A = StagedAnyRun
  import T = StagedTable

  // A value may be handed out again as soon as its request is nulled, which is before the nulling call has looked its
  // entry up; and every completion call looks, whether or not its operation ever had an entry.

  ghost predicate Reached(s: State) {
    exists tr: seq<State> :: Run(tr, false) && tr[|tr| - 1] == s && |tr[0].key| == |s.key|
  }

  lemma ExtendRun(tr: seq<State>, t: State)
    requires Run(tr, false) && Next(tr[|tr| - 1], t, false)
    ensures Run(tr + [t], false)
  {
    var tr' := tr + [t];
    forall i | 0 <= i < |tr'| - 1 ensures Next(tr'[i], tr'[i + 1], false) {
      if i + 1 < |tr| { assert Next(tr[i], tr[i + 1], false); }
    }
  }

  lemma SameSize(s: State, a: Action)
    requires Shaped(s) && Enabled(s, a, false)
    ensures |Apply(s, a).key| == |s.key|
  {
  }

  lemma Extend(s: State, a: Action)
    requires Reached(s) && Shaped(s) && Enabled(s, a, false)
    ensures Reached(Apply(s, a))
  {
    var tr: seq<State> :| Run(tr, false) && tr[|tr| - 1] == s && |tr[0].key| == |s.key|;
    SameSize(s, a);
    assert Next(s, Apply(s, a), false);
    ExtendRun(tr, Apply(s, a));
    assert (tr + [Apply(s, a)])[|tr|] == Apply(s, a);
  }

  /** A thread nobody interrupts. */
  lemma {:induction false} Alone(s: State, o: OpId, n: nat)
    requires Reached(s)
    ensures Reached(Steps(s, o, n))
    decreases n
  {
    if n > 0 && Ready(s, o) {
      if s.ops[o].pc != Rest && s.ops[o].pc != Gone { Extend(s, Drive(o)); }
      Alone(DriveStep(s, o), o, n - 1);
    }
  }

  /** The empty table of `n` slots. */
  function Empty(n: nat): State {
    State(seq(n, _ => KEY_EMPTY), seq(n, _ => None), 0, map[], multiset{})
  }

  function Posted(s: State, o: OpId, h: Word, nstaged: nat): State
    requires |s.key| > 0
  {
    SetOp(s, o, Op(h, Home(h, |s.key|), Nonblocking, true, nstaged, Running, Keep, None, None))
  }

  /** An operation that staged nothing, posted under request value h, complete, nulled, and not yet looked up. */
  lemma ReachPlain(n: nat, h: Word) returns (s: State)
    requires n > 0 && !Reserved(h)
    ensures Reached(s) && Shaped(s) && |s.key| == n && s.live == 0 && s.freed == multiset{0}
    ensures (forall p :: 0 <= p < n ==> s.key[p] == KEY_EMPTY) && s.ops.Keys == {0}
    ensures s.ops[0].handle == h && s.ops[0].home == Home(h, n) && s.ops[0].phase == Nulled && s.ops[0].pc == Check
  {
    var s0 := Empty(n);
    assert Run([s0], false);
    Extend(s0, Post(0, h, Nonblocking, true, 0, false));
    var s1 := Posted(s0, 0, h, 0);
    var k := KeepAlone(s1, 0);
    Alone(s1, 0, k);
    var s2 := Steps(s1, 0, k);
    Extend(s2, Finish(0));
    var s3 := Apply(s2, Finish(0));
    Extend(s3, Null(0));
    s := Apply(s3, Null(0));
  }

  /** No tombstone and no second entry is needed: in a table of any size -- the one the library compiles has 1024 slots
    * -- and for any request value, an operation that never had an entry, nulled but not yet looked up, frees the block
    * of the operation its value is reissued to. */
  lemma ReissueFreesLiveBlock(n: nat, h: Word)
    requires n > 0 && !Reserved(h)
    ensures exists tr: seq<State> :: Run(tr, false) && |tr[0].key| == n && A.FreesLive(tr[|tr| - 1])
  {
    var s0 := ReachPlain(n, h);
    Extend(s0, Post(1, h, Nonblocking, true, 1, false));
    var s1 := Posted(s0, 1, h, 1);
    assert T.AttachAt(s1.key, Home(h, n), h) == 0 by { assert s1.key[Slot(Home(h, n), n, 0)] == KEY_EMPTY; }
    var k := KeepAlone(s1, 1);
    Alone(s1, 1, k);
    var s2 := Steps(s1, 1, k);
    T.AttachThenRelease(s1.key, h);
    var m := ReleaseAlone(s2, 0);
    Alone(s2, 0, m);
    var s3 := Steps(s2, 0, m);
    var tr: seq<State> :| Run(tr, false) && tr[|tr| - 1] == s3 && |tr[0].key| == |s3.key|;
    assert 1 in s3.ops && Readable(s3.ops[1]) && s3.freed[1] == 1;
  }
}
