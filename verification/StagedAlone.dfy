/** The two views of the request table are one: the steps of a thread that nobody interrupts are the whole calls
  * (src/mpiwrapper/staging.c:94-132, 208-282). */
module StagedAlone {
  import opened Common
  import opened StagedKeys
  import opened StagedLifetime
  import T = StagedTable

  predicate Ready(s: State, o: OpId) {
    Shaped(s) && o in s.ops && InTable(s, s.ops[o])
  }

  /** So many steps of the thread driving `o`, and of no other. */
  function Steps(s: State, o: OpId, n: nat): State
    decreases n
  {
    if n == 0 || !Ready(s, o) then s else Steps(DriveStep(s, o), o, n - 1)
  }

  /** One step and then so many more. */
  lemma Then(s: State, o: OpId, s1: State, n: nat)
    requires Ready(s, o) && s1 == DriveStep(s, o)
    ensures Steps(s, o, n + 1) == Steps(s1, o, n)
  {
  }

  predicate Homed(s: State, o: OpId) {
    Ready(s, o) && s.ops[o].home == Home(s.ops[o].handle, |s.key|) && !Reserved(s.ops[o].handle)
  }

  /** The block of `o` in the table, and its poster at rest. */
  function Entered(s: State, o: OpId, p: nat, i: nat): State
    requires o in s.ops && p < |s.key| == |s.block|
  {
    var op := s.ops[o];
    SetOp(s.(key := s.key[p := op.handle], block := s.block[p := Some(o)], live := s.live + 1), o,
          op.(pc := Rest, fate := Some(Stored), at := Some(i)))
  }

  lemma StoreAlone(s: State, o: OpId, i: nat) returns (n: nat)
    requires Homed(s, o) && s.ops[o].pc == Probe(i) && StagedKeys.Free(s.key[Slot(s.ops[o].home, |s.key|, i)])
    ensures Steps(s, o, n) == Entered(s, o, Slot(s.ops[o].home, |s.key|, i), i)
  {
    var op := s.ops[o];
    var p := Slot(op.home, |s.key|, i);
    var s1 := SetOp(s, o, op.(pc := Claim(i, s.key[p])));
    var s2 := SetOp(s1.(key := s.key[p := op.handle]), o, op.(pc := Publish(p), at := Some(i)));
    var s3 := SetOp(s2.(block := s.block[p := Some(o)]), o, op.(pc := Count(p), at := Some(i)));
    var s4 := SetOp(s3.(live := s.live + 1), o, op.(pc := Rest, fate := Some(Stored), at := Some(i)));
    assert DriveStep(s, o) == s1 && DriveStep(s1, o) == s2 && DriveStep(s2, o) == s3 && DriveStep(s3, o) == s4;
    Then(s3, o, s4, 0);
    Then(s2, o, s3, 1);
    Then(s1, o, s2, 2);
    Then(s, o, s1, 3);
    assert s4 == Entered(s, o, p, i);
    n := 4;
  }

  /** The fate of an attach as the two views name it. */
  predicate SameFate(f: Fate, g: T.AttachFate) {
    match g
    case Stored => f == Stored
    case Duplicate => f == Duplicate
    case Full => f == Full
  }

  /** From probe i on: what the whole call does from there. */
  lemma {:induction false} AttachFrom(s: State, o: OpId, i: nat) returns (n: nat)
    requires Homed(s, o) && s.ops[o].pc == Probe(i)
    ensures var op, t := s.ops[o], Steps(s, o, n);
      var d := T.AttachAt(s.key, op.home, op.handle, i);
      if d == |s.key| then t == Settle(s, o, op, Full)
      else if T.At(s.key, op.home, d) == op.handle then t == Settle(s, o, op, Duplicate)
      else t == Entered(s, o, Slot(op.home, |s.key|, d), d)
    decreases |s.key| - i
  {
    var op := s.ops[o];
    var k := s.key[Slot(op.home, |s.key|, i)];
    if StagedKeys.Free(k) {
      n := StoreAlone(s, o, i);
    } else {
      var s1 := DriveStep(s, o);
      if k == op.handle || i + 1 == |s.key| {
        n := 1;
        Then(s, o, s1, 0);
      } else {
        n := AttachFrom(s1, o, i + 1);
        Then(s, o, s1, n);
        n := n + 1;
        NextProbe(s, o, i);
      }
    }
  }

  lemma NextProbe(s: State, o: OpId, i: nat)
    requires Homed(s, o) && s.ops[o].pc == Probe(i) && i + 1 < |s.key|
    ensures var s1 := SetOp(s, o, s.ops[o].(pc := Probe(i + 1)));
      && Settle(s1, o, s1.ops[o], Full) == Settle(s, o, s.ops[o], Full)
      && Settle(s1, o, s1.ops[o], Duplicate) == Settle(s, o, s.ops[o], Duplicate)
      && forall p: nat, d: nat :: p < |s.key| ==> Entered(s1, o, p, d) == Entered(s, o, p, d)
  {
  }

  /** Keeping a block without interruption: it is dropped if nothing was staged or a nonblocking operation is complete,
    * and otherwise the table's whole call decides its fate and leaves the table as it says. */
  lemma KeepAlone(s: State, o: OpId) returns (n: nat)
    requires Homed(s, o) && s.ops[o].pc == Keep
    ensures var op, t := s.ops[o], Steps(s, o, n);
      && o in t.ops && t.ops[o] == op.(pc := Rest, fate := t.ops[o].fate, at := t.ops[o].at) && t.ops[o].fate.Some?
      && t.ops == s.ops[o := t.ops[o]] && t.live == s.live + (if t.ops[o].fate == Some(Stored) then 1 else 0)
      && if op.nstaged == 0 || (op.kind == Nonblocking && op.phase == Complete) then
           t.ops[o].fate == Some(Dropped) && t.key == s.key && t.block == s.block && t.freed == s.freed + multiset{o}
         else
           && SameFate(t.ops[o].fate.value, T.Fate(s.key, op.handle)) && t.key == T.Attached(s.key, op.handle)
           && t.block == (if t.ops[o].fate == Some(Stored) then s.block[T.Taken(s.key, op.handle) := Some(o)]
                         else s.block)
           && t.freed == s.freed
  {
    var op, s1 := s.ops[o], DriveStep(s, o);
    if op.nstaged == 0 || (op.kind == Nonblocking && op.phase == Complete) {
      n := 1;
      Then(s, o, s1, 0);
    } else {
      n := AttachFrom(s1, o, 0);
      Then(s, o, s1, n);
      n := n + 1;
    }
  }

  /** A release by `o` that found the entry in slot p, or none, is over. */
  predicate Released(s: State, t: State, o: OpId, f: Option<nat>)
    requires o in s.ops && (f.Some? ==> f.value < |s.key| == |s.block|)
  {
    t.ops == s.ops[o := s.ops[o].(pc := Gone)]
    && match f
       case None => t.key == s.key && t.block == s.block && t.live == s.live && t.freed == s.freed
       case Some(p) =>
         && t.key == s.key[p := KEY_TOMB] && t.block == s.block[p := None] && t.live == s.live - 1
         && t.freed == FreeBlock(s, s.block[p]).freed
  }

  /** The second half of a release: the block is out of the table. */
  lemma BuryAlone(s: State, o: OpId, p: nat, b: Option<OpId>) returns (n: nat)
    requires Ready(s, o) && p < |s.key| && s.ops[o].pc == Uncount(p, b)
    ensures var t := Steps(s, o, n);
      && t.ops == s.ops[o := s.ops[o].(pc := Gone)] && t.key == s.key[p := KEY_TOMB] && t.block == s.block
      && t.live == s.live - 1
      && t.freed == FreeBlock(s, b).freed
  {
    var op := s.ops[o];
    var s1 := SetOp(s.(live := s.live - 1), o, op.(pc := Bury(p, b)));
    var s2 := SetOp(s1.(key := s.key[p := KEY_TOMB]), o, op.(pc := Pc.Free(b)));
    var s3 := SetOp(FreeBlock(s2, b), o, op.(pc := Gone));
    assert DriveStep(s, o) == s1 && DriveStep(s1, o) == s2 && DriveStep(s2, o) == s3;
    Then(s2, o, s3, 0);
    Then(s1, o, s2, 1);
    Then(s, o, s1, 2);
    n := 3;
  }

  lemma FreeAlone(s: State, o: OpId, p: nat) returns (n: nat)
    requires Ready(s, o) && p < |s.key| && s.ops[o].pc == Lock(p) && s.key[p] == s.ops[o].handle
    ensures Released(s, Steps(s, o, n), o, Some(p))
  {
    var op, b := s.ops[o], s.block[p];
    var s1 := SetOp(s.(key := s.key[p := KEY_LOCKED]), o, op.(pc := Take(p)));
    var s2 := SetOp(s1.(block := s.block[p := None]), o, op.(pc := Uncount(p, b)));
    assert DriveStep(s, o) == s1 && DriveStep(s1, o) == s2;
    n := BuryAlone(s2, o, p, b);
    Then(s1, o, s2, n);
    Then(s, o, s1, n + 1);
    n := n + 2;
    assert s1.key[p := KEY_TOMB] == s.key[p := KEY_TOMB];
  }

  function FoundFrom(s: State, op: Op, i: nat): (f: Option<nat>)
    requires Shaped(s) && op.home < |s.key| && i <= |s.key|
    ensures f.Some? ==> f.value < |s.key|
  {
    var d := T.ReleaseAt(s.key, op.home, op.handle, i);
    if d < |s.key| && T.At(s.key, op.home, d) == op.handle then Some(Slot(op.home, |s.key|, d)) else None
  }

  /** One look at a slot: the entry, the end, or the next probe. */
  lemma SeekOnce(s: State, o: OpId, i: nat)
    requires Homed(s, o) && s.ops[o].pc == Seek(i)
    ensures var op, f := s.ops[o], FoundFrom(s, s.ops[o], i);
      var p := Slot(op.home, |s.key|, i);
      if s.key[p] == op.handle then DriveStep(s, o) == SetOp(s, o, op.(pc := Lock(p))) && f == Some(p)
      else if s.key[p] == KEY_EMPTY || i + 1 == |s.key| then
        DriveStep(s, o) == SetOp(s, o, op.(pc := Gone)) && f == None
      else DriveStep(s, o) == SetOp(s, o, op.(pc := Seek(i + 1))) && f == FoundFrom(s, op, i + 1)
  {
  }

  /** Where the thread was in its search does not matter once it is over. */
  lemma ReleasedSince(s: State, t: State, o: OpId, pc: Pc, f: Option<nat>)
    requires Shaped(s) && o in s.ops && (f.Some? ==> f.value < |s.key|)
    requires Released(SetOp(s, o, s.ops[o].(pc := pc)), t, o, f)
    ensures Released(s, t, o, f)
  {
    var s1 := SetOp(s, o, s.ops[o].(pc := pc));
    assert s1.ops[o := s1.ops[o].(pc := Gone)] == s.ops[o := s.ops[o].(pc := Gone)];
  }

  /** From probe i on: the release finds the entry a whole call would find, or none. */
  lemma {:induction false} ReleaseFrom(s: State, o: OpId, i: nat) returns (n: nat)
    requires Homed(s, o) && s.ops[o].pc == Seek(i)
    ensures Released(s, Steps(s, o, n), o, FoundFrom(s, s.ops[o], i))
    decreases |s.key| - i
  {
    var op, f, s1 := s.ops[o], FoundFrom(s, s.ops[o], i), DriveStep(s, o);
    var p := Slot(op.home, |s.key|, i);
    SeekOnce(s, o, i);
    if s.key[p] == op.handle {
      n := FreeAlone(s1, o, p);
    } else if s.key[p] == KEY_EMPTY || i + 1 == |s.key| {
      n := 0;
    } else {
      n := ReleaseFrom(s1, o, i + 1);
    }
    Then(s, o, s1, n);
    ReleasedSince(s, Steps(s1, o, n), o, s1.ops[o].pc, f);
    n := n + 1;
  }

  /** Releasing without interruption is the table's whole call. */
  lemma ReleaseAlone(s: State, o: OpId) returns (n: nat)
    requires Homed(s, o) && s.ops[o].pc == Check
    ensures Released(s, Steps(s, o, n), o,
                     if s.live == 0 then None else T.Found(s.key, s.ops[o].home, s.ops[o].handle))
  {
    var s1 := DriveStep(s, o);
    if s.live == 0 {
      n := 0;
    } else {
      n := ReleaseFrom(s1, o, 0);
    }
    Then(s, o, s1, n);
    n := n + 1;
  }
}
