/** A claim is safe exactly when no older holder of the value can still come to the claimed slot
  * (src/mpiwrapper/staging.c:94-132, 255-282). */
module StagedClaims {
  import opened Common
  import opened StagedKeys
  import opened StagedLifetime
  import opened StagedAlone
  import opened StagedAnyRun
  import T = StagedTable

  // `StagedAnyRun` has one direction: while every claim is clean, no block is freed that is still read.  Here is the
  // other: after a claim that is not clean, the claimer and one older holder, each running undisturbed, free the
  // claimer's block, with no further claim by anyone.

  // ---------------------------------------------------------------- what a claimer has seen

  /** The slots before an attach's cursor were in use, for other values; and so is the cursor's own, or it is free. */
  predicate Passed(s: State, o: OpId)
    requires Shaped(s) && o in s.ops && InTable(s, s.ops[o])
  {
    var op, n := s.ops[o], |s.key|;
    op.pc.Probe? || op.pc.Claim? ==>
      && (forall j | 0 <= j < op.pc.i ::
            s.key[Slot(op.home, n, j)] != KEY_EMPTY && s.key[Slot(op.home, n, j)] != op.handle)
      && (op.pc.Claim? ==>
            && s.key[Slot(op.home, n, op.pc.i)] != op.handle
            && (op.pc.seen == KEY_TOMB ==> s.key[Slot(op.home, n, op.pc.i)] != KEY_EMPTY))
  }

  ghost predicate AllPassed(s: State)
    requires Safe(s)
  {
    forall o {:trigger Passed(s, o)} | o in s.ops :: OpSafe(s, o) && Passed(s, o)
  }

  function ClaimedFor(op: Op): Word {
    if op.pc.Claim? then op.handle else KEY_TOMB
  }

  /** A step leaves no slot unused again, and writes no value but its own operation's. */
  lemma WritesOwn(s: State, o: OpId)
    requires Shaped(s) && o in s.ops && InTable(s, s.ops[o])
    ensures var t := DriveStep(s, o);
      forall q | 0 <= q < |s.key| :: t.key[q] != s.key[q] ==>
        t.key[q] == KEY_LOCKED || t.key[q] == KEY_TOMB || t.key[q] == ClaimedFor(s.ops[o])
  {
  }

  lemma OthersPassed(s: State, t: State, p: OpId, h: Word)
    requires Shaped(s) && Shaped(t) && |s.key| == |t.key| && p in s.ops && p in t.ops && s.ops[p] == t.ops[p]
    requires InTable(s, s.ops[p]) && Passed(s, p)
    requires !Reserved(s.ops[p].handle) && h != KEY_EMPTY
    requires s.ops[p].pc.Probe? || s.ops[p].pc.Claim? ==> s.ops[p].handle != h
    requires forall q | 0 <= q < |s.key| :: t.key[q] != s.key[q] ==>
      t.key[q] == KEY_LOCKED || t.key[q] == KEY_TOMB || t.key[q] == h
    ensures Passed(t, p)
  {
  }

  lemma SelfPassed(s: State, o: OpId)
    requires Shaped(s) && o in s.ops && OpSafe(s, o) && Passed(s, o) && InTable(DriveStep(s, o), DriveStep(s, o).ops[o])
    ensures Passed(DriveStep(s, o), o)
  {
  }

  lemma DrivePassed(s: State, o: OpId, p: OpId)
    requires Shaped(s) && o in s.ops && p in s.ops && OpSafe(s, o) && OpSafe(s, p) && Passed(s, p)
    requires o != p ==> PairSafe(s, o, p)
    requires InTable(DriveStep(s, o), DriveStep(s, o).ops[p])
    ensures Passed(DriveStep(s, o), p)
  {
    if p == o {
      SelfPassed(s, o);
    } else {
      WritesOwn(s, o);
      OthersPassed(s, DriveStep(s, o), p, ClaimedFor(s.ops[o]));
    }
  }

  lemma ActionPassed(s: State, a: Action)
    requires Safe(s) && AllPassed(s) && Enabled(s, a, false) && Safe(Apply(s, a))
    ensures AllPassed(Apply(s, a))
  {
    var t := Apply(s, a);
    forall p {:trigger Passed(t, p)} | p in t.ops ensures OpSafe(t, p) && Passed(t, p) {
      assert OpSafe(t, p);
      if p in s.ops {
        assert Passed(s, p) && OpSafe(s, p);
        if a.Drive? {
          assert OpSafe(s, a.o) && (a.o != p ==> PairSafe(s, a.o, p));
          DrivePassed(s, a.o, p);
        }
      }
    }
  }

  lemma {:induction false} RunPassed(tr: seq<State>, i: nat)
    requires CleanRun(tr) && i < |tr|
    ensures Safe(tr[i]) && AllPassed(tr[i])
  {
    CleanSafe(tr, i);
    if i > 0 {
      RunPassed(tr, i - 1);
      assert CleanNext(tr[i - 1], tr[i - 1 + 1]);
      var a :| Enabled(tr[i - 1], a, false) && Clean(tr[i - 1], a) && tr[i] == Apply(tr[i - 1], a);
      ActionPassed(tr[i - 1], a);
    }
  }

  // ---------------------------------------------------------------- continuations

  ghost predicate CleanChain(tr: seq<State>) {
    |tr| > 0 && forall i | 0 <= i < |tr| - 1 :: CleanNext(tr[i], tr[i + 1])
  }

  /** Clean steps lead from `s` to `t`. */
  ghost predicate Leads(s: State, t: State) {
    exists tr :: CleanChain(tr) && tr[0] == s && tr[|tr| - 1] == t
  }

  lemma Stays(s: State)
    ensures Leads(s, s)
  {
    assert CleanChain([s]) && [s][0] == s;
  }

  lemma OneMore(s: State, t: State, a: Action)
    requires Leads(s, t) && Shaped(t) && Enabled(t, a, false) && Clean(t, a)
    ensures Leads(s, Apply(t, a))
  {
    var tr :| CleanChain(tr) && tr[0] == s && tr[|tr| - 1] == t;
    var u := Apply(t, a);
    var tr' := tr + [u];
    assert CleanNext(t, u);
    forall i | 0 <= i < |tr'| - 1 ensures CleanNext(tr'[i], tr'[i + 1]) {
      if i + 1 < |tr| { assert CleanNext(tr[i], tr[i + 1]); }
    }
    assert tr'[0] == s && tr'[|tr'| - 1] == u;
  }

  /** One step of an operation that is past its claim, or has none to make. */
  lemma Drives(s: State, t: State, o: OpId)
    requires Leads(s, t) && Ready(t, o) && !t.ops[o].pc.Claim? && !t.ops[o].pc.Rest? && !t.ops[o].pc.Gone?
    ensures Leads(s, DriveStep(t, o))
  {
    OneMore(s, t, Drive(o));
  }

  /** A completion call left to itself claims nothing. */
  lemma {:induction false} Releases(s: State, t: State, p: OpId, n: nat)
    requires Leads(s, t) && p in t.ops
    requires var pc := t.ops[p].pc;
      pc.Check? || pc.Seek? || pc.Lock? || pc.Take? || pc.Uncount? || pc.Bury? || pc.Free? || pc.Gone?
    ensures Leads(s, Steps(t, p, n))
    decreases n
  {
    if n > 0 && Ready(t, p) {
      if t.ops[p].pc != Gone { Drives(s, t, p); }
      Releases(s, DriveStep(t, p), p, n - 1);
    }
  }

  /** Clean steps after the end of a clean run are a clean run again. */
  lemma Joined(tr: seq<State>, more: seq<State>)
    requires CleanRun(tr) && CleanChain(more) && more[0] == tr[|tr| - 1]
    ensures CleanRun(tr + more[1..])
  {
    var all := tr + more[1..];
    forall i | 0 <= i < |all| - 1 ensures CleanNext(all[i], all[i + 1]) {
      if i + 1 < |tr| {
        assert CleanNext(tr[i], tr[i + 1]);
      } else {
        assert CleanNext(more[i + 1 - |tr|], more[i + 1 - |tr| + 1]);
      }
    }
  }

  // ---------------------------------------------------------------- the claimer and one older holder

  /** The older holder's search is at or before slot `q`, where the claimer's block is, and nothing stops it on the
    * way. */
  predicate Ahead(s: State, o: OpId, p: OpId, i: nat)
  {
    && Homed(s, p) && o in s.ops && o != p && Readable(s.ops[o]) && i < |s.key|
    && var op, n := s.ops[p], |s.key|;
    && s.key[Slot(op.home, n, i)] == op.handle && s.block[Slot(op.home, n, i)] == Some(o)
    && (forall j | 0 <= j < i :: s.key[Slot(op.home, n, j)] != KEY_EMPTY && s.key[Slot(op.home, n, j)] != op.handle)
    && ((op.pc.Seek? && op.pc.i <= i) || op.pc == Lock(Slot(op.home, n, i)))
  }

  lemma FindsAhead(key: seq<Word>, home: nat, h: Word, k: nat, i: nat)
    requires home < |key| && k <= i < |key| && key[Slot(home, |key|, i)] == h
    requires forall j | 0 <= j < i :: key[Slot(home, |key|, j)] != KEY_EMPTY && key[Slot(home, |key|, j)] != h
    ensures T.ReleaseAt(key, home, h, k) == i
  {
    var d := T.ReleaseAt(key, home, h, k);
    assert T.At(key, home, i) == h;
  }

  lemma EndsLive(t: State, u: State, o: OpId, p: OpId, q: nat)
    requires Shaped(t) && o in t.ops && p in t.ops && o != p && Readable(t.ops[o])
    requires q < |t.key| && t.block[q] == Some(o) && Released(t, u, p, Some(q))
    ensures FreesLive(u)
  {
    assert u.ops[o] == t.ops[o] && u.freed[o] > 0;
  }

  /** It then frees that block. */
  lemma FreesAhead(s: State, t: State, o: OpId, p: OpId, i: nat) returns (u: State)
    requires Leads(s, t) && Ahead(t, o, p, i)
    ensures Leads(s, u) && FreesLive(u)
  {
    var n;
    var q := Slot(t.ops[p].home, |t.key|, i);
    if t.ops[p].pc.Seek? {
      FindsAhead(t.key, t.ops[p].home, t.ops[p].handle, t.ops[p].pc.i, i);
      n := ReleaseFrom(t, p, t.ops[p].pc.i);
    } else {
      n := FreeAlone(t, p, q);
    }
    u := Steps(t, p, n);
    Releases(s, t, p, n);
    EndsLive(t, u, o, p, q);
  }

  /** The claimer stores its block and counts it. */
  lemma Stores(s: State, t: State, o: OpId, q: nat) returns (u: State)
    requires Leads(s, t) && Ready(t, o) && t.ops[o].pc == Publish(q)
    ensures Leads(s, u) && u.key == t.key && u.block == t.block[q := Some(o)] && u.live == t.live + 1
    ensures u.ops == t.ops[o := t.ops[o].(pc := Rest, fate := Some(Stored))] && u.freed == t.freed
  {
    Drives(s, t, o);
    var t1 := DriveStep(t, o);
    Drives(s, t1, o);
    u := DriveStep(t1, o);
    assert u.ops == t.ops[o := t.ops[o].(pc := Rest, fate := Some(Stored))];
  }

  /** The older holder finds that something is kept: at once if so, and otherwise once the claimer's block is. */
  lemma Checks(s: State, t: State, o: OpId, p: OpId, q: nat) returns (u: State)
    requires Leads(s, t) && Ready(t, o) && t.ops[o].pc == Publish(q)
    requires Ready(t, p) && p != o && (t.ops[p].pc.Check? || t.ops[p].pc.Seek? || t.ops[p].pc.Lock?)
    ensures Leads(s, u) && u.key == t.key && u.block == t.block[q := Some(o)]
    ensures var pc := if t.ops[p].pc.Check? then Seek(0) else t.ops[p].pc;
      u.ops == t.ops[o := t.ops[o].(pc := Rest, fate := Some(Stored))][p := t.ops[p].(pc := pc)]
  {
    if t.ops[p].pc.Check? && t.live != 0 {
      Drives(s, t, p);
      u := Stores(s, DriveStep(t, p), o, q);
    } else if t.ops[p].pc.Check? {
      var t1 := Stores(s, t, o, q);
      Drives(s, t1, p);
      u := DriveStep(t1, p);
    } else {
      u := Stores(s, t, o, q);
    }
    assert u.ops == t.ops[o := t.ops[o].(pc := Rest, fate := Some(Stored))][p := u.ops[p]];
  }

  lemma PassedAhead(s: State, t: State, o: OpId, p: OpId, i: nat)
    requires Shaped(s) && o in s.ops && InTable(s, s.ops[o]) && s.ops[o].pc.Claim? && s.ops[o].pc.i == i
    requires Passed(s, o) && Homed(t, p) && p != o && |t.key| == |s.key|
    requires t.ops[p].home == s.ops[o].home && t.ops[p].handle == s.ops[o].handle
    requires o in t.ops && Readable(t.ops[o]) && Meets(t.ops[p], |t.key|, i) && !t.ops[p].pc.Check?
    requires var q := Slot(s.ops[o].home, |s.key|, i); t.key == s.key[q := s.ops[o].handle] && t.block[q] == Some(o)
    ensures Ahead(t, o, p, i)
  {
  }

  /** After a claim that is not clean, the claimer's block is freed while it is read. */
  lemma UncleanFrees(s: State, o: OpId) returns (u: State)
    requires Safe(s) && AllPassed(s) && !Clean(s, Drive(o))
    ensures Leads(DriveStep(s, o), u) && FreesLive(u)
  {
    var i, n := s.ops[o].pc.i, |s.key|;
    var p :| p in s.ops && p != o && s.ops[p].handle == s.ops[o].handle && Meets(s.ops[p], n, i);
    var t, q := DriveStep(s, o), Slot(s.ops[o].home, n, i);
    assert Passed(s, o) && OpSafe(s, o) && OpSafe(s, p);
    Stays(t);
    var t1 := Checks(t, t, o, p, q);
    PassedAhead(s, t1, o, p, i);
    u := FreesAhead(t, t1, o, p, i);
  }

  // ---------------------------------------------------------------- exactly

  /** Clean steps from a state of a clean run free no block that is still read. */
  lemma CleanOnward(tr: seq<State>, k: nat, u: State)
    requires CleanRun(tr) && k < |tr| && Leads(tr[k], u)
    ensures !FreesLive(u)
  {
    var more :| CleanChain(more) && more[0] == tr[k] && more[|more| - 1] == u;
    var past := tr[..k + 1];
    assert CleanRun(past) by {
      forall i | 0 <= i < |past| - 1 ensures CleanNext(past[i], past[i + 1]) { assert CleanNext(tr[i], tr[i + 1]); }
    }
    Joined(past, more);
    var all := past + more[1..];
    assert all[|all| - 1] == u;
    forall b | b in u.ops && Readable(u.ops[b]) ensures u.freed[b] == 0 { SafeWhileClean(all, |all| - 1, b); }
  }

  /** One claim, in any state a clean run reaches: it is clean if and only if no clean continuation frees a block that
    * is still read. */
  lemma SafeExactlyWhenClean(tr: seq<State>, o: OpId)
    requires CleanRun(tr) && Enabled(tr[|tr| - 1], Drive(o), false) && tr[|tr| - 1].ops[o].pc.Claim?
    ensures Shaped(tr[|tr| - 1])
    ensures Clean(tr[|tr| - 1], Drive(o)) <==>
            forall u :: Leads(DriveStep(tr[|tr| - 1], o), u) ==> !FreesLive(u)
  {
    var s := tr[|tr| - 1];
    RunPassed(tr, |tr| - 1);
    var t := DriveStep(s, o);
    if Clean(s, Drive(o)) {
      assert CleanNext(s, t) by { assert t == Apply(s, Drive(o)); }
      assert CleanChain([s, t]);
      Joined(tr, [s, t]);
      var next := tr + [s, t][1..];
      assert next[|tr|] == t;
      forall u | Leads(t, u) ensures !FreesLive(u) { CleanOnward(next, |tr|, u); }
    } else {
      var u := UncleanFrees(s, o);
    }
  }

  lemma CleanOrNot(tr: seq<State>, t: State)
    requires CleanRun(tr) && Next(tr[|tr| - 1], t, false)
    ensures CleanRun(tr + [t]) || exists u :: Leads(t, u) && FreesLive(u)
  {
    var s := tr[|tr| - 1];
    var a :| Enabled(s, a, false) && t == Apply(s, a);
    if Clean(s, a) {
      assert CleanNext(s, t) && [s, t][1..] == [t];
      Joined(tr, [s, t]);
    } else {
      RunPassed(tr, |tr| - 1);
      var u := UncleanFrees(s, a.o);
    }
  }

  lemma {:induction false} FirstUnclean(tr: seq<State>, n: nat)
    requires Run(tr, false) && 0 < n <= |tr|
    ensures CleanRun(tr[..n]) || exists k, u :: 0 <= k < n && Leads(tr[k], u) && FreesLive(u)
  {
    if n > 1 {
      FirstUnclean(tr, n - 1);
      if CleanRun(tr[..n - 1]) {
        assert Next(tr[n - 2], tr[n - 2 + 1], false);
        CleanOrNot(tr[..n - 1], tr[n - 1]);
        assert tr[..n - 1] + [tr[n - 1]] == tr[..n];
      }
    }
  }

  /** A whole run, any run: it is clean if and only if from none of its states clean steps lead to the freeing of a
    * block that is still read. */
  lemma CleanExactly(tr: seq<State>)
    requires Run(tr, false)
    ensures CleanRun(tr) <==> forall k, u :: 0 <= k < |tr| && Leads(tr[k], u) ==> !FreesLive(u)
  {
    if CleanRun(tr) {
      forall k, u | 0 <= k < |tr| && Leads(tr[k], u) ensures !FreesLive(u) { CleanOnward(tr, k, u); }
    } else {
      FirstUnclean(tr, |tr|);
      assert tr[..|tr|] == tr;
    }
  }
}
