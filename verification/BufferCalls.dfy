/** What the calls on the automatic-buffer table find: run alone, and in any interleaving
  * (src/mpiwrapper/buffers.c:81-127). */
module BufferCalls {
  import opened Common
  import opened AutoBuffers

  // ---------------------------------------------------------------- a call nobody interrupts

  predicate Ready(s: State, t: Tid) {
    |s.block| == |s.scope| && t in s.at && !Resting(s.at[t])
  }

  /** So many steps of thread t, and of no other. */
  function Steps(s: State, t: Tid, n: nat): State
    decreases n
  {
    if n == 0 || !Ready(s, t) then s else Steps(ThreadStep(s, t), t, n - 1)
  }

  lemma Then(s: State, t: Tid, s1: State, n: nat)
    requires Ready(s, t) && s1 == ThreadStep(s, t)
    ensures Steps(s, t, n + 1) == Steps(s1, t, n)
  {
  }

  predicate Carries(s: State, scope: Scope, k: nat)
    requires k < |s.scope| == |s.block|
  {
    s.scope[k] == scope && s.block[k].Some?
  }

  /** The block of slot k has been taken out of the table and freed by thread t. */
  predicate FreedFrom(s: State, u: State, t: Tid, scope: Scope, k: nat)
    requires k < |s.scope| == |s.block| && s.block[k].Some?
  {
    var b := s.block[k].value;
    && u.scope == s.scope[k := FREE] && u.block == s.block[k := None] && u.freed == s.freed + multiset{b}
    && u.at == s.at[t := Released(Some(b), scope)] && u.under == s.under
  }

  /** A release takes the first block claimed under its scope. */
  lemma TakeAlone(s: State, t: Tid) returns (n: nat)
    requires Ready(s, t) && s.at[t].Seek? && s.at[t].i < |s.scope| && Carries(s, s.at[t].scope, s.at[t].i)
    ensures FreedFrom(s, Steps(s, t, n), t, s.at[t].scope, s.at[t].i)
  {
    var s1 := ThreadStep(s, t);
    var s2 := ThreadStep(s1, t);
    var s3 := ThreadStep(s2, t);
    var s4 := ThreadStep(s3, t);
    Then(s3, t, s4, 0);
    Then(s2, t, s3, 1);
    Then(s1, t, s2, 2);
    Then(s, t, s1, 3);
    n := 4;
  }

  /** A slot that does not carry the scope, or no block, is passed. */
  lemma PassAlone(s: State, t: Tid, u: State, m: nat) returns (n: nat)
    requires Ready(s, t) && s.at[t].Seek? && s.at[t].i < |s.scope| && !Carries(s, s.at[t].scope, s.at[t].i)
    requires var i, scope := s.at[t].i, s.at[t].scope;
      u == Goto(s, t, if i + 1 < |s.scope| then Seek(scope, i + 1) else Released(None, scope))
    ensures Steps(s, t, n) == Steps(u, t, m)
  {
    var s1 := ThreadStep(s, t);
    if s1.at[t].Take? {
      assert ThreadStep(s1, t) == u;
      Then(s1, t, u, m);
      Then(s, t, s1, m + 1);
      n := m + 2;
    } else {
      Then(s, t, u, m);
      n := m + 1;
    }
  }

  /** Where the thread was in its search does not matter once it is over. */
  lemma FreedSince(s: State, u: State, t: Tid, pc: Pc, scope: Scope, k: nat)
    requires k < |s.scope| == |s.block| && s.block[k].Some? && FreedFrom(Goto(s, t, pc), u, t, scope, k)
    ensures FreedFrom(s, u, t, scope, k)
  {
    var b := s.block[k].value;
    assert s.at[t := pc][t := Released(Some(b), scope)] == s.at[t := Released(Some(b), scope)];
  }

  /** A release from slot i on: it frees the block of the first slot that carries its scope and a block, and answers
    * that there is none exactly when there is none. */
  lemma {:induction false} ReleaseAlone(s: State, t: Tid) returns (n: nat, k: nat)
    requires Ready(s, t) && s.at[t].Seek? && s.at[t].i < |s.scope|
    ensures s.at[t].i <= k <= |s.scope| && forall j :: s.at[t].i <= j < k ==> !Carries(s, s.at[t].scope, j)
    ensures if k < |s.scope| then Carries(s, s.at[t].scope, k) && FreedFrom(s, Steps(s, t, n), t, s.at[t].scope, k)
            else Steps(s, t, n) == Goto(s, t, Released(None, s.at[t].scope))
    decreases |s.scope| - s.at[t].i
  {
    var scope, i := s.at[t].scope, s.at[t].i;
    if Carries(s, scope, i) {
      k := i;
      n := TakeAlone(s, t);
    } else if i + 1 == |s.scope| {
      k := |s.scope|;
      n := PassAlone(s, t, Goto(s, t, Released(None, scope)), 0);
    } else {
      var u := Goto(s, t, Seek(scope, i + 1));
      var m;
      m, k := ReleaseAlone(u, t);
      n := PassAlone(s, t, u, m);
      forall j | i <= j < k ensures !Carries(s, scope, j) { assert j > i ==> !Carries(u, scope, j); }
      if k < |s.scope| {
        FreedSince(s, Steps(u, t, m), t, Seek(scope, i + 1), scope, k);
      } else {
        assert u.at[t := Released(None, scope)] == s.at[t := Released(None, scope)];
      }
    }
  }

  /** The block of a claim is in slot k, and nothing else has changed but its place. */
  predicate FilledAt(s: State, u: State, t: Tid, scope: Scope, b: Block, k: nat)
    requires k < |s.scope| == |s.block|
  {
    && u.scope == s.scope[k := scope] && u.block == s.block[k := Some(b)] && u.freed == s.freed
    && u.at == s.at[t := Claimed(Some(b))] && u.under == s.under
  }

  lemma FillAlone(s: State, t: Tid) returns (n: nat)
    requires Ready(s, t) && s.at[t].Scan? && s.at[t].i < |s.scope| && s.scope[s.at[t].i] == FREE
    ensures FilledAt(s, Steps(s, t, n), t, s.at[t].scope, s.at[t].b, s.at[t].i)
  {
    var s1 := ThreadStep(s, t);
    var s2 := ThreadStep(s1, t);
    Then(s1, t, s2, 0);
    Then(s, t, s1, 1);
    n := 2;
  }

  /** A claim from slot i on: it fills the first free slot, and frees its block and gives up exactly when there is
    * none. */
  lemma {:induction false} ClaimAlone(s: State, t: Tid) returns (n: nat, k: nat)
    requires Ready(s, t) && s.at[t].Scan? && s.at[t].i < |s.scope|
    ensures s.at[t].i <= k <= |s.scope| && forall j :: s.at[t].i <= j < k ==> s.scope[j] != FREE
    ensures var u := Steps(s, t, n);
      if k < |s.scope| then s.scope[k] == FREE && FilledAt(s, u, t, s.at[t].scope, s.at[t].b, k)
      else u.scope == s.scope && u.block == s.block && u.freed == s.freed + multiset{s.at[t].b}
           && u.at == s.at[t := Claimed(None)]
    decreases |s.scope| - s.at[t].i
  {
    var i, s1 := s.at[t].i, ThreadStep(s, t);
    if s.scope[i] == FREE {
      k := i;
      n := FillAlone(s, t);
    } else if i + 1 < |s.scope| {
      n, k := ClaimAlone(s1, t);
      Then(s, t, s1, n);
      n := n + 1;
    } else {
      k := |s.scope|;
      Then(s1, t, ThreadStep(s1, t), 0);
      Then(s, t, s1, 1);
      n := 2;
    }
  }

  // ---------------------------------------------------------------- a call in any interleaving

  /** How many slots a call has passed without success. */
  function Cursor(pc: Pc, n: nat): Option<nat> {
    match pc
    case Scan(_, _, i) => Some(i)
    case GiveUp(_) => Some(n)
    case Claimed(got) => if got.Some? then None else Some(n)
    case Seek(_, i) => Some(i)
    case Take(_, i) => Some(i)
    case Released(b, _) => if b.Some? then None else Some(n)
    case _ => None
  }

  predicate Begins(pc: Pc) {
    (pc.Scan? || pc.Seek?) && pc.i == 0
  }

  predicate Claiming(pc: Pc) {
    pc.Scan? || pc.GiveUp? || pc.Claimed?
  }

  predicate Looking(pc: Pc) {
    pc.Seek? || pc.Take? || pc.Released?
  }

  /** The same call, further on. */
  predicate Later(was: Pc, now: Pc) {
    if Claiming(now) then Claiming(was) else Looking(was) && Looking(now) && was.scope == now.scope
  }

  /** Slot k had nothing for the call: it was claimed, or did not carry the scope, or no block. */
  predicate Refused(s: State, pc: Pc, k: nat) {
    k < |s.scope| == |s.block|
    && if Claiming(pc) then s.scope[k] != FREE
       else Looking(pc) && (s.scope[k] != pc.scope || s.block[k] == None)
  }

  /** Since state b thread t has been in the call it is in at state i. */
  predicate During(tr: seq<State>, b: nat, i: nat, t: Tid) {
    && b <= i < |tr| && t in tr[i].at && (forall m :: b <= m <= i ==> t in tr[m].at && Later(tr[m].at[t], tr[i].at[t]))
    && Begins(tr[b].at[t])
  }

  lemma SizesStay(s: State, a: Action, d: Rule)
    requires |s.scope| == |s.block| && Enabled(s, a, d)
    ensures |Apply(s, a).scope| == |Apply(s, a).block| == |s.scope|
  {
  }

  /** A step of another thread leaves this one where it is. */
  lemma OtherStays(s: State, a: Action, d: Rule, t: Tid)
    requires |s.scope| == |s.block| && Enabled(s, a, d) && t != a.t && t in Apply(s, a).at
    ensures t in s.at && Apply(s, a).at[t] == s.at[t]
  {
  }

  /** And that in some state since then. */
  ghost predicate RefusedSince(tr: seq<State>, b: nat, i: nat, pc: Pc, k: nat) {
    exists m :: b <= m <= i < |tr| && Refused(tr[m], pc, k)
  }

  /** One step of the thread passes at most the slot it has just looked at. */
  lemma StepPasses(s: State, t: Tid)
    requires |s.scope| == |s.block| && t in s.at && !Resting(s.at[t])
    requires Cursor(ThreadStep(s, t).at[t], |s.scope|).Some?
    ensures var was, now, n := s.at[t], ThreadStep(s, t).at[t], |s.scope|;
      && Cursor(was, n).Some? && Later(was, now)
      && forall k: nat {:trigger Refused(s, now, k)} :: k < n && k < Cursor(now, n).value ==>
           k < Cursor(was, n).value || Refused(s, now, k)
  {
  }

  lemma LaterAll(was: Pc, now: Pc, pc: Pc)
    requires Later(was, now) && Later(pc, was)
    ensures Later(pc, now)
  {
  }

  /** The states since the call began, one more of them. */
  lemma OneMore(tr: seq<State>, b: nat, i: nat, t: Tid)
    requires 0 < i < |tr| && During(tr, b, i - 1, t) && t in tr[i].at && Later(tr[i - 1].at[t], tr[i].at[t])
    ensures During(tr, b, i, t)
    ensures forall k: nat {:trigger RefusedSince(tr, b, i, tr[i].at[t], k)} ::
      RefusedSince(tr, b, i - 1, tr[i - 1].at[t], k) || Refused(tr[i - 1], tr[i].at[t], k) ==>
        RefusedSince(tr, b, i, tr[i].at[t], k)
  {
    var was, now := tr[i - 1].at[t], tr[i].at[t];
    forall m | b <= m <= i ensures t in tr[m].at && Later(tr[m].at[t], now) {
      if m < i { LaterAll(was, now, tr[m].at[t]); }
    }
    forall k: nat {:trigger RefusedSince(tr, b, i, now, k)} | RefusedSince(tr, b, i - 1, was, k)
      ensures RefusedSince(tr, b, i, now, k)
    {
      var m :| b <= m <= i - 1 && Refused(tr[m], was, k);
      assert Refused(tr[m], now, k);
    }
  }

  /** In every run: a call has passed each slot before its cursor in some state, since it began, in which that slot had
    * nothing for it.  So a claim gives up only past slots that were all claimed when it tried them, and a release
    * answers that there is nothing only past slots that did not carry its scope or held no block. */
  lemma {:induction false} Passed(tr: seq<State>, d: Rule, i: nat, t: Tid) returns (b: nat)
    requires Run(tr, d) && i < |tr| && t in tr[i].at && Cursor(tr[i].at[t], |tr[i].scope|).Some?
    ensures During(tr, b, i, t)
    ensures forall k: nat {:trigger RefusedSince(tr, b, i, tr[i].at[t], k)} ::
      k < |tr[i].scope| && k < Cursor(tr[i].at[t], |tr[i].scope|).value ==> RefusedSince(tr, b, i, tr[i].at[t], k)
    decreases i
  {
    assert Next(tr[i - 1], tr[i - 1 + 1], d);
    var a :| Enabled(tr[i - 1], a, d) && tr[i] == Apply(tr[i - 1], a);
    if a.t == t && !a.Step? {
      b := i;
    } else {
      SizesStay(tr[i - 1], a, d);
      if a.t == t { StepPasses(tr[i - 1], t); } else { OtherStays(tr[i - 1], a, d, t); }
      b := Passed(tr, d, i - 1, t);
      OneMore(tr, b, i, t);
    }
  }
}
