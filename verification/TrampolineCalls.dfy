/** What a creation finds in its trampoline pool: run alone, and in any interleaving
  * (src/mpiwrapper/callbacks.c:101-129, src/mpiwrapper/hw_callbacks.c:26-52). */
module TrampolineCalls {
  import opened Common
  import opened Trampolines

  // ---------------------------------------------------------------- a creation nobody interrupts

  predicate Ready(s: State, t: Tid) {
    t in s.at && (s.at[t].Try? || s.at[t].Undo?)
  }

  /** So many steps of thread t, and of no other. */
  function Steps(s: State, t: Tid, n: nat): State
    decreases n
  {
    if n == 0 || !Ready(s, t) then s else Steps(Apply(s, Step(t)), t, n - 1)
  }

  lemma Then(s: State, t: Tid, s1: State, n: nat)
    requires Ready(s, t) && s1 == Apply(s, Step(t))
    ensures Steps(s, t, n + 1) == Steps(s1, t, n)
  {
  }

  /** From slot i on: the first free slot is taken, and the pool is full exactly when there is none. */
  lemma {:induction false} AllocAlone(s: State, t: Tid) returns (n: nat, k: nat)
    requires t in s.at && s.at[t].Try? && s.at[t].i <= |s.fn|
    ensures s.at[t].i <= k <= |s.fn| && forall j :: s.at[t].i <= j < k ==> s.fn[j] != NULL
    ensures var u, fn := Steps(s, t, n), s.at[t].fn;
      if k < |s.fn| then s.fn[k] == NULL && u == s.(fn := s.fn[k := fn], at := s.at[t := Create(fn, k)])
      else u == s.(at := s.at[t := Exhausted])
    decreases |s.fn| - s.at[t].i
  {
    var i, fn, s1 := s.at[t].i, s.at[t].fn, Apply(s, Step(t));
    if i == |s.fn| || s.fn[i] == NULL {
      k := i;
      n := 0;
    } else {
      n, k := AllocAlone(s1, t);
      assert s1.at[t := Create(fn, k)] == s.at[t := Create(fn, k)] && s1.at[t := Exhausted] == s.at[t := Exhausted];
    }
    Then(s, t, s1, n);
    n := n + 1;
  }

  /** A creation that the implementation refuses leaves the pool as it was. */
  lemma FailureGivesBack(s: State, t: Tid, fn: Fn) returns (n: nat)
    requires t !in s.at && exists j :: 0 <= j < |s.fn| && s.fn[j] == NULL
    ensures var taken := Steps(Apply(s, Begin(t, fn)), t, n);
      Enabled(taken, Fail(t), false) && Steps(Apply(taken, Fail(t)), t, 1) == s.(at := s.at[t := Failed])
  {
    var s1 := Apply(s, Begin(t, fn));
    var k;
    n, k := AllocAlone(s1, t);
    var s2 := s.(fn := s.fn[k := fn], at := s.at[t := Create(fn, k)]);
    assert Steps(s1, t, n) == s2 by { assert s1.at[t := Create(fn, k)] == s2.at; }
    var s3 := s2.(at := s.at[t := Undo(k)]);
    assert s3 == Apply(s2, Fail(t)) by { assert s2.at[t := Undo(k)] == s3.at; }
    Then(s3, t, Apply(s3, Step(t)), 0);
    assert s.fn[k := fn][k := NULL] == s.fn && s3.at[t := Failed] == s.at[t := Failed];
  }

  // ---------------------------------------------------------------- a creation in any interleaving

  /** How many slots it has passed. */
  function Cursor(pc: Pc, n: nat): Option<nat> {
    match pc
    case Try(_, i) => Some(i)
    case Exhausted => Some(n)
    case _ => None
  }

  /** In some state since b slot k was taken. */
  ghost predicate TakenSince(tr: seq<State>, b: nat, i: nat, k: nat) {
    exists m :: b <= m <= i < |tr| && k < |tr[m].fn| && tr[m].fn[k] != NULL
  }

  /** Since state b thread t has been looking for a slot. */
  predicate During(tr: seq<State>, b: nat, i: nat, t: Tid) {
    && b <= i < |tr| && t in tr[b].at && tr[b].at[t].Try? && tr[b].at[t].i == 0
    && forall m :: b <= m <= i ==> t in tr[m].at && Cursor(tr[m].at[t], 0).Some?
  }

  /** One step passes at most a slot that is taken. */
  lemma StepPasses(s: State, a: Action, t: Tid, callable: bool)
    requires Enabled(s, a, callable) && t in Apply(s, a).at && Cursor(Apply(s, a).at[t], |s.fn|).Some?
    requires !(a.Begin? && a.t == t)
    ensures |Apply(s, a).fn| == |s.fn| && t in s.at && Cursor(s.at[t], |s.fn|).Some?
    ensures forall k: nat :: Cursor(s.at[t], |s.fn|).value <= k < Cursor(Apply(s, a).at[t], |s.fn|).value ==>
      k >= |s.fn| || s.fn[k] != NULL
  {
  }

  /** In every run: each slot before its cursor was taken in some state since the creation began; so the pool is
    * reported full only where every slot has been seen taken. */
  lemma {:induction false} Passed(tr: seq<State>, callable: bool, i: nat, t: Tid) returns (b: nat)
    requires Run(tr, callable) && i < |tr| && t in tr[i].at && Cursor(tr[i].at[t], |tr[i].fn|).Some?
    ensures During(tr, b, i, t)
    ensures forall k: nat {:trigger TakenSince(tr, b, i, k)} ::
      k < |tr[i].fn| && k < Cursor(tr[i].at[t], |tr[i].fn|).value ==> TakenSince(tr, b, i, k)
    decreases i
  {
    assert Next(tr[i - 1], tr[i - 1 + 1], callable);
    var s := tr[i - 1];
    var a :| Enabled(s, a, callable) && tr[i] == Apply(s, a);
    if a.Begin? && a.t == t {
      b := i;
    } else {
      StepPasses(s, a, t, callable);
      b := Passed(tr, callable, i - 1, t);
      forall k: nat {:trigger TakenSince(tr, b, i, k)} | k < |s.fn| && k < Cursor(tr[i].at[t], |s.fn|).value
        ensures TakenSince(tr, b, i, k)
      {
        if k < Cursor(s.at[t], |s.fn|).value { assert TakenSince(tr, b, i - 1, k); } else { assert s.fn[k] != NULL; }
      }
    }
  }
}
