/** The two views of the error-code registry are one: the steps of a thread that nobody interrupts are the whole calls
  * of `ErrorCodes` (src/mpiwrapper/errorcodes.c:87-161). */
module ErrorAlone {
  import opened Common
  import opened ErrorRegistry
  import C = ErrorCodes

  predicate Ready(s: State, t: Tid) {
    t in s.at && !Resting(s.at[t])
  }

  /** So many steps of thread t, and of no other. */
  function Steps(s: State, t: Tid, n: nat): State
    decreases n
  {
    if n == 0 || !Ready(s, t) then s else Steps(ThreadStep(s, t), t, n - 1)
  }

  lemma Then(s: State, t: Tid, s1: State, n: nat)
    requires Ready(s, t) && s1 == ThreadStep(s, t)
    ensures Steps(s, t, n + 1) == Steps(s1, t, n)
  {
  }

  /** The slots in use. */
  function Codes(s: State): seq<int> {
    s.impl[..Used(s)]
  }

  /** The code a call has answered; `other` stands for MPI_ERR_OTHER. */
  function Answer(pc: Pc, other: int): Option<int> {
    match pc
    case Found(_, slot, _) => Some(C.BASE + slot)
    case Added(_, got, _) => Some(if got.Some? then C.BASE + got.value else other)
    case Converted(answer, _) => Some(answer.UnwrapOr(other))
    case Last(used, _) => Some(if used > 0 then C.BASE + used - 1 else C.ERR_LASTCODE)
    case _ => None
  }

  /** errorcode_add: the next slot, or none. */
  lemma AddAlone(s: State, t: Tid, other: int) returns (n: nat)
    requires t in s.at && s.at[t].Claim?
    ensures var u, e := Steps(s, t, n), s.at[t].e;
      && t in u.at
      && if |Codes(s)| < |s.impl| then
           Answer(u.at[t], other) == Some(C.BASE + |Codes(s)|) && Codes(u) == Codes(s) + [e] && u.at[t].Added?
         else
           Answer(u.at[t], other) == Some(other) && Codes(u) == Codes(s) && u.at[t].Added?
  {
    var s1 := ThreadStep(s, t);
    var s2 := ThreadStep(s1, t);
    Then(s1, t, s2, 0);
    Then(s, t, s1, 1);
    n := 2;
  }

  /** The lookup of `e` that began in s has ended in u as the whole call does. */
  predicate LookedUp(s: State, u: State, t: Tid, p: C.Predefined, e: int)
    requires C.Switches(p)
  {
    && t in u.at && Answer(u.at[t], p.abi[p.other]).Some?
    && (Answer(u.at[t], p.abi[p.other]).value, Codes(u)) == C.DynamicToAbi(p, Codes(s), |s.impl|, e)
  }

  /** Not found: a new slot, or none. */
  lemma InternAlone(s: State, t: Tid, p: C.Predefined) returns (n: nat)
    requires C.Switches(p) && t in s.at && s.at[t].Claim? && s.at[t].e != SUCCESS
    requires C.Newest(Codes(s), s.at[t].e) == None
    ensures LookedUp(s, Steps(s, t, n), t, p, s.at[t].e)
  {
    n := AddAlone(s, t, p.abi[p.other]);
  }

  /** One look at a slot. */
  lemma LookOnce(s: State, t: Tid)
    requires t in s.at && s.at[t].Scan? && 0 < s.at[t].k <= Used(s)
    ensures var (e, k, due, u) := (s.at[t].e, s.at[t].k, s.at[t].due, ThreadStep(s, t));
      && u.impl == s.impl && u.count == s.count && u.at == s.at[t := u.at[t]]
      && u.at[t] == (if s.impl[k - 1] == e then Found(e, k - 1, due)
                     else if k == 1 then Claim(e, due) else Scan(e, k - 1, due))
  {
  }

  /** The scan from slot k - 1 downwards, and what follows it. */
  lemma {:induction false} ScanAlone(s: State, t: Tid, p: C.Predefined) returns (n: nat)
    requires C.Switches(p) && t in s.at && s.at[t].Scan? && 0 < s.at[t].k <= Used(s) && s.at[t].e != SUCCESS
    requires C.Newest(Codes(s), s.at[t].e) == C.Newest(s.impl[..s.at[t].k], s.at[t].e)
    ensures LookedUp(s, Steps(s, t, n), t, p, s.at[t].e)
    decreases s.at[t].k
  {
    var e, k, s1 := s.at[t].e, s.at[t].k, ThreadStep(s, t);
    C.NewestStep(s.impl, e, k - 1);
    LookOnce(s, t);
    assert Codes(s1) == Codes(s);
    if s.impl[k - 1] == e {
      n := 0;
    } else if k == 1 {
      assert s.impl[..0] == [];
      n := InternAlone(s1, t, p);
    } else {
      n := ScanAlone(s1, t, p);
    }
    Then(s, t, s1, n);
    n := n + 1;
  }

  /** errorcode_dynamic_toabi: the newest slot that holds the code, or a new one, or none. */
  lemma ToAbiAlone(s: State, t: Tid, p: C.Predefined) returns (n: nat)
    requires C.Switches(p) && t in s.at && s.at[t].ToLoad? && s.at[t].e != SUCCESS
    ensures LookedUp(s, Steps(s, t, n), t, p, s.at[t].e)
  {
    var s1 := ThreadStep(s, t);
    assert Codes(s1) == Codes(s);
    if Used(s) == 0 {
      assert Codes(s) == [];
      n := InternAlone(s1, t, p);
    } else {
      n := ScanAlone(s1, t, p);
    }
    Then(s, t, s1, n);
    n := n + 1;
  }

  /** errorcode_dynamic_fromabi: the code in the slot, or MPI_ERR_OTHER. */
  lemma FromAbiAlone(s: State, t: Tid, p: C.Predefined) returns (n: nat)
    requires C.Switches(p) && t in s.at && s.at[t].FromLoad?
    ensures var u := Steps(s, t, n);
      && t in u.at && Codes(u) == Codes(s)
      && Answer(u.at[t], p.impl[p.other]) == Some(C.DynamicFromAbi(p, Codes(s), |s.impl|, C.BASE + s.at[t].code))
  {
    var s1 := ThreadStep(s, t);
    if s1.at[t].FromRead? {
      Then(s1, t, ThreadStep(s1, t), 0);
      n := 1;
    } else {
      n := 0;
    }
    Then(s, t, s1, n);
    n := n + 1;
  }

  /** errorcode_lastused */
  lemma LastUsedAlone(s: State, t: Tid, other: int) returns (n: nat)
    requires t in s.at && s.at[t].LastLoad?
    ensures var u := Steps(s, t, n);
      t in u.at && Codes(u) == Codes(s) && Answer(u.at[t], other) == Some(C.LastUsedOf(Codes(s)))
  {
    Then(s, t, ThreadStep(s, t), 0);
    n := 1;
  }
}
