/** The dynamic error-code registry under any interleaving of atomic steps (src/mpiwrapper/errorcodes.c:87-161). */
module ErrorRegistry {
  import opened Common

  // Any number of threads.  Slots count up from an ABI base; slot `s` is the code `base + s`.

  type Tid = nat

  const SUCCESS := 0

  /** The least a lookup that began now may answer: the newest registration of the code that has been returned. */
  type Due = Option<nat>

  datatype Pc =
    | Claim(e: int, due: Due)                  // errorcode_add: about to fetch_add
    | Clamp(e: int, due: Due)                  // the table was full: about to store SLOTS
    | Publish(slot: nat, e: int, due: Due)     // about to store the code
    | Added(e: int, got: Option<nat>, due: Due)           // the result of an add, or of a toabi that interned
    | ToLoad(e: int, due: Due)                 // dynamic_toabi: about to load the counter
    | Scan(e: int, k: nat, due: Due)           // about to load slot k - 1
    | Found(e: int, slot: nat, due: Due)
    | FromLoad(code: int, want: Option<int>)   // dynamic_fromabi: about to load the counter
    | FromRead(slot: nat, want: Option<int>)
    | Converted(answer: Option<int>, want: Option<int>)   // None is MPI_ERR_OTHER
    | LastLoad(bound: nat)                     // errorcode_lastused
    | Last(used: nat, bound: nat)

  /** `claims` counts how often each slot was issued; `returned` holds every slot some call has answered with, and
    * the code it answered for; `high` is one past the highest of those slots. */
  datatype State = State(count: nat, impl: seq<int>, at: map<Tid, Pc>,
                         claims: multiset<nat>, returned: set<(nat, int)>, high: nat)

  datatype Action =
    | Add(t: Tid, e: int) | ToAbi(t: Tid, e: int, due: Due) | FromAbi(t: Tid, code: int, want: Option<int>)
    | LastUsed(t: Tid) | Step(t: Tid) | Leave(t: Tid)

  predicate Initial(s: State) {
    s.count == 0 && (forall k :: 0 <= k < |s.impl| ==> s.impl[k] == 0)
    && s.at == map[] && s.claims == multiset{} && s.returned == {} && s.high == 0
  }

  predicate Resting(pc: Pc) {
    pc.Added? || pc.Found? || pc.Converted? || pc.Last?
  }

  predicate Enabled(s: State, a: Action) {
    match a
    case Add(t, e) => t !in s.at && e != SUCCESS
    case ToAbi(t, e, due) => t !in s.at && e != SUCCESS && (due.Some? ==> (due.value, e) in s.returned)
    case FromAbi(t, code, want) => t !in s.at && (want.Some? ==> code >= 0 && (code, want.value) in s.returned)
    case LastUsed(t) => t !in s.at
    case Step(t) => t in s.at && !Resting(s.at[t])
    case Leave(t) => t in s.at && Resting(s.at[t])
  }

  function Used(s: State): nat {
    Min(s.count, |s.impl|)
  }

  function Goto(s: State, t: Tid, pc: Pc): State {
    s.(at := s.at[t := pc])
  }

  function Return(s: State, t: Tid, pc: Pc, slot: nat, e: int): State {
    Goto(s, t, pc).(returned := s.returned + {(slot, e)}, high := if s.high <= slot then slot + 1 else s.high)
  }

  /** One atomic step of thread t. */
  function ThreadStep(s: State, t: Tid): State
    requires t in s.at
  {
    match s.at[t]
    case Claim(e, due) =>
      var s' := s.(count := s.count + 1);
      if s.count >= |s.impl| then Goto(s', t, Clamp(e, due))
      else Goto(s'.(claims := s.claims + multiset{s.count}), t, Publish(s.count, e, due))
    case Clamp(e, due) => Goto(s.(count := |s.impl|), t, Added(e, None, due))
    case Publish(slot, e, due) =>
      if slot < |s.impl| then Return(s.(impl := s.impl[slot := e]), t, Added(e, Some(slot), due), slot, e) else s
    case ToLoad(e, due) => Goto(s, t, if Used(s) == 0 then Claim(e, due) else Scan(e, Used(s), due))
    case Scan(e, k, due) =>
      if 0 < k <= |s.impl| && s.impl[k - 1] == e then Return(s, t, Found(e, k - 1, due), k - 1, e)
      else Goto(s, t, if k <= 1 then Claim(e, due) else Scan(e, k - 1, due))
    case FromLoad(code, want) =>
      Goto(s, t, if code < 0 || code >= s.count || code >= |s.impl| then Converted(None, want)
        else FromRead(code, want))
    case FromRead(slot, want) =>
      Goto(s, t, Converted(if slot < |s.impl| then Some(s.impl[slot]) else None, want))
    case LastLoad(bound) => Goto(s, t, Last(Used(s), bound))
    case _ => s
  }

  function Apply(s: State, a: Action): State
    requires a.Step? || a.Leave? ==> a.t in s.at
  {
    match a
    case Add(t, e) => Goto(s, t, Claim(e, None))
    case ToAbi(t, e, due) => Goto(s, t, ToLoad(e, due))
    case FromAbi(t, code, want) => Goto(s, t, FromLoad(code, want))
    case LastUsed(t) => Goto(s, t, LastLoad(s.high))
    case Step(t) => ThreadStep(s, t)
    case Leave(t) => s.(at := s.at - {t})
  }

  ghost predicate Next(s: State, s': State) {
    exists a :: Enabled(s, a) && s' == Apply(s, a)
  }

  ghost predicate Run(tr: seq<State>) {
    |tr| > 0 && Initial(tr[0]) && forall i :: 0 <= i < |tr| - 1 ==> Next(tr[i], tr[i + 1])
  }

  // ---------------------------------------------------------------- the invariant

  function Clampers(at: map<Tid, Pc>): set<Tid> {
    set t | t in at && at[t].Clamp?
  }

  predicate SlotInv(s: State, k: nat) {
    && s.claims[k] == (if k < Used(s) then 1 else 0)
    && (Used(s) <= k < |s.impl| ==> s.impl[k] == 0)
  }

  predicate ReturnedInv(s: State, r: (nat, int)) {
    r.0 < Used(s) && s.impl[r.0] == r.1 && r.1 != SUCCESS && r.0 < s.high
  }

  predicate DueInv(s: State, e: int, due: Due, k: nat) {
    due.Some? ==> due.value < k && (due.value, e) in s.returned
  }

  predicate ThreadInv(s: State, t: Tid)
    requires t in s.at
  {
    match s.at[t]
    case Claim(e, due) => e != SUCCESS && due == None
    case Clamp(_, due) => s.count >= |s.impl| && due == None
    case Publish(slot, e, due) => slot < Used(s) && s.impl[slot] == 0 && e != SUCCESS && due == None
    case Added(e, got, due) => (if got.Some? then (got.value, e) in s.returned else s.count >= |s.impl|) && due == None
    case ToLoad(e, due) => e != SUCCESS && DueInv(s, e, due, Used(s))
    case Scan(e, k, due) => e != SUCCESS && 0 < k <= Used(s) && DueInv(s, e, due, k)
    case Found(e, slot, due) => (slot, e) in s.returned && (due.Some? ==> due.value <= slot)
    case FromLoad(code, want) => want.Some? ==> code >= 0 && (code, want.value) in s.returned
    case FromRead(slot, want) => slot < Used(s) && (want.Some? ==> (slot, want.value) in s.returned)
    case Converted(answer, want) => want.Some? ==> answer == want
    case LastLoad(bound) => bound <= s.high
    case Last(used, bound) => bound <= used <= Used(s)
  }

  predicate Apart(s: State, t: Tid, u: Tid) {
    t in s.at && u in s.at && t != u && s.at[t].Publish? && s.at[u].Publish? ==> s.at[t].slot != s.at[u].slot
  }

  ghost predicate Inv(s: State) {
    && s.high <= Used(s)
    && s.count <= |s.impl| + |Clampers(s.at)|
    && (forall k: nat {:trigger SlotInv(s, k)} :: SlotInv(s, k))
    && (forall r {:trigger ReturnedInv(s, r)} :: r in s.returned ==> ReturnedInv(s, r))
    && (forall t {:trigger ThreadInv(s, t)} :: t in s.at ==> ThreadInv(s, t))
    && (forall t, u {:trigger Apart(s, t, u)} :: Apart(s, t, u))
  }

  lemma InitialInv(s: State)
    requires Initial(s)
    ensures Inv(s)
  {
  }

  /** How one step changes what other threads rely on. */
  predicate Frame(s: State, s': State, t: Tid) {
    && |s'.impl| == |s.impl| && Used(s) <= Used(s') && s.returned <= s'.returned && s.high <= s'.high
    && s'.at.Keys - {t} == s.at.Keys - {t}
    && (s.count >= |s.impl| ==> s'.count >= |s'.impl|)
  }

  predicate SameThread(s: State, s': State, u: Tid) {
    u in s'.at ==> u in s.at && s'.at[u] == s.at[u]
  }

  /** A published slot keeps its code; an unpublished one changes only in the hands of its claimant. */
  predicate SameSlot(s: State, s': State, t: Tid, k: nat) {
    k < |s.impl| == |s'.impl| ==>
      s'.impl[k] == s.impl[k] || (s.impl[k] == 0 && t in s.at && s.at[t].Publish? && s.at[t].slot == k)
  }

  /** Another thread's invariant survives a step. */
  lemma OthersKeep(s: State, s': State, t: Tid, u: Tid)
    requires Inv(s) && Frame(s, s', t) && u in s.at && u != t && u in s'.at && SameThread(s, s', u)
    requires forall k: nat {:trigger SameSlot(s, s', t, k)} :: SameSlot(s, s', t, k)
    ensures ThreadInv(s', u)
  {
    assert ThreadInv(s, u) && Apart(s, t, u);
    match s.at[u]
    case Publish(slot, _, _) => assert SameSlot(s, s', t, slot);
    case _ =>
  }

  lemma ReturnedKeep(s: State, s': State, t: Tid, r: (nat, int))
    requires Inv(s) && Frame(s, s', t) && r in s.returned && SameSlot(s, s', t, r.0)
    ensures ReturnedInv(s', r)
  {
    assert ReturnedInv(s, r);
  }

  /** What the step of one thread has to establish itself. */
  predicate Own(s: State, s': State, t: Tid) {
    && Frame(s, s', t) && s'.high <= Used(s')
    && (t in s'.at ==> ThreadInv(s', t))
    && (t in s'.at && s'.at[t].Publish? ==>
          (t in s.at && s.at[t].Publish? && s.at[t].slot == s'.at[t].slot) || s'.at[t].slot >= Used(s))
  }

  lemma Assemble(s: State, s': State, t: Tid)
    requires Inv(s) && Own(s, s', t)
    requires s'.count <= |s'.impl| + |Clampers(s'.at)|
    requires forall k: nat {:trigger SlotInv(s', k)} :: SlotInv(s', k)
    requires forall k: nat {:trigger SameSlot(s, s', t, k)} :: SameSlot(s, s', t, k)
    requires forall u {:trigger SameThread(s, s', u)} :: u != t ==> SameThread(s, s', u)
    requires forall r :: r in s'.returned && r !in s.returned ==> ReturnedInv(s', r)
    ensures Inv(s')
  {
    forall r {:trigger ReturnedInv(s', r)} | r in s'.returned ensures ReturnedInv(s', r) {
      if r in s.returned {
        assert SameSlot(s, s', t, r.0);
        ReturnedKeep(s, s', t, r);
      }
    }
    forall u {:trigger ThreadInv(s', u)} | u in s'.at ensures ThreadInv(s', u) {
      if u != t {
        assert SameThread(s, s', u);
        OthersKeep(s, s', t, u);
      }
    }
    forall u, v {:trigger Apart(s', u, v)} ensures Apart(s', u, v) {
      StillApart(s, s', t, u, v);
    }
  }

  lemma StillApart(s: State, s': State, t: Tid, u: Tid, v: Tid)
    requires Inv(s) && Own(s, s', t)
    requires forall u {:trigger SameThread(s, s', u)} :: u != t ==> SameThread(s, s', u)
    ensures Apart(s', u, v)
  {
    assert Apart(s, u, v);
    if u != t { assert SameThread(s, s', u); if u in s.at { assert ThreadInv(s, u); } }
    if v != t { assert SameThread(s, s', v); if v in s.at { assert ThreadInv(s, v); } }
  }

  // ---------------------------------------------------------------- each step

  lemma ClampersMove(at: map<Tid, Pc>, t: Tid, pc: Pc)
    ensures |Clampers(at[t := pc])| + (if t in at && at[t].Clamp? then 1 else 0) ==
            |Clampers(at)| + (if pc.Clamp? then 1 else 0)
  {
    var rest := Clampers(at) - {t};
    WithAndWithout(at, t, pc);
    assert t !in rest;
    if pc.Clamp? { assert |rest + {t}| == |rest| + 1; }
    if t in at && at[t].Clamp? { assert Clampers(at) == rest + {t}; } else { assert rest == Clampers(at); }
  }

  lemma WithAndWithout(at: map<Tid, Pc>, t: Tid, pc: Pc)
    ensures Clampers(at[t := pc]) == if pc.Clamp? then (Clampers(at) - {t}) + {t} else Clampers(at) - {t}
  {
    var at' := at[t := pc];
    forall u ensures u in Clampers(at') <==> if u == t then pc.Clamp? else u in Clampers(at) {
      assert u != t ==> (u in at' <==> u in at);
    }
  }

  /** Steps that leave the table alone. */
  lemma QuietStep(s: State, s': State, t: Tid, pc: Pc)
    requires Inv(s) && s' == Goto(s, t, pc) && !pc.Clamp? && !pc.Publish?
    requires t in s.at ==> !s.at[t].Clamp?
    requires ThreadInv(s', t)
    ensures Inv(s')
  {
    ClampersMove(s.at, t, pc);
    forall k: nat {:trigger SlotInv(s', k)} ensures SlotInv(s', k) { assert SlotInv(s, k); }
    Assemble(s, s', t);
  }

  lemma LeaveInv(s: State, t: Tid)
    requires Inv(s) && t in s.at && Resting(s.at[t])
    ensures Inv(s.(at := s.at - {t}))
  {
    var s' := s.(at := s.at - {t});
    assert Clampers(s'.at) == Clampers(s.at);
    forall k: nat {:trigger SlotInv(s', k)} ensures SlotInv(s', k) { assert SlotInv(s, k); }
    Assemble(s, s', t);
  }

  lemma ReturnStep(s: State, s': State, t: Tid)
    requires Inv(s) && t in s.at && s.at[t].Scan? && s' == ThreadStep(s, t) && s'.at[t].Found?
    ensures Inv(s')
  {
    assert ThreadInv(s, t);
    ClampersMove(s.at, t, s'.at[t]);
    forall k: nat {:trigger SlotInv(s', k)} ensures SlotInv(s', k) { assert SlotInv(s, k); }
    Assemble(s, s', t);
  }

  lemma ClaimStep(s: State, t: Tid)
    requires Inv(s) && t in s.at && s.at[t].Claim?
    ensures Inv(ThreadStep(s, t))
  {
    var s' := ThreadStep(s, t);
    assert ThreadInv(s, t) && SlotInv(s, s.count);
    ClampersMove(s.at, t, s'.at[t]);
    forall k: nat {:trigger SlotInv(s', k)} ensures SlotInv(s', k) { assert SlotInv(s, k); }
    Assemble(s, s', t);
  }

  lemma ClampStep(s: State, t: Tid)
    requires Inv(s) && t in s.at && s.at[t].Clamp?
    ensures Inv(ThreadStep(s, t))
  {
    var s' := ThreadStep(s, t);
    assert ThreadInv(s, t);
    forall k: nat {:trigger SlotInv(s', k)} ensures SlotInv(s', k) { assert SlotInv(s, k); }
    Assemble(s, s', t);
  }

  lemma PublishStep(s: State, t: Tid)
    requires Inv(s) && t in s.at && s.at[t].Publish?
    ensures Inv(ThreadStep(s, t))
  {
    var s' := ThreadStep(s, t);
    assert ThreadInv(s, t);
    ClampersMove(s.at, t, s'.at[t]);
    forall k: nat {:trigger SlotInv(s', k)} ensures SlotInv(s', k) { assert SlotInv(s, k); }
    Assemble(s, s', t);
  }

  lemma ScanStep(s: State, t: Tid)
    requires Inv(s) && t in s.at && s.at[t].Scan?
    ensures Inv(ThreadStep(s, t))
  {
    var s' := ThreadStep(s, t);
    var due := s.at[t].due;
    assert ThreadInv(s, t);
    if due.Some? { assert ReturnedInv(s, (due.value, s.at[t].e)); }
    if s'.at[t].Found? { ReturnStep(s, s', t); } else { QuietStep(s, s', t, s'.at[t]); }
  }

  lemma LookStep(s: State, t: Tid)
    requires Inv(s) && t in s.at
    requires s.at[t].ToLoad? || s.at[t].FromLoad? || s.at[t].FromRead? || s.at[t].LastLoad?
    ensures Inv(ThreadStep(s, t))
  {
    var s' := ThreadStep(s, t);
    assert ThreadInv(s, t);
    match s.at[t] {
      case FromLoad(code, want) => if want.Some? { assert ReturnedInv(s, (code, want.value)); }
      case FromRead(slot, want) => if want.Some? { assert ReturnedInv(s, (slot, want.value)); }
      case _ =>
    }
    QuietStep(s, s', t, s'.at[t]);
  }

  lemma BeginInv(s: State, a: Action)
    requires Inv(s) && Enabled(s, a) && !a.Step? && !a.Leave?
    ensures Inv(Apply(s, a))
  {
    var s' := Apply(s, a);
    if a.ToAbi? && a.due.Some? { assert ReturnedInv(s, (a.due.value, a.e)); }
    QuietStep(s, s', a.t, s'.at[a.t]);
  }

  lemma ActionInv(s: State, a: Action)
    requires Inv(s) && Enabled(s, a)
    ensures Inv(Apply(s, a))
  {
    if a.Leave? {
      LeaveInv(s, a.t);
    } else if !a.Step? {
      BeginInv(s, a);
    } else {
      match s.at[a.t]
      case Claim(_, _) => ClaimStep(s, a.t);
      case Clamp(_, _) => ClampStep(s, a.t);
      case Publish(_, _, _) => PublishStep(s, a.t);
      case Scan(_, _, _) => ScanStep(s, a.t);
      case _ => LookStep(s, a.t);
    }
  }

  lemma {:induction false} RunInv(tr: seq<State>, i: nat)
    requires Run(tr) && i < |tr|
    ensures Inv(tr[i])
  {
    if i == 0 {
      InitialInv(tr[0]);
    } else {
      RunInv(tr, i - 1);
      assert Next(tr[i - 1], tr[i - 1 + 1]);
      var a :| Enabled(tr[i - 1], a) && tr[i] == Apply(tr[i - 1], a);
      ActionInv(tr[i - 1], a);
    }
  }

  // ---------------------------------------------------------------- what holds in every run

  /** No slot is issued twice, and exactly the used ones have been issued. */
  lemma SlotsIssuedOnce(tr: seq<State>, i: nat, k: nat)
    requires Run(tr) && i < |tr|
    ensures tr[i].claims[k] == if k < Used(tr[i]) then 1 else 0
  {
    RunInv(tr, i);
    assert SlotInv(tr[i], k);
  }

  /** The counter exceeds the table by no more than the threads between their fetch_add and their clamp. */
  lemma CounterBounded(tr: seq<State>, i: nat)
    requires Run(tr) && i < |tr|
    ensures tr[i].count <= |tr[i].impl| + |Clampers(tr[i].at)|
  {
    RunInv(tr, i);
  }

  lemma StepKeeps(s: State, a: Action)
    requires Inv(s) && Enabled(s, a)
    ensures |Apply(s, a).impl| == |s.impl| && Used(s) <= Used(Apply(s, a)) && s.returned <= Apply(s, a).returned
  {
    if a.Step? { assert ThreadInv(s, a.t); }
  }

  /** What is in use stays in use, and what was returned stays returned. */
  lemma {:induction false} Grows(tr: seq<State>, i: nat, j: nat)
    requires Run(tr) && i <= j < |tr|
    ensures |tr[j].impl| == |tr[i].impl| && Used(tr[i]) <= Used(tr[j]) && tr[i].returned <= tr[j].returned
    decreases j - i
  {
    if i < j {
      Grows(tr, i, j - 1);
      RunInv(tr, j - 1);
      assert Next(tr[j - 1], tr[j - 1 + 1]);
      var a :| Enabled(tr[j - 1], a) && tr[j] == Apply(tr[j - 1], a);
      StepKeeps(tr[j - 1], a);
    }
  }

  /** A code once returned means the same implementation code forever after. */
  lemma ReturnedForever(tr: seq<State>, i: nat, j: nat, slot: nat, e: int)
    requires Run(tr) && i <= j < |tr| && (slot, e) in tr[i].returned
    ensures slot < Used(tr[j]) && tr[j].impl[slot] == e && e != SUCCESS
  {
    Grows(tr, i, j);
    RunInv(tr, j);
    assert ReturnedInv(tr[j], (slot, e));
  }

  /** A conversion that begins after a code was returned answers the code it was returned for; a lookup that begins
    * after a registration was returned finds that one or a newer one, and never registers the code again or answers
    * ERR_OTHER; a call answers ERR_OTHER only when the table is full; and `lastused` bounds every code returned before
    * it began, and no slot that has not been issued. */
  lemma CallsAnswer(tr: seq<State>, i: nat, t: Tid)
    requires Run(tr) && i < |tr| && t in tr[i].at
    ensures match tr[i].at[t] {
      case Converted(answer, want) => want.Some? ==> answer == want
      case Found(e, slot, due) => (slot, e) in tr[i].returned && (due.Some? ==> due.value <= slot)
      case Added(e, got, due) =>
        due == None && if got.Some? then (got.value, e) in tr[i].returned else Used(tr[i]) == |tr[i].impl|
      case Last(used, bound) => bound <= used <= Used(tr[i])
      case _ => true }
  {
    RunInv(tr, i);
    assert ThreadInv(tr[i], t);
  }

  /** `high`, which `lastused` is measured against, really bounds every slot returned. */
  lemma HighBounds(tr: seq<State>, i: nat, slot: nat, e: int)
    requires Run(tr) && i < |tr| && (slot, e) in tr[i].returned
    ensures slot < tr[i].high <= Used(tr[i])
  {
    RunInv(tr, i);
    assert ReturnedInv(tr[i], (slot, e));
  }

  /** Why MPI_SUCCESS has to be filtered before the table is searched: a slot claimed but not yet published holds
    * zero, matches a search for zero, and then becomes the code of something else. */
  lemma ZeroMatchesUnpublished(s: State, t: Tid, u: Tid, slot: nat, e: int)
    requires t in s.at && u in s.at && t != u && slot < |s.impl| && e != SUCCESS && s.impl[slot] == 0
    requires s.at[t] == Scan(SUCCESS, slot + 1, None) && s.at[u] == Publish(slot, e, None)
    ensures var s1 := ThreadStep(s, t); s1.at[t] == Found(SUCCESS, slot, None) && (slot, SUCCESS) in s1.returned
    ensures var s2 := ThreadStep(ThreadStep(s, t), u); s2.impl[slot] == e && (slot, e) in s2.returned
  {
  }
}
