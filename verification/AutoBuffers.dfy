/** The automatic-buffer table under concurrency (src/mpiwrapper/buffers.c:81-127): any interleaving of the atomic
  * steps of any number of claims and releases. */
module AutoBuffers {
  import opened Common

  type Tid = nat
  type Block = nat
  type Scope = nat

  const FREE: Scope := 0

  datatype Pc =
    | Scan(scope: Scope, b: Block, i: nat)         // claim: compare-and-swap the scope of slot i
    | Publish(scope: Scope, b: Block, i: nat)      // claim: store the block
    | GiveUp(b: Block)                             // claim: no slot, free the block
    | Claimed(got: Option<Block>)
    | Seek(scope: Scope, i: nat)                   // release: load the scope of slot i
    | Take(scope: Scope, i: nat)                   // release: exchange the block with null
    | Clear(scope: Scope, b: Block, i: nat)        // release: store scope zero
    | Discard(scope: Scope, b: Block)              // release: free
    | Released(freed: Option<Block>, scope: Scope)

  /** Where a block is: in a slot, in the hands of a thread, or freed. */
  datatype Place = Tabled(i: nat) | Held(t: Tid) | Gone

  /** `under` records the scope each block was claimed under; `place` and `under` are history. */
  datatype State = State(scope: seq<Scope>, block: seq<Option<Block>>, at: map<Tid, Pc>, freed: multiset<Block>,
                         place: map<Block, Place>, under: map<Block, Scope>)

  datatype Action = Claim(t: Tid, scope: Scope, b: Block) | Release(t: Tid, scope: Scope) | Step(t: Tid) | Leave(t: Tid)

  predicate Initial(s: State) {
    |s.block| == |s.scope|
    && (forall i :: 0 <= i < |s.scope| ==> s.scope[i] == FREE && s.block[i] == None)
    && s.at == map[] && s.freed == multiset{} && s.place == map[] && s.under == map[]
  }

  predicate Releasing(pc: Pc) {
    pc.Seek? || pc.Take? || pc.Clear? || pc.Discard?
  }

  predicate Resting(pc: Pc) {
    pc.Claimed? || pc.Released?
  }

  /** What callers and schedule keep to: nothing; no slot is claimed while a release of another scope is about to take
    * its block; no two releases of one scope overlap, and none is for the empty scope. */
  datatype Rule = Anything | Clean | Apart

  /** The step fills a slot that a release of another scope has found and is about to empty. */
  ghost predicate Intrudes(s: State, t: Tid) {
    && t in s.at && s.at[t].Scan? && s.at[t].i < |s.scope| && s.scope[s.at[t].i] == FREE
    && exists u :: u in s.at && s.at[u].Take? && s.at[u].i == s.at[t].i && s.at[u].scope != s.at[t].scope
  }

  /** A claim under the empty scope is refused before anything happens, so it is not a step. */
  ghost predicate Enabled(s: State, a: Action, d: Rule) {
    match a
    case Claim(t, scope, b) => t !in s.at && scope != FREE && b !in s.place && |s.scope| > 0
    case Release(t, scope) =>
      t !in s.at && |s.scope| > 0
      && (d == Apart ==> scope != FREE && forall u :: u in s.at && Releasing(s.at[u]) ==> s.at[u].scope != scope)
    case Step(t) => t in s.at && !Resting(s.at[t]) && (d == Clean ==> !Intrudes(s, t))
    case Leave(t) => t in s.at && Resting(s.at[t])
  }

  function Goto(s: State, t: Tid, pc: Pc): State {
    s.(at := s.at[t := pc])
  }

  function Move(s: State, b: Block, p: Place): State {
    s.(place := s.place[b := p])
  }

  function ThreadStep(s: State, t: Tid): State
    requires t in s.at && |s.block| == |s.scope|
  {
    var n := |s.scope|;
    match s.at[t]
    case Scan(scope, b, i) =>
      if i >= n then Goto(s, t, GiveUp(b))
      else if s.scope[i] == FREE then Goto(s.(scope := s.scope[i := scope]), t, Publish(scope, b, i))
      else Goto(s, t, if i + 1 < n then Scan(scope, b, i + 1) else GiveUp(b))
    case Publish(scope, b, i) =>
      if i < n then Move(Goto(s.(block := s.block[i := Some(b)]), t, Claimed(Some(b))), b, Tabled(i)) else s
    case GiveUp(b) => Move(Goto(s.(freed := s.freed + multiset{b}), t, Claimed(None)), b, Gone)
    case Seek(scope, i) =>
      if i < n && s.scope[i] == scope then Goto(s, t, Take(scope, i))
      else Goto(s, t, if i + 1 < n then Seek(scope, i + 1) else Released(None, scope))
    case Take(scope, i) =>
      if i < n && s.block[i].Some? then
        var b := s.block[i].value;
        Move(Goto(s.(block := s.block[i := None]), t, Clear(scope, b, i)), b, Held(t))
      else Goto(s, t, if i + 1 < n then Seek(scope, i + 1) else Released(None, scope))
    case Clear(scope, b, i) =>
      if i < n then Goto(s.(scope := s.scope[i := FREE]), t, Discard(scope, b)) else s
    case Discard(scope, b) =>
      Move(Goto(s.(freed := s.freed + multiset{b}), t, Released(Some(b), scope)), b, Gone)
    case _ => s
  }

  function Apply(s: State, a: Action): State
    requires |s.block| == |s.scope| && (a.Step? || a.Leave? ==> a.t in s.at)
  {
    match a
    case Claim(t, scope, b) =>
      Move(Goto(s.(under := s.under[b := scope]), t, Scan(scope, b, 0)), b, Held(t))
    case Release(t, scope) => Goto(s, t, Seek(scope, 0))
    case Step(t) => ThreadStep(s, t)
    case Leave(t) => s.(at := s.at - {t})
  }

  ghost predicate Next(s: State, s': State, d: Rule) {
    |s.block| == |s.scope| && exists a :: Enabled(s, a, d) && s' == Apply(s, a)
  }

  ghost predicate Run(tr: seq<State>, d: Rule) {
    |tr| > 0 && Initial(tr[0]) && forall i :: 0 <= i < |tr| - 1 ==> Next(tr[i], tr[i + 1], d)
  }

  // ---------------------------------------------------------------- the invariant

  function Holding(pc: Pc): Option<Block> {
    match pc
    case Scan(_, b, _) => Some(b)
    case Publish(_, b, _) => Some(b)
    case GiveUp(b) => Some(b)
    case Clear(_, b, _) => Some(b)
    case Discard(_, b) => Some(b)
    case _ => None
  }

  /** The slot a thread has to itself: claimed and not yet filled, or emptied and not yet given back. */
  function Owning(pc: Pc): Option<nat> {
    match pc
    case Publish(_, _, i) => Some(i)
    case Clear(_, _, i) => Some(i)
    case _ => None
  }

  /** Each block is in exactly the one place the history says. */
  predicate BlockInv(s: State, b: Block) {
    && s.freed[b] == (if b in s.place && s.place[b] == Gone then 1 else 0)
    && (b in s.place <==> b in s.under)
    && (b in s.place && s.place[b].Tabled? ==> s.place[b].i < |s.block| && s.block[s.place[b].i] == Some(b))
    && (b in s.place && s.place[b].Held? ==> s.place[b].t in s.at && Holding(s.at[s.place[b].t]) == Some(b))
  }

  predicate SlotInv(s: State, i: nat, d: Rule) {
    i < |s.scope| == |s.block| && s.block[i].Some? ==>
      && s.scope[i] != FREE
      && s.block[i].value in s.place && s.place[s.block[i].value] == Tabled(i)
      && (d != Anything ==> s.block[i].value in s.under && s.under[s.block[i].value] == s.scope[i])
  }

  predicate ThreadInv(s: State, t: Tid, d: Rule)
    requires t in s.at && |s.block| == |s.scope|
  {
    var pc, n := s.at[t], |s.scope|;
    && (Holding(pc).Some? ==> Holding(pc).value in s.place && s.place[Holding(pc).value] == Held(t))
    && (Owning(pc).Some? ==> Owning(pc).value < n && s.block[Owning(pc).value] == None
                             && s.scope[Owning(pc).value] != FREE)
    && (pc.Scan? ==> pc.scope != FREE && (d != Anything ==> Under(s, pc.b, pc.scope)))
    && (pc.Publish? ==> s.scope[pc.i] == pc.scope && (d != Anything ==> Under(s, pc.b, pc.scope)))
    && (d == Apart && Releasing(pc) ==> pc.scope != FREE)
    && (d == Apart && pc.Take? ==> pc.i < n && s.scope[pc.i] == pc.scope)
    && (d == Clean && pc.Take? ==> pc.i < n && (s.scope[pc.i] == pc.scope || s.scope[pc.i] == FREE))
    && (d != Anything && pc.Clear? ==> s.scope[pc.i] == pc.scope && Under(s, pc.b, pc.scope))
    && (d != Anything && pc.Discard? ==> Under(s, pc.b, pc.scope))
    && (d != Anything && pc.Released? && pc.freed.Some? ==> Under(s, pc.freed.value, pc.scope))
  }

  predicate Under(s: State, b: Block, scope: Scope) {
    b in s.under && s.under[b] == scope
  }

  predicate PairInv(s: State, t: Tid, u: Tid, d: Rule) {
    t in s.at && u in s.at && t != u ==>
      && (Owning(s.at[t]).Some? ==> Owning(s.at[t]) != Owning(s.at[u]))
      && (d == Apart && Releasing(s.at[t]) && Releasing(s.at[u]) ==> s.at[t].scope != s.at[u].scope)
  }

  ghost predicate Inv(s: State, d: Rule) {
    && |s.block| == |s.scope|
    && (forall b: Block {:trigger BlockInv(s, b)} :: BlockInv(s, b))
    && (forall i: nat {:trigger SlotInv(s, i, d)} :: SlotInv(s, i, d))
    && (forall t {:trigger ThreadInv(s, t, d)} :: t in s.at ==> ThreadInv(s, t, d))
    && (forall t, u {:trigger PairInv(s, t, u, d)} :: PairInv(s, t, u, d))
  }

  lemma InitialInv(s: State, d: Rule)
    requires Initial(s)
    ensures Inv(s, d)
  {
  }

  // ---------------------------------------------------------------- what one step touches

  /** The step of thread t touched at most slot p and block q. */
  predicate Touches(s: State, s': State, t: Tid, p: nat, q: Block) {
    && |s'.block| == |s'.scope| == |s.scope| == |s.block|
    && (t in s'.at) && s'.at == s.at[t := s'.at[t]]
    && (p < |s.scope| ==> s'.scope == s.scope[p := s'.scope[p]] && s'.block == s.block[p := s'.block[p]])
    && (p >= |s.scope| ==> s'.scope == s.scope && s'.block == s.block)
    && (s'.place == s.place || (q in s'.place && s'.place == s.place[q := s'.place[q]]))
    && (s'.under == s.under || (q !in s.place && q in s'.under && s'.under == s.under[q := s'.under[q]]))
    && (s'.freed == s.freed || s'.freed == s.freed + multiset{q})
  }

  /** What the touching thread owes the others: it touches only a slot that is its own, free, or full, and a block
    * that is new, tabled there, or its own. */
  predicate Polite(s: State, s': State, t: Tid, p: nat, q: Block, d: Rule)
    requires |s.block| == |s.scope| == |s'.scope| == |s'.block|
  {
    && (p < |s.scope| ==>
          || (t in s.at && Owning(s.at[t]) == Some(p))
          || (s.scope[p] == FREE && s'.scope[p] != FREE && s'.block[p] == s.block[p] == None)
          || (s.block[p] == Some(q) && s'.block[p] == None && s'.scope[p] == s.scope[p]))
    && (q !in s.place || s.place[q] == Held(t) || (p < |s.scope| && s.place[q] == Tabled(p)) || s'.place == s.place)
    && (p < |s.scope| && s'.scope[p] != s.scope[p] && s.scope[p] != FREE ==>
          t in s.at && s.at[t].Clear? && s.at[t].i == p && s'.scope[p] == FREE)
    && (d == Clean && p < |s.scope| && s'.scope[p] != s.scope[p] && s.scope[p] == FREE ==>
          forall u :: u in s.at && u != t && s.at[u].Take? && s.at[u].i == p ==> s.at[u].scope == s'.scope[p])
  }

  lemma OthersKeep(s: State, s': State, t: Tid, p: nat, q: Block, u: Tid, d: Rule)
    requires Inv(s, d) && Touches(s, s', t, p, q) && Polite(s, s', t, p, q, d) && u in s.at && u != t
    ensures ThreadInv(s', u, d)
  {
    assert ThreadInv(s, u, d) && PairInv(s, t, u, d) && PairInv(s, u, t, d) && s'.at[u] == s.at[u];
    if t in s.at { assert ThreadInv(s, t, d); }
    if p < |s.scope| { assert SlotInv(s, p, d); }
    KeepHolding(s, s', t, p, q, u, d);
    KeepOwning(s, s', t, p, q, u, d);
    if d != Anything { KeepUnder(s, s', t, p, q, u, d); }
  }

  lemma KeepHolding(s: State, s': State, t: Tid, p: nat, q: Block, u: Tid, d: Rule)
    requires Inv(s, d) && Touches(s, s', t, p, q) && Polite(s, s', t, p, q, d) && u in s.at && u != t
    ensures var pc := s.at[u];
      Holding(pc).Some? ==> Holding(pc).value in s'.place && s'.place[Holding(pc).value] == Held(u)
  {
    assert ThreadInv(s, u, d);
  }

  lemma KeepOwning(s: State, s': State, t: Tid, p: nat, q: Block, u: Tid, d: Rule)
    requires Inv(s, d) && Touches(s, s', t, p, q) && Polite(s, s', t, p, q, d) && u in s.at && u != t
    ensures var pc, n := s.at[u], |s.scope|;
      && (Owning(pc).Some? ==>
            Owning(pc).value < n && s'.block[Owning(pc).value] == None && s'.scope[Owning(pc).value] != FREE
            && s'.scope[Owning(pc).value] == s.scope[Owning(pc).value])
      && (d == Apart && pc.Take? ==> pc.i < n && s'.scope[pc.i] == pc.scope)
      && (d == Clean && pc.Take? ==> pc.i < n && (s'.scope[pc.i] == pc.scope || s'.scope[pc.i] == FREE))
  {
    assert ThreadInv(s, u, d) && PairInv(s, u, t, d) && PairInv(s, t, u, d);
    if t in s.at { assert ThreadInv(s, t, d); }
    if p < |s.scope| { assert SlotInv(s, p, d); }
  }

  lemma KeepUnder(s: State, s': State, t: Tid, p: nat, q: Block, u: Tid, d: Rule)
    requires Inv(s, d) && Touches(s, s', t, p, q) && u in s.at && u != t && d != Anything
    ensures var pc := s.at[u];
      && (Holding(pc).Some? && !pc.GiveUp? && Under(s, Holding(pc).value, pc.scope) ==>
            Under(s', Holding(pc).value, pc.scope))
      && (pc.Released? && pc.freed.Some? && Under(s, pc.freed.value, pc.scope) ==> Under(s', pc.freed.value, pc.scope))
  {
    assert ThreadInv(s, u, d) && BlockInv(s, q);
  }

  /** What the touching thread has to establish: its own invariant, its slot's, its block's, and its distance. */
  ghost predicate Own(s: State, s': State, t: Tid, p: nat, q: Block, d: Rule) {
    && Touches(s, s', t, p, q) && Polite(s, s', t, p, q, d)
    && ThreadInv(s', t, d) && SlotInv(s', p, d) && BlockInv(s', q)
    && (Owning(s'.at[t]).Some? ==>
          (t in s.at && Owning(s.at[t]) == Owning(s'.at[t]))
          || (Owning(s'.at[t]) == Some(p) && p < |s.scope| && (s.scope[p] == FREE || s.block[p].Some?)))
    && (t in s.at && Holding(s.at[t]).Some? ==> Holding(s.at[t]) == Some(q) || Holding(s'.at[t]) == Holding(s.at[t]))
    && (d == Apart && Releasing(s'.at[t]) ==> forall u :: u in s.at && u != t && Releasing(s.at[u]) ==>
          s.at[u].scope != s'.at[t].scope)
  }

  lemma Assemble(s: State, s': State, t: Tid, p: nat, q: Block, d: Rule)
    requires Inv(s, d) && Own(s, s', t, p, q, d)
    ensures Inv(s', d)
  {
    forall b: Block {:trigger BlockInv(s', b)} ensures BlockInv(s', b) { KeepBlock(s, s', t, p, q, b, d); }
    forall i: nat {:trigger SlotInv(s', i, d)} ensures SlotInv(s', i, d) {
      if i != p { KeepSlot(s, s', t, p, q, i, d); }
    }
    forall u {:trigger ThreadInv(s', u, d)} | u in s'.at ensures ThreadInv(s', u, d) {
      if u != t { OthersKeep(s, s', t, p, q, u, d); }
    }
    forall u, v {:trigger PairInv(s', u, v, d)} ensures PairInv(s', u, v, d) {
      KeepPair(s, s', t, p, q, u, v, d);
    }
  }

  lemma KeepBlock(s: State, s': State, t: Tid, p: nat, q: Block, b: Block, d: Rule)
    requires Inv(s, d) && Own(s, s', t, p, q, d)
    ensures BlockInv(s', b)
  {
    assert BlockInv(s, b);
    if b != q && b in s.place {
      if s.place[b].Tabled? { assert SlotInv(s, p, d); }
      if t in s.at { assert ThreadInv(s, t, d); }
      if p < |s.scope| { assert SlotInv(s, p, d); }
    }
  }

  lemma KeepSlot(s: State, s': State, t: Tid, p: nat, q: Block, i: nat, d: Rule)
    requires Inv(s, d) && Own(s, s', t, p, q, d) && i != p
    ensures SlotInv(s', i, d)
  {
    assert SlotInv(s, i, d);
  }

  lemma KeepPair(s: State, s': State, t: Tid, p: nat, q: Block, u: Tid, v: Tid, d: Rule)
    requires Inv(s, d) && Own(s, s', t, p, q, d)
    ensures PairInv(s', u, v, d)
  {
    assert PairInv(s, u, v, d) && PairInv(s, v, u, d);
    if u in s.at { assert ThreadInv(s, u, d); }
    if v in s.at { assert ThreadInv(s, v, d); }
  }

  // ---------------------------------------------------------------- each step

  /** A slot and a block the step does not touch, for steps that touch none. */
  function NoSlot(s: State): nat {
    |s.scope|
  }

  lemma ScanStep(s: State, t: Tid, d: Rule)
    requires Inv(s, d) && t in s.at && s.at[t].Scan? && (d == Clean ==> !Intrudes(s, t))
    ensures Inv(ThreadStep(s, t), d)
  {
    var s', i := ThreadStep(s, t), s.at[t].i;
    assert ThreadInv(s, t, d) && BlockInv(s, s.at[t].b) && SlotInv(s, i, d);
    var p := if i < |s.scope| && s.scope[i] == FREE then i else NoSlot(s);
    Assemble(s, s', t, p, s.at[t].b, d);
  }

  lemma PublishStep(s: State, t: Tid, d: Rule)
    requires Inv(s, d) && t in s.at && s.at[t].Publish?
    ensures Inv(ThreadStep(s, t), d)
  {
    var s', i := ThreadStep(s, t), s.at[t].i;
    assert ThreadInv(s, t, d) && BlockInv(s, s.at[t].b) && SlotInv(s, i, d);
    Assemble(s, s', t, i, s.at[t].b, d);
  }

  lemma FreeStep(s: State, t: Tid, d: Rule)
    requires Inv(s, d) && t in s.at && (s.at[t].GiveUp? || s.at[t].Discard?)
    ensures Inv(ThreadStep(s, t), d)
  {
    var s' := ThreadStep(s, t);
    assert ThreadInv(s, t, d) && BlockInv(s, s.at[t].b);
    Assemble(s, s', t, NoSlot(s), s.at[t].b, d);
  }

  /** No step of a release changes the scope it is for, so releases of different scopes stay so. */
  lemma StillAlone(s: State, t: Tid, d: Rule)
    requires Inv(s, d) && d == Apart && t in s.at && Releasing(s.at[t])
    ensures forall u :: u in s.at && u != t && Releasing(s.at[u]) ==> s.at[u].scope != s.at[t].scope
  {
    forall u | u in s.at && u != t && Releasing(s.at[u]) ensures s.at[u].scope != s.at[t].scope {
      assert PairInv(s, t, u, d);
    }
  }

  lemma SeekStep(s: State, t: Tid, d: Rule)
    requires Inv(s, d) && t in s.at && s.at[t].Seek?
    ensures Inv(ThreadStep(s, t), d)
  {
    var s' := ThreadStep(s, t);
    assert ThreadInv(s, t, d) && BlockInv(s, 0);
    if d == Apart { StillAlone(s, t, d); }
    Assemble(s, s', t, NoSlot(s), 0, d);
  }

  lemma TakeStep(s: State, t: Tid, d: Rule)
    requires Inv(s, d) && t in s.at && s.at[t].Take?
    ensures Inv(ThreadStep(s, t), d)
  {
    var s', i := ThreadStep(s, t), s.at[t].i;
    assert ThreadInv(s, t, d) && SlotInv(s, i, d);
    if d == Apart { StillAlone(s, t, d); }
    if i < |s.scope| && s.block[i].Some? {
      assert BlockInv(s, s.block[i].value);
      Assemble(s, s', t, i, s.block[i].value, d);
    } else {
      assert BlockInv(s, 0);
      Assemble(s, s', t, NoSlot(s), 0, d);
    }
  }

  lemma ClearStep(s: State, t: Tid, d: Rule)
    requires Inv(s, d) && t in s.at && s.at[t].Clear?
    ensures Inv(ThreadStep(s, t), d)
  {
    var s' := ThreadStep(s, t);
    assert ThreadInv(s, t, d) && BlockInv(s, s.at[t].b) && SlotInv(s, s.at[t].i, d);
    if d == Apart { StillAlone(s, t, d); }
    Assemble(s, s', t, s.at[t].i, s.at[t].b, d);
  }

  lemma BeginInv(s: State, a: Action, d: Rule)
    requires Inv(s, d) && Enabled(s, a, d) && (a.Claim? || a.Release?)
    ensures Inv(Apply(s, a), d)
  {
    var s' := Apply(s, a);
    var q := if a.Claim? then a.b else 0;
    assert BlockInv(s, q);
    Assemble(s, s', a.t, NoSlot(s), q, d);
  }

  lemma LeaveInv(s: State, t: Tid, d: Rule)
    requires Inv(s, d) && t in s.at && Resting(s.at[t])
    ensures Inv(s.(at := s.at - {t}), d)
  {
    var s' := s.(at := s.at - {t});
    forall b: Block {:trigger BlockInv(s', b)} ensures BlockInv(s', b) { assert BlockInv(s, b); }
    forall i: nat {:trigger SlotInv(s', i, d)} ensures SlotInv(s', i, d) { assert SlotInv(s, i, d); }
    forall u {:trigger ThreadInv(s', u, d)} | u in s'.at ensures ThreadInv(s', u, d) {
      assert ThreadInv(s, u, d);
    }
    forall u, v {:trigger PairInv(s', u, v, d)} ensures PairInv(s', u, v, d) { assert PairInv(s, u, v, d); }
  }

  lemma ActionInv(s: State, a: Action, d: Rule)
    requires Inv(s, d) && Enabled(s, a, d)
    ensures Inv(Apply(s, a), d)
  {
    if a.Leave? {
      LeaveInv(s, a.t, d);
    } else if !a.Step? {
      BeginInv(s, a, d);
    } else {
      match s.at[a.t]
      case Scan(_, _, _) => ScanStep(s, a.t, d);
      case Publish(_, _, _) => PublishStep(s, a.t, d);
      case GiveUp(_) => FreeStep(s, a.t, d);
      case Seek(_, _) => SeekStep(s, a.t, d);
      case Take(_, _) => TakeStep(s, a.t, d);
      case Clear(_, _, _) => ClearStep(s, a.t, d);
      case Discard(_, _) => FreeStep(s, a.t, d);
    }
  }

  lemma {:induction false} RunInv(tr: seq<State>, d: Rule, i: nat)
    requires Run(tr, d) && i < |tr|
    ensures Inv(tr[i], d)
  {
    if i == 0 {
      InitialInv(tr[0], d);
    } else {
      RunInv(tr, d, i - 1);
      assert Next(tr[i - 1], tr[i - 1 + 1], d);
      var a :| Enabled(tr[i - 1], a, d) && tr[i] == Apply(tr[i - 1], a);
      ActionInv(tr[i - 1], a, d);
    }
  }

  // ---------------------------------------------------------------- what holds in every run

  /** In every interleaving, no block is freed twice. */
  lemma NoDoubleFree(tr: seq<State>, d: Rule, i: nat, b: Block)
    requires Run(tr, d) && i < |tr|
    ensures tr[i].freed[b] <= 1
  {
    RunInv(tr, d, i);
    assert BlockInv(tr[i], b);
  }

  predicate InSlot(s: State, b: Block, k: nat) {
    k < |s.block| && s.block[k] == Some(b)
  }

  predicate InHand(s: State, b: Block, t: Tid) {
    t in s.at && Holding(s.at[t]) == Some(b)
  }

  /** Conservation: an allocated block is in exactly one slot, or in the hands of exactly one thread, or freed. */
  lemma BlocksConserved(tr: seq<State>, d: Rule, i: nat, b: Block)
    requires Run(tr, d) && i < |tr| && b in tr[i].under
    ensures b in tr[i].place
    ensures var s := tr[i];
      match s.place[b] {
        case Tabled(k) =>
          s.freed[b] == 0 && (forall j :: InSlot(s, b, j) <==> j == k) && forall t :: !InHand(s, b, t)
        case Held(u) =>
          s.freed[b] == 0 && (forall j :: !InSlot(s, b, j)) && forall t :: InHand(s, b, t) <==> t == u
        case Gone =>
          s.freed[b] == 1 && (forall j :: !InSlot(s, b, j)) && forall t :: !InHand(s, b, t)
      }
  {
    RunInv(tr, d, i);
    var s := tr[i];
    assert BlockInv(s, b);
    forall j | InSlot(s, b, j) ensures s.place[b] == Tabled(j) { assert SlotInv(s, j, d); }
    forall t | InHand(s, b, t) ensures s.place[b] == Held(t) { assert ThreadInv(s, t, d); }
  }

  /** A slot that holds a block is claimed. */
  lemma BlockImpliesScope(tr: seq<State>, d: Rule, i: nat, k: nat)
    requires Run(tr, d) && i < |tr| && k < |tr[i].scope| == |tr[i].block|
    ensures tr[i].block[k] != None ==> tr[i].scope[k] != FREE
  {
    RunInv(tr, d, i);
    assert SlotInv(tr[i], k, d);
  }

  /** If every claim is clean, a release frees only a block claimed under its own scope. */
  lemma ReleasesOwnScope(tr: seq<State>, d: Rule, i: nat, t: Tid)
    requires Run(tr, d) && d != Anything && i < |tr| && t in tr[i].at
    ensures tr[i].at[t].Released? && tr[i].at[t].freed.Some? ==>
      tr[i].at[t].freed.value in tr[i].under && tr[i].under[tr[i].at[t].freed.value] == tr[i].at[t].scope
  {
    RunInv(tr, d, i);
    assert ThreadInv(tr[i], t, d);
  }

  /** Claims are clean where releases of one scope never overlap. */
  lemma ApartIsClean(tr: seq<State>)
    requires Run(tr, Apart)
    ensures Run(tr, Clean)
  {
    forall i | 0 <= i < |tr| - 1 ensures Next(tr[i], tr[i + 1], Clean) {
      var s := tr[i];
      RunInv(tr, Apart, i);
      assert Next(s, tr[i + 1], Apart);
      var a :| Enabled(s, a, Apart) && tr[i + 1] == Apply(s, a);
      forall u | u in s.at && s.at[u].Take? ensures s.at[u].i < |s.scope| && s.scope[s.at[u].i] != FREE {
        assert ThreadInv(s, u, Apart);
      }
      assert Enabled(s, a, Clean);
    }
  }

  // ---------------------------------------------------------------- exactly

  /** Thread t has released a block that was claimed under another scope. */
  predicate Wrong(s: State, t: Tid) {
    t in s.at && s.at[t].Released? && s.at[t].freed.Some? && s.at[t].freed.value in s.under
    && s.under[s.at[t].freed.value] != s.at[t].scope
  }

  ghost predicate FreesOther(s: State) {
    exists t :: Wrong(s, t)
  }

  ghost predicate CleanChain(tr: seq<State>) {
    |tr| > 0 && forall i :: 0 <= i < |tr| - 1 ==> Next(tr[i], tr[i + 1], Clean)
  }

  /** Clean steps lead from `s` to `t`. */
  ghost predicate Leads(s: State, t: State) {
    exists tr :: CleanChain(tr) && tr[0] == s && tr[|tr| - 1] == t
  }

  /** One step of a thread that is not scanning. */
  lemma Drives(s: State, t: State, u: Tid)
    requires Leads(s, t) && |t.block| == |t.scope| && u in t.at && !Resting(t.at[u]) && !t.at[u].Scan?
    ensures Leads(s, ThreadStep(t, u))
  {
    var tr :| CleanChain(tr) && tr[0] == s && tr[|tr| - 1] == t;
    var next := ThreadStep(t, u);
    var tr' := tr + [next];
    assert Enabled(t, Step(u), Clean) && next == Apply(t, Step(u));
    forall i | 0 <= i < |tr'| - 1 ensures Next(tr'[i], tr'[i + 1], Clean) {
      if i + 1 < |tr| { assert Next(tr[i], tr[i + 1], Clean); }
    }
    assert tr'[0] == s && tr'[|tr'| - 1] == next;
  }

  lemma Joined(tr: seq<State>, more: seq<State>)
    requires Run(tr, Clean) && CleanChain(more) && more[0] == tr[|tr| - 1]
    ensures Run(tr + more[1..], Clean)
  {
    var all := tr + more[1..];
    forall i | 0 <= i < |all| - 1 ensures Next(all[i], all[i + 1], Clean) {
      if i + 1 < |tr| {
        assert Next(tr[i], tr[i + 1], Clean);
      } else {
        assert Next(more[i + 1 - |tr|], more[i + 1 - |tr| + 1], Clean);
      }
    }
  }

  /** After a claim that is not clean, claimer and release running undisturbed free the claimer's block. */
  lemma UncleanFrees(s: State, t: Tid) returns (z: State)
    requires Inv(s, Clean) && Intrudes(s, t)
    ensures Leads(ThreadStep(s, t), z) && FreesOther(z)
  {
    var u :| u in s.at && s.at[u].Take? && s.at[u].i == s.at[t].i && s.at[u].scope != s.at[t].scope;
    var b, one := s.at[t].b, s.at[t].scope;
    assert ThreadInv(s, t, Clean) && u != t;
    var s1 := ThreadStep(s, t);
    assert CleanChain([s1]) && [s1][0] == s1;
    Drives(s1, s1, t);
    var s2 := ThreadStep(s1, t);
    Drives(s1, s2, u);
    var s3 := ThreadStep(s2, u);
    Drives(s1, s3, u);
    var s4 := ThreadStep(s3, u);
    Drives(s1, s4, u);
    z := ThreadStep(s4, u);
    assert z.under == s.under && Wrong(z, u);
  }

  lemma CleanOnward(tr: seq<State>, k: nat, z: State)
    requires Run(tr, Clean) && k < |tr| && Leads(tr[k], z)
    ensures !FreesOther(z)
  {
    var more :| CleanChain(more) && more[0] == tr[k] && more[|more| - 1] == z;
    var past := tr[..k + 1];
    Joined(past, more);
    var all := past + more[1..];
    assert all[|all| - 1] == z;
    forall t | t in z.at ensures !Wrong(z, t) { ReleasesOwnScope(all, Clean, |all| - 1, t); }
  }

  lemma CleanOrNot(tr: seq<State>, t: State)
    requires Run(tr, Clean) && Next(tr[|tr| - 1], t, Anything)
    ensures Run(tr + [t], Clean) || exists z :: Leads(t, z) && FreesOther(z)
  {
    var s := tr[|tr| - 1];
    var a :| Enabled(s, a, Anything) && t == Apply(s, a);
    RunInv(tr, Clean, |tr| - 1);
    if a.Step? && Intrudes(s, a.t) {
      var z := UncleanFrees(s, a.t);
    } else {
      assert Enabled(s, a, Clean) && Next(s, t, Clean) && [s, t][1..] == [t];
      Joined(tr, [s, t]);
    }
  }

  lemma {:induction false} FirstUnclean(tr: seq<State>, n: nat)
    requires Run(tr, Anything) && 0 < n <= |tr|
    ensures Run(tr[..n], Clean) || exists k, z :: 0 <= k < n && Leads(tr[k], z) && FreesOther(z)
  {
    if n > 1 {
      FirstUnclean(tr, n - 1);
      if Run(tr[..n - 1], Clean) {
        assert Next(tr[n - 2], tr[n - 2 + 1], Anything);
        CleanOrNot(tr[..n - 1], tr[n - 1]);
        assert tr[..n - 1] + [tr[n - 1]] == tr[..n];
      }
    }
  }

  /** Any run: every claim in it is clean if and only if from none of its states clean steps lead to a release freeing
    * another scope's block. */
  lemma CleanExactly(tr: seq<State>)
    requires Run(tr, Anything)
    ensures Run(tr, Clean) <==> forall k, z :: 0 <= k < |tr| && Leads(tr[k], z) ==> !FreesOther(z)
  {
    if Run(tr, Clean) {
      forall k, z | 0 <= k < |tr| && Leads(tr[k], z) ensures !FreesOther(z) { CleanOnward(tr, k, z); }
    } else {
      FirstUnclean(tr, |tr|);
      assert tr[..|tr|] == tr;
    }
  }

  // ---------------------------------------------------------------- overlapping releases

  ghost predicate Reached(s: State, n: nat) {
    exists tr: seq<State> :: Run(tr, Anything) && tr[|tr| - 1] == s && |s.scope| == |s.block| == n
  }

  lemma SameSize(s: State, a: Action)
    requires |s.scope| == |s.block| && Enabled(s, a, Anything)
    ensures |Apply(s, a).scope| == |Apply(s, a).block| == |s.scope|
  {
  }

  lemma ExtendRun(tr: seq<State>, t: State)
    requires Run(tr, Anything) && Next(tr[|tr| - 1], t, Anything)
    ensures Run(tr + [t], Anything)
  {
    var tr' := tr + [t];
    forall i | 0 <= i < |tr'| - 1 ensures Next(tr'[i], tr'[i + 1], Anything) {
      if i + 1 < |tr| { assert Next(tr[i], tr[i + 1], Anything); }
    }
  }

  lemma Extend(s: State, a: Action, s': State, n: nat)
    requires Reached(s, n) && Enabled(s, a, Anything) && s' == Apply(s, a)
    ensures Reached(s', n)
  {
    var tr: seq<State> :| Run(tr, Anything) && tr[|tr| - 1] == s && |s.scope| == |s.block| == n;
    SameSize(s, a);
    assert Next(s, s', Anything);
    ExtendRun(tr, s');
    assert (tr + [s'])[|tr|] == s';
  }

  /** A claim run alone on a table whose first slot is free. */
  lemma ClaimFirst(s: State, t: Tid, scope: Scope, b: Block, n: nat) returns (s': State)
    requires Reached(s, n) && n > 0 && t !in s.at && scope != FREE && b !in s.place && s.scope[0] == FREE
    ensures Reached(s', n)
    ensures s' == s.(scope := s.scope[0 := scope], block := s.block[0 := Some(b)], at := s.at[t := Claimed(Some(b))],
                     place := s.place[b := Tabled(0)], under := s.under[b := scope])
  {
    var s1 := s.(at := s.at[t := Scan(scope, b, 0)], place := s.place[b := Held(t)], under := s.under[b := scope]);
    Extend(s, Claim(t, scope, b), s1, n);
    s' := FillFirst(s1, t, scope, b, n);
    assert s1.at[t := Claimed(Some(b))] == s.at[t := Claimed(Some(b))];
    assert s1.place[b := Tabled(0)] == s.place[b := Tabled(0)];
  }

  lemma FillFirst(s: State, t: Tid, scope: Scope, b: Block, n: nat) returns (s': State)
    requires Reached(s, n) && n > 0 && t in s.at && s.at[t] == Scan(scope, b, 0) && s.scope[0] == FREE
    ensures Reached(s', n)
    ensures s' == s.(scope := s.scope[0 := scope], block := s.block[0 := Some(b)], at := s.at[t := Claimed(Some(b))],
                     place := s.place[b := Tabled(0)])
  {
    var s1 := s.(scope := s.scope[0 := scope], at := s.at[t := Publish(scope, b, 0)]);
    Extend(s, Step(t), s1, n);
    s' := s1.(block := s.block[0 := Some(b)], at := s1.at[t := Claimed(Some(b))], place := s.place[b := Tabled(0)]);
    Extend(s1, Step(t), s', n);
  }

  /** A release that has loaded the scope of the first slot, and no more. */
  lemma SeekFirst(s: State, t: Tid, scope: Scope, n: nat) returns (s': State)
    requires Reached(s, n) && n > 0 && t !in s.at && s.scope[0] == scope
    ensures Reached(s', n) && s' == s.(at := s.at[t := Take(scope, 0)])
  {
    var s1 := s.(at := s.at[t := Seek(scope, 0)]);
    Extend(s, Release(t, scope), s1, n);
    s' := s1.(at := s1.at[t := Take(scope, 0)]);
    Extend(s1, Step(t), s', n);
  }

  /** A release that takes whatever block the first slot holds by then. */
  lemma TakeFirst(s: State, t: Tid, scope: Scope, b: Block, n: nat) returns (s': State)
    requires Reached(s, n) && n > 0 && t in s.at && s.at[t] == Take(scope, 0) && s.block[0] == Some(b)
    ensures Reached(s', n)
    ensures s' == s.(scope := s.scope[0 := FREE], block := s.block[0 := None],
                     at := s.at[t := Released(Some(b), scope)],
                     freed := s.freed + multiset{b}, place := s.place[b := Gone])
  {
    var s1 := s.(block := s.block[0 := None], at := s.at[t := Clear(scope, b, 0)], place := s.place[b := Held(t)]);
    Extend(s, Step(t), s1, n);
    s' := EmptyFirst(s1, t, scope, b, n);
    assert s1.at[t := Released(Some(b), scope)] == s.at[t := Released(Some(b), scope)];
    assert s1.place[b := Gone] == s.place[b := Gone];
  }

  lemma EmptyFirst(s: State, t: Tid, scope: Scope, b: Block, n: nat) returns (s': State)
    requires Reached(s, n) && n > 0 && t in s.at && s.at[t] == Clear(scope, b, 0)
    ensures Reached(s', n)
    ensures s' == s.(scope := s.scope[0 := FREE], at := s.at[t := Released(Some(b), scope)],
                     freed := s.freed + multiset{b}, place := s.place[b := Gone])
  {
    var s1 := s.(scope := s.scope[0 := FREE], at := s.at[t := Discard(scope, b)]);
    Extend(s, Step(t), s1, n);
    s' := s1.(freed := s.freed + multiset{b}, at := s1.at[t := Released(Some(b), scope)], place := s1.place[b := Gone]);
    Extend(s1, Step(t), s', n);
    assert s1.at[t := Released(Some(b), scope)] == s.at[t := Released(Some(b), scope)];
  }

  /** Block 0 is claimed under `one`, and releases 1 and 2 of that scope have both loaded it. */
  lemma TwoReleases(n: nat, one: Scope) returns (s: State)
    requires n > 0 && one != FREE
    ensures Reached(s, n) && |s.scope| == |s.block| == n && s.scope[0] == one && s.block[0] == Some(0)
    ensures s.at.Keys == {0, 1, 2} && s.at[1] == Take(one, 0) && s.at[2] == Take(one, 0)
    ensures s.place.Keys == {0} && s.under.Keys == {0}
  {
    var s0 := State(seq(n, _ => FREE), seq(n, _ => None), map[], multiset{}, map[], map[]);
    assert Run([s0], Anything);
    var s1 := ClaimFirst(s0, 0, one, 0, n);
    var s2 := SeekFirst(s1, 1, one, n);
    s := SeekFirst(s2, 2, one, n);
  }

  /** Where releases overlap, one can free another scope's block: it loads the scope, a second release of that
    * scope empties the slot, a claim of another scope refills it, and then the first release takes the block. */
  lemma OverlappingReleases(n: nat, one: Scope, two: Scope)
    requires n > 0 && one != FREE && two != FREE && one != two
    ensures exists tr: seq<State> :: Run(tr, Anything) && FreesOther(tr[|tr| - 1])
  {
    var s3 := TwoReleases(n, one);
    var s4 := TakeFirst(s3, 2, one, 0, n);
    var s5 := ClaimFirst(s4, 3, two, 1, n);
    var s6 := TakeFirst(s5, 1, one, 1, n);
    assert Wrong(s6, 1);
    var tr: seq<State> :| Run(tr, Anything) && tr[|tr| - 1] == s6;
  }
}
