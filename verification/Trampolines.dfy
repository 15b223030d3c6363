/** The trampoline pools (src/mpiwrapper/callbacks.c:43-129) and the bodies that register through them
  * (src/mpiwrapper/hw_callbacks.c:26-52), under any interleaving of creations, failed ones included. */
module Trampolines {
  import opened Common

  type Tid = nat
  type Object = nat

  /** A function pointer; zero is null. */
  type Fn = nat
  const NULL: Fn := 0

  datatype Pc =
    | Try(fn: Fn, i: nat)                  // slot_alloc: compare-and-swap slot i
    | Create(fn: Fn, slot: nat)            // about to call the implementation
    | Undo(slot: nat)                      // it failed: about to store null
    | Made(o: Object) | Failed | Exhausted // the call has returned an object, an error, or that the pool is full

  /** An object carries the trampoline it was registered with.  Freeing only marks it (section 2.5.2 of MPI-5.0): a
    * pending operation may still call it. */
  datatype Registered = Registered(slot: nat, fn: Fn, marked: bool)

  datatype State = State(fn: seq<Fn>, at: map<Tid, Pc>, objects: map<Object, Registered>)

  datatype Action =
    | Begin(t: Tid, fn: Fn) | Step(t: Tid) | Succeed(t: Tid, o: Object) | Fail(t: Tid) | Leave(t: Tid) | Mark(o: Object)

  predicate Initial(s: State) {
    (forall i :: 0 <= i < |s.fn| ==> s.fn[i] == NULL) && s.at == map[] && s.objects == map[]
  }

  predicate Resting(pc: Pc) {
    pc.Made? || pc.Failed? || pc.Exhausted?
  }

  /** With `callable`, nobody registers the null function. */
  predicate Enabled(s: State, a: Action, callable: bool) {
    match a
    case Begin(t, fn) => t !in s.at && (callable ==> fn != NULL)
    case Step(t) => t in s.at && (s.at[t].Try? || s.at[t].Undo?)
    case Succeed(t, o) => t in s.at && s.at[t].Create? && o !in s.objects
    case Fail(t) => t in s.at && s.at[t].Create?
    case Leave(t) => t in s.at && Resting(s.at[t])
    case Mark(o) => o in s.objects
  }

  function Goto(s: State, t: Tid, pc: Pc): State {
    s.(at := s.at[t := pc])
  }

  function Apply(s: State, a: Action): State
    requires Enabled(s, a, false)
  {
    match a
    case Begin(t, fn) => Goto(s, t, Try(fn, 0))
    case Step(t) =>
      (match s.at[t]
       case Try(fn, i) =>
         if i >= |s.fn| then Goto(s, t, Exhausted)
         else if s.fn[i] == NULL then Goto(s.(fn := s.fn[i := fn]), t, Create(fn, i))
         else Goto(s, t, Try(fn, i + 1))
       case Undo(slot) => if slot < |s.fn| then Goto(s.(fn := s.fn[slot := NULL]), t, Failed) else s
       case _ => s)
    case Succeed(t, o) =>
      Goto(s, t, Made(o)).(objects := s.objects[o := Registered(s.at[t].slot, s.at[t].fn, false)])
    case Fail(t) => Goto(s, t, Undo(s.at[t].slot))
    case Leave(t) => s.(at := s.at - {t})
    case Mark(o) => s.(objects := s.objects[o := s.objects[o].(marked := true)])
  }

  ghost predicate Next(s: State, s': State, callable: bool) {
    exists a :: Enabled(s, a, callable) && s' == Apply(s, a)
  }

  ghost predicate Run(tr: seq<State>, callable: bool) {
    |tr| > 0 && Initial(tr[0]) && forall i :: 0 <= i < |tr| - 1 ==> Next(tr[i], tr[i + 1], callable)
  }

  // ---------------------------------------------------------------- the invariant

  /** The slot a creation has to itself. */
  function Owns(pc: Pc): Option<nat> {
    match pc
    case Create(_, slot) => Some(slot)
    case Undo(slot) => Some(slot)
    case _ => None
  }

  predicate ThreadInv(s: State, t: Tid)
    requires t in s.at
  {
    match s.at[t]
    case Try(fn, _) => fn != NULL
    case Create(fn, slot) => fn != NULL && slot < |s.fn| && s.fn[slot] == fn
    case Undo(slot) => slot < |s.fn| && s.fn[slot] != NULL
    case _ => true
  }

  predicate ObjectInv(s: State, o: Object)
    requires o in s.objects
  {
    var r := s.objects[o];
    r.fn != NULL && r.slot < |s.fn| && s.fn[r.slot] == r.fn
  }

  predicate Apart(s: State, t: Tid, u: Tid) {
    t in s.at && u in s.at && t != u && Owns(s.at[t]).Some? ==> Owns(s.at[t]) != Owns(s.at[u])
  }

  predicate Clear(s: State, t: Tid, o: Object) {
    t in s.at && o in s.objects ==> Owns(s.at[t]) != Some(s.objects[o].slot)
  }

  predicate Distinct2(s: State, o: Object, q: Object) {
    o in s.objects && q in s.objects && o != q ==> s.objects[o].slot != s.objects[q].slot
  }

  /** A slot that is taken is that of a creation that has not ended, or of an object. */
  ghost predicate Accounted(s: State, i: nat) {
    i < |s.fn| && s.fn[i] != NULL ==>
      (exists t :: t in s.at && Owns(s.at[t]) == Some(i)) || exists o :: o in s.objects && s.objects[o].slot == i
  }

  ghost predicate Inv(s: State) {
    && (forall t {:trigger ThreadInv(s, t)} :: t in s.at ==> ThreadInv(s, t))
    && (forall o {:trigger ObjectInv(s, o)} :: o in s.objects ==> ObjectInv(s, o))
    && (forall t, u {:trigger Apart(s, t, u)} :: Apart(s, t, u))
    && (forall t, o {:trigger Clear(s, t, o)} :: Clear(s, t, o))
    && (forall o, q {:trigger Distinct2(s, o, q)} :: Distinct2(s, o, q))
    && (forall i {:trigger Accounted(s, i)} :: Accounted(s, i))
  }

  /** Slots that stay as they are, in the same hands or handed to an object. */
  lemma AccountedMore(s: State, s': State, i: nat)
    requires Accounted(s, i) && |s'.fn| == |s.fn| && (i < |s.fn| ==> s'.fn[i] == s.fn[i])
    requires forall t :: t in s.at && Owns(s.at[t]) == Some(i) ==>
      (t in s'.at && Owns(s'.at[t]) == Some(i)) || exists o :: o in s'.objects && s'.objects[o].slot == i
    requires forall o :: o in s.objects ==> o in s'.objects && s'.objects[o].slot == s.objects[o].slot
    ensures Accounted(s', i)
  {
    if i < |s.fn| && s.fn[i] != NULL && exists o :: o in s.objects && s.objects[o].slot == i {
      var o :| o in s.objects && s.objects[o].slot == i;
      assert o in s'.objects && s'.objects[o].slot == i;
    }
  }

  lemma InitialInv(s: State)
    requires Initial(s)
    ensures Inv(s)
  {
  }

  /** A step of thread t that moves only its program counter. */
  lemma QuietInv(s: State, t: Tid, pc: Pc)
    requires Inv(s) && ThreadInv(Goto(s, t, pc), t)
    requires Owns(pc) == if t in s.at then Owns(s.at[t]) else None
    ensures Inv(Goto(s, t, pc))
  {
    var s' := Goto(s, t, pc);
    forall u {:trigger ThreadInv(s', u)} | u in s'.at ensures ThreadInv(s', u) { if u != t { assert ThreadInv(s, u); } }
    forall o {:trigger ObjectInv(s', o)} | o in s'.objects ensures ObjectInv(s', o) { assert ObjectInv(s, o); }
    forall u, v {:trigger Apart(s', u, v)} ensures Apart(s', u, v) { assert Apart(s, u, v); }
    forall u, o {:trigger Clear(s', u, o)} ensures Clear(s', u, o) { assert Clear(s, u, o); }
    forall o, q {:trigger Distinct2(s', o, q)} ensures Distinct2(s', o, q) { assert Distinct2(s, o, q); }
    forall i {:trigger Accounted(s', i)} ensures Accounted(s', i) { assert Accounted(s, i); AccountedMore(s, s', i); }
  }

  /** Taking a free slot: nobody else has it, or they would have made it non-null. */
  lemma TakeInv(s: State, t: Tid, i: nat)
    requires Inv(s) && t in s.at && s.at[t].Try? && s.at[t].i == i && i < |s.fn| && s.fn[i] == NULL
    ensures Inv(Apply(s, Step(t)))
  {
    var s' := Apply(s, Step(t));
    assert ThreadInv(s, t);
    forall u {:trigger ThreadInv(s', u)} | u in s'.at ensures ThreadInv(s', u) { if u != t { assert ThreadInv(s, u); } }
    forall o {:trigger ObjectInv(s', o)} | o in s'.objects ensures ObjectInv(s', o) { assert ObjectInv(s, o); }
    forall u, v {:trigger Apart(s', u, v)} ensures Apart(s', u, v) {
      assert Apart(s, u, v);
      if u in s.at { assert ThreadInv(s, u); }
      if v in s.at { assert ThreadInv(s, v); }
    }
    forall u, o {:trigger Clear(s', u, o)} ensures Clear(s', u, o) {
      assert Clear(s, u, o);
      if o in s.objects { assert ObjectInv(s, o); }
    }
    forall o, q {:trigger Distinct2(s', o, q)} ensures Distinct2(s', o, q) { assert Distinct2(s, o, q); }
    forall j {:trigger Accounted(s', j)} ensures Accounted(s', j) {
      assert t in s'.at && Owns(s'.at[t]) == Some(i);
      if j != i { assert Accounted(s, j); AccountedMore(s, s', j); }
    }
  }

  lemma UndoInv(s: State, t: Tid)
    requires Inv(s) && t in s.at && s.at[t].Undo?
    ensures Inv(Apply(s, Step(t)))
  {
    var s' := Apply(s, Step(t));
    assert ThreadInv(s, t);
    forall u {:trigger ThreadInv(s', u)} | u in s'.at ensures ThreadInv(s', u) {
      if u != t { assert ThreadInv(s, u) && Apart(s, t, u); }
    }
    forall o {:trigger ObjectInv(s', o)} | o in s'.objects ensures ObjectInv(s', o) {
      assert ObjectInv(s, o) && Clear(s, t, o);
    }
    forall u, v {:trigger Apart(s', u, v)} ensures Apart(s', u, v) { assert Apart(s, u, v); }
    forall u, o {:trigger Clear(s', u, o)} ensures Clear(s', u, o) { assert Clear(s, u, o); }
    forall o, q {:trigger Distinct2(s', o, q)} ensures Distinct2(s', o, q) { assert Distinct2(s, o, q); }
    forall i {:trigger Accounted(s', i)} ensures Accounted(s', i) {
      if i != s.at[t].slot { assert Accounted(s, i); AccountedMore(s, s', i); }
    }
  }

  lemma SucceedInv(s: State, t: Tid, p: Object)
    requires Inv(s) && Enabled(s, Succeed(t, p), true)
    ensures Inv(Apply(s, Succeed(t, p)))
  {
    var s' := Apply(s, Succeed(t, p));
    assert ThreadInv(s, t);
    forall u {:trigger ThreadInv(s', u)} | u in s'.at ensures ThreadInv(s', u) { if u != t { assert ThreadInv(s, u); } }
    forall o {:trigger ObjectInv(s', o)} | o in s'.objects ensures ObjectInv(s', o) {
      if o != p { assert ObjectInv(s, o); }
    }
    forall u, v {:trigger Apart(s', u, v)} ensures Apart(s', u, v) { assert Apart(s, u, v); }
    forall u, o {:trigger Clear(s', u, o)} ensures Clear(s', u, o) { assert Clear(s, u, o) && Apart(s, t, u); }
    forall o, q {:trigger Distinct2(s', o, q)} ensures Distinct2(s', o, q) {
      assert Distinct2(s, o, q) && Clear(s, t, o) && Clear(s, t, q);
    }
    assert p in s'.objects;
    forall i {:trigger Accounted(s', i)} ensures Accounted(s', i) { assert Accounted(s, i); AccountedMore(s, s', i); }
  }

  lemma OtherInv(s: State, a: Action)
    requires Inv(s) && Enabled(s, a, true) && (a.Leave? || a.Mark?)
    ensures Inv(Apply(s, a))
  {
    var s' := Apply(s, a);
    forall u {:trigger ThreadInv(s', u)} | u in s'.at ensures ThreadInv(s', u) { assert ThreadInv(s, u); }
    forall o {:trigger ObjectInv(s', o)} | o in s'.objects ensures ObjectInv(s', o) { assert ObjectInv(s, o); }
    forall u, v {:trigger Apart(s', u, v)} ensures Apart(s', u, v) { assert Apart(s, u, v); }
    forall u, o {:trigger Clear(s', u, o)} ensures Clear(s', u, o) { assert Clear(s, u, o); }
    forall o, q {:trigger Distinct2(s', o, q)} ensures Distinct2(s', o, q) { assert Distinct2(s, o, q); }
    forall i {:trigger Accounted(s', i)} ensures Accounted(s', i) { assert Accounted(s, i); AccountedMore(s, s', i); }
  }

  lemma ActionInv(s: State, a: Action)
    requires Inv(s) && Enabled(s, a, true)
    ensures Inv(Apply(s, a))
  {
    match a
    case Begin(t, fn) => QuietInv(s, t, Try(fn, 0));
    case Step(t) =>
      assert ThreadInv(s, t);
      if s.at[t].Undo? { UndoInv(s, t); }
      else if s.at[t].i < |s.fn| && s.fn[s.at[t].i] == NULL { TakeInv(s, t, s.at[t].i); }
      else { QuietInv(s, t, if s.at[t].i < |s.fn| then Try(s.at[t].fn, s.at[t].i + 1) else Exhausted); }
    case Succeed(t, o) => SucceedInv(s, t, o);
    case Fail(t) =>
      assert ThreadInv(s, t);
      QuietInv(s, t, Undo(s.at[t].slot));
    case Leave(_) => OtherInv(s, a);
    case Mark(_) => OtherInv(s, a);
  }

  lemma {:induction false} RunInv(tr: seq<State>, i: nat)
    requires Run(tr, true) && i < |tr|
    ensures Inv(tr[i])
  {
    if i == 0 {
      InitialInv(tr[0]);
    } else {
      RunInv(tr, i - 1);
      assert Next(tr[i - 1], tr[i - 1 + 1], true);
      var a :| Enabled(tr[i - 1], a, true) && tr[i] == Apply(tr[i - 1], a);
      ActionInv(tr[i - 1], a);
    }
  }

  /** What the trampoline of an object calls. */
  function Dispatch(s: State, o: Object): Fn
    requires o in s.objects
  {
    if s.objects[o].slot < |s.fn| then s.fn[s.objects[o].slot] else NULL
  }

  lemma {:induction false} ObjectStays(tr: seq<State>, i: nat, j: nat, o: Object)
    requires Run(tr, true) && i <= j < |tr| && o in tr[i].objects
    ensures o in tr[j].objects && tr[j].objects[o].fn == tr[i].objects[o].fn
      && tr[j].objects[o].slot == tr[i].objects[o].slot
    decreases j - i
  {
    if i < j {
      ObjectStays(tr, i, j - 1, o);
      assert Next(tr[j - 1], tr[j - 1 + 1], true);
      var a :| Enabled(tr[j - 1], a, true) && tr[j] == Apply(tr[j - 1], a);
    }
  }

  /** An object's trampoline calls the function it was registered with, forever, marked for deallocation or not. */
  lemma DispatchForever(tr: seq<State>, i: nat, j: nat, o: Object)
    requires Run(tr, true) && i <= j < |tr| && o in tr[i].objects
    ensures o in tr[j].objects && Dispatch(tr[j], o) == tr[i].objects[o].fn != NULL
  {
    ObjectStays(tr, i, j, o);
    RunInv(tr, j);
    assert ObjectInv(tr[j], o);
  }

  /** Distinct objects have distinct slots. */
  lemma SlotsApart(tr: seq<State>, i: nat, o: Object, q: Object)
    requires Run(tr, true) && i < |tr| && o in tr[i].objects && q in tr[i].objects && o != q
    ensures tr[i].objects[o].slot != tr[i].objects[q].slot
  {
    RunInv(tr, i);
    assert Distinct2(tr[i], o, q);
  }

  /** No slot is lost: one that is taken belongs to an object, or to a creation that has not ended. */
  lemma NoSlotLost(tr: seq<State>, i: nat, k: nat)
    requires Run(tr, true) && i < |tr| && k < |tr[i].fn| && tr[i].fn[k] != NULL
    ensures (exists o :: o in tr[i].objects && tr[i].objects[o].slot == k)
      || exists t :: t in tr[i].at && Owns(tr[i].at[t]) == Some(k)
  {
    RunInv(tr, i);
    assert Accounted(tr[i], k);
  }

  // ---------------------------------------------------------------- the null function

  /** Registering null takes a slot without taking it: the next object shares the trampoline, and the first object
    * then calls a function it was never registered with. */
  lemma NullSharesSlot(n: nat, f: Fn)
    requires n > 0 && f != NULL
    ensures exists tr: seq<State> :: Run(tr, false) && Shared(tr[|tr| - 1])
  {
    var s0 := State(seq(n, _ => NULL), map[], map[]);
    var s1 := s0.(at := map[0 := Try(NULL, 0)]);
    var s2 := s0.(at := map[0 := Create(NULL, 0)]);
    var s3 := s0.(at := map[0 := Made(0)], objects := map[0 := Registered(0, NULL, false)]);
    var s4 := s3.(at := s3.at[1 := Try(f, 0)]);
    var s5 := s4.(fn := s4.fn[0 := f], at := s4.at[1 := Create(f, 0)]);
    var s6 := s5.(at := s5.at[1 := Made(1)], objects := s5.objects[1 := Registered(0, f, false)]);
    var tr := [s0, s1, s2, s3, s4, s5, s6];
    assert s0.fn[0 := NULL] == s0.fn;
    Steps(s0, Begin(0, NULL), s1);
    Steps(s1, Step(0), s2);
    Steps(s2, Succeed(0, 0), s3);
    Steps(s3, Begin(1, f), s4);
    Steps(s4, Step(1), s5);
    Steps(s5, Succeed(1, 1), s6);
    assert SharedBy(s6, 0, 1);
    assert Run(tr, false) && Shared(tr[|tr| - 1]);
  }

  lemma Steps(s: State, a: Action, s': State)
    requires Enabled(s, a, false) && s' == Apply(s, a)
    ensures Next(s, s', false)
  {
  }

  predicate SharedBy(s: State, o: Object, q: Object) {
    o in s.objects && q in s.objects && o != q && s.objects[o].slot == s.objects[q].slot
    && Dispatch(s, o) != s.objects[o].fn
  }

  ghost predicate Shared(s: State) {
    exists o, q :: SharedBy(s, o, q)
  }

  // ---------------------------------------------------------------- the expansion of the pools

  function HexDigit(v: nat): (c: char)
    requires v < 16
    ensures IsHex(c) && DigitValue(c) == v
  {
    if v < 10 then '0' + v as char else 'a' + (v - 10) as char
  }

  predicate IsHex(c: char) {
    '0' <= c <= '9' || 'a' <= c <= 'f'
  }

  function DigitValue(c: char): nat
    requires IsHex(c)
  {
    if c <= '9' then c as nat - '0' as nat else c as nat - 'a' as nat + 10
  }

  predicate AllHex(s: string) {
    forall k :: 0 <= k < |s| ==> IsHex(s[k])
  }

  /** The value of a hexadecimal suffix, as `0x##SUF` reads it. */
  function HexValue(s: string): nat
    requires AllHex(s)
  {
    if s == "" then 0 else 16 * HexValue(s[..|s| - 1]) + DigitValue(s[|s| - 1])
  }

  /** MPIWRAPPER_HEX16 and MPIWRAPPER_HEX256: the suffixes under a prefix, in order. */
  function Hex16(p: string): (r: seq<string>)
    ensures |r| == 16 && forall d :: 0 <= d < 16 ==> r[d] == p + [HexDigit(d)]
  {
    seq(16, d requires 0 <= d < 16 => p + [HexDigit(d)])
  }

  function Hex256(p: string, ds: string): (r: seq<string>)
    ensures |r| == 16 * |ds|
    decreases |ds|
  {
    if ds == "" then [] else Hex16(p + [ds[0]]) + Hex256(p, ds[1..])
  }

  function Digits(n: nat): (r: string)
    requires n <= 16
    ensures |r| == n && forall v :: 0 <= v < n ==> r[v] == HexDigit(v)
  {
    seq(n, v requires 0 <= v < n => HexDigit(v))
  }

  /** MPIWRAPPER_OP_POOL: the prefixes 0 to 3, each expanded. */
  function Pool(qs: string, ds: string): (r: seq<string>)
    requires |ds| == 16
    ensures |r| == 256 * |qs|
    decreases |qs|
  {
    if qs == "" then [] else Hex256([qs[0]], ds) + Pool(qs[1..], ds)
  }

  lemma {:induction false} Hex256At(p: string, ds: string, k: nat, lo: nat)
    requires k < |ds| && lo < 16
    ensures Hex256(p, ds)[16 * k + lo] == p + [ds[k]] + [HexDigit(lo)]
    decreases k
  {
    var first, rest := Hex16(p + [ds[0]]), Hex256(p, ds[1..]);
    if k == 0 {
      assert (first + rest)[lo] == first[lo];
    } else {
      Hex256At(p, ds[1..], k - 1, lo);
      assert (first + rest)[16 * k + lo] == rest[16 * (k - 1) + lo];
    }
  }

  lemma {:induction false} PoolAt(qs: string, ds: string, k: nat, i: nat)
    requires k < |qs| && i < 256 && |ds| == 16
    ensures Pool(qs, ds)[256 * k + i] == Hex256([qs[k]], ds)[i]
    decreases k
  {
    var first, rest := Hex256([qs[0]], ds), Pool(qs[1..], ds);
    assert Pool(qs, ds) == first + rest;
    if k > 0 {
      PoolAt(qs[1..], ds, k - 1, i);
      Behind(first, rest, 256 * (k - 1) + i);
    }
  }

  lemma Behind(first: seq<string>, rest: seq<string>, j: nat)
    requires j < |rest|
    ensures (first + rest)[|first| + j] == rest[j]
  {
  }

  lemma SuffixValue(p: string, v: nat)
    requires v < 16 && AllHex(p)
    ensures AllHex(p + [HexDigit(v)]) && HexValue(p + [HexDigit(v)]) == 16 * HexValue(p) + v
  {
    var s := p + [HexDigit(v)];
    assert s[..|s| - 1] == p;
  }

  lemma Hex256Value(p: string, hi: nat, lo: nat)
    requires hi < 16 && lo < 16 && AllHex(p)
    ensures var s := Hex256(p, Digits(16))[16 * hi + lo]; AllHex(s) && HexValue(s) == 256 * HexValue(p) + 16 * hi + lo
  {
    Hex256At(p, Digits(16), hi, lo);
    SuffixValue(p, hi);
    SuffixValue(p + [HexDigit(hi)], lo);
  }

  lemma OneDigit(v: nat)
    requires v < 16
    ensures AllHex([HexDigit(v)]) && HexValue([HexDigit(v)]) == v
  {
    var none: string := [];
    assert none + [HexDigit(v)] == [HexDigit(v)];
    SuffixValue(none, v);
  }

  /** The trampoline at position i of the op pool dispatches slot i, and there are 1024 of them. */
  lemma OpPoolIndexed(top: nat, hi: nat, lo: nat)
    requires top < 4 && hi < 16 && lo < 16
    ensures var pool, i := Pool(Digits(4), Digits(16)), 256 * top + (16 * hi + lo);
      |pool| == 1024 && AllHex(pool[i]) && HexValue(pool[i]) == i
  {
    PoolAt(Digits(4), Digits(16), top, 16 * hi + lo);
    OneDigit(top);
    Hex256Value([HexDigit(top)], hi, lo);
  }

  /** So does the error-handler pool, whose suffixes have no prefix. */
  lemma ErrhandlerPoolIndexed(hi: nat, lo: nat)
    requires hi < 16 && lo < 16
    ensures |Hex256([], Digits(16))| == 256
    ensures var i := 16 * hi + lo; AllHex(Hex256([], Digits(16))[i]) && HexValue(Hex256([], Digits(16))[i]) == i
  {
    Hex256Value([], hi, lo);
  }
}
