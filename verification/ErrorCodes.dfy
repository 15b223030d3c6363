/** The error-code conversions as one thread at a time sees them: the generated switches
  * (gen/mpiwrapper/constants.c:735-1001) over the registry (src/mpiwrapper/errorcodes.c:87-161). */
module ErrorCodes {
  import opened Common

  const SUCCESS := 0
  const ERR_LASTCODE := 0x3fff
  const BASE := ERR_LASTCODE + 1

  /** The predefined codes this implementation has: its value and the ABI's, and the catch-all of each side. */
  datatype Predefined = Predefined(impl: seq<int>, abi: seq<int>, other: nat)

  /** Case labels are distinct on each side, success is not one of them, and no ABI label exceeds MPI_ERR_LASTCODE. */
  predicate Switches(p: Predefined) {
    && |p.impl| == |p.abi| && p.other < |p.impl|
    && Distinct(p.impl) && Distinct(p.abi)
    && (forall k :: 0 <= k < |p.abi| ==> 0 < p.abi[k] <= ERR_LASTCODE)
    && (forall k :: 0 <= k < |p.impl| ==> p.impl[k] != SUCCESS)
  }

  /** The newest slot holding a code: the downward scan. */
  function Newest(codes: seq<int>, e: int): (r: Option<nat>)
    ensures r == None <==> e !in codes
    ensures r.Some? ==> r.value < |codes| && codes[r.value] == e && e !in codes[r.value + 1..]
  {
    if codes == [] then None
    else
      var last := |codes| - 1;
      if codes[last] == e then Some(last)
      else
        var r := Newest(codes[..last], e);
        assert codes == codes[..last] + [codes[last]];
        assert r.Some? ==> codes[r.value + 1..] == codes[..last][r.value + 1..] + [codes[last]];
        r
  }

  /** One step of the scan. */
  lemma NewestStep(codes: seq<int>, e: int, k: nat)
    requires k < |codes|
    ensures Newest(codes[..k + 1], e) == if codes[k] == e then Some(k) else Newest(codes[..k], e)
  {
    assert codes[..k + 1][..k] == codes[..k];
  }

  /** The registry's answer to an implementation code it does not have among the predefined ones, and the registry
    * afterwards. */
  function DynamicToAbi(p: Predefined, codes: seq<int>, slots: nat, e: int): (int, seq<int>)
    requires Switches(p)
  {
    match Newest(codes, e)
    case Some(k) => (BASE + k, codes)
    case None => if |codes| < slots && e != SUCCESS then (BASE + |codes|, codes + [e]) else (p.abi[p.other], codes)
  }

  function DynamicFromAbi(p: Predefined, codes: seq<int>, slots: nat, abi: int): int
    requires Switches(p)
  {
    var slot := abi - BASE;
    if slot < 0 || slot >= |codes| || slot >= slots then p.impl[p.other] else codes[slot]
  }

  function ToAbi(p: Predefined, codes: seq<int>, slots: nat, e: int): (int, seq<int>)
    requires Switches(p)
  {
    if e == SUCCESS then (SUCCESS, codes)
    else
      match Assoc(p.impl, p.abi, e)
      case Some(abi) => (abi, codes)
      case None => DynamicToAbi(p, codes, slots, e)
  }

  function FromAbi(p: Predefined, codes: seq<int>, slots: nat, abi: int): int
    requires Switches(p)
  {
    if abi == SUCCESS then SUCCESS
    else
      match Assoc(p.abi, p.impl, abi)
      case Some(e) => e
      case None => DynamicFromAbi(p, codes, slots, abi)
  }

  predicate Registered(codes: seq<int>, slots: nat) {
    |codes| <= slots && SUCCESS !in codes
  }

  /** Distinct labels: the two directions of the switch invert each other. */
  lemma SwitchInverts(keys: seq<int>, vals: seq<int>, k: int)
    requires |keys| == |vals| && Distinct(vals) && k in keys
    ensures Assoc(keys, vals, k).Some? && Assoc(vals, keys, Assoc(keys, vals, k).value) == Some(k)
  {
    var i := FirstPair(keys, vals, k);
    OnlyPair(vals, keys, i);
  }

  /** A converted error code converts back to itself exactly when it is predefined, already registered, or there is
    * room to register it; otherwise the caller is told MPI_ERR_OTHER. */
  lemma RoundTrip(p: Predefined, codes: seq<int>, slots: nat, e: int)
    requires Switches(p) && Registered(codes, slots)
    ensures var (abi, codes') := ToAbi(p, codes, slots, e);
      && Registered(codes', slots)
      && (FromAbi(p, codes', slots, abi) == e <==> e == SUCCESS || e in p.impl || e in codes || |codes| < slots)
      && (e != SUCCESS && e !in p.impl && e !in codes && |codes| == slots ==> abi == p.abi[p.other] && codes' == codes)
  {
    var (abi, codes') := ToAbi(p, codes, slots, e);
    if e == SUCCESS {
    } else if e in p.impl {
      SwitchInverts(p.impl, p.abi, e);
      var i := FirstPair(p.impl, p.abi, e);
    } else if e in codes || |codes| < slots {
      assert abi > ERR_LASTCODE;
      assert abi !in p.abi;
    } else {
      OnlyPair(p.abi, p.impl, p.other);
    }
  }

  /** Every code the application can be handed converts back to one value, and dynamic codes are never confused with
    * predefined ones. */
  lemma Disjoint(p: Predefined, codes: seq<int>, slots: nat, k: nat)
    requires Switches(p) && Registered(codes, slots) && k < |codes|
    ensures FromAbi(p, codes, slots, BASE + k) == codes[k]
    ensures BASE + k !in p.abi
  {
    assert forall j :: 0 <= j < |p.abi| ==> p.abi[j] != BASE + k;
  }

  /** An implementation that reuses a number for a new class: the number resolves to its newest registration. */
  lemma RecycledNumber(p: Predefined, codes: seq<int>, slots: nat, e: int)
    requires Switches(p) && Registered(codes, slots) && |codes| < slots && e != SUCCESS && e !in p.impl
    ensures ToAbi(p, codes + [e], slots, e) == (BASE + |codes|, codes + [e])
  {
    assert (codes + [e])[|codes|] == e;
    assert Assoc(p.impl, p.abi, e) == None;
  }

  /** MPI_LASTUSEDCODE (section 9.5 of MPI-5.0). */
  function LastUsedOf(codes: seq<int>): int {
    if codes == [] then ERR_LASTCODE else BASE + |codes| - 1
  }

  /** It is at least MPI_ERR_LASTCODE, bounds every code a conversion answers, and never goes down. */
  lemma LastUsedBounds(p: Predefined, codes: seq<int>, slots: nat, e: int)
    requires Switches(p) && Registered(codes, slots)
    ensures var (abi, codes') := ToAbi(p, codes, slots, e);
      ERR_LASTCODE <= LastUsedOf(codes') && abi <= LastUsedOf(codes') && LastUsedOf(codes) <= LastUsedOf(codes')
  {
    var (abi, codes') := ToAbi(p, codes, slots, e);
    if e != SUCCESS && e in p.impl {
      var i := FirstPair(p.impl, p.abi, e);
    }
  }

  /** It is attained: MPI_ERR_LASTCODE stands for the empty registry alone, otherwise the value is the code of the
    * newest registration and converts to it, and a conversion that registers a code answers just that. */
  lemma LastUsedAttained(p: Predefined, codes: seq<int>, slots: nat, e: int)
    requires Switches(p) && Registered(codes, slots)
    ensures LastUsedOf(codes) == ERR_LASTCODE <==> codes == []
    ensures codes != [] ==> FromAbi(p, codes, slots, LastUsedOf(codes)) == codes[|codes| - 1]
    ensures var (abi, codes') := ToAbi(p, codes, slots, e); codes' != codes ==> abi == LastUsedOf(codes')
  {
    if codes != [] { Disjoint(p, codes, slots, |codes| - 1); }
  }

  /** A number that is neither a label of the switch nor a registered slot is answered with the implementation's
    * MPI_ERR_OTHER. */
  lemma Unissued(p: Predefined, codes: seq<int>, slots: nat, abi: int)
    requires Switches(p) && Registered(codes, slots)
    requires abi != SUCCESS && abi !in p.abi && !(BASE <= abi < BASE + |codes|)
    ensures FromAbi(p, codes, slots, abi) == p.impl[p.other]
  {
  }

  /** The registry's two globals. */
  class Registry {
    const impl: array<int>
    var count: nat

    ghost predicate Valid()
      reads this, impl
    {
      count <= impl.Length && Registered(Codes(), impl.Length)
    }

    ghost function Codes(): seq<int>
      reads this, impl
    {
      if count <= impl.Length then impl[..count] else impl[..]
    }

    constructor (slots: nat)
      ensures Valid() && Codes() == [] && impl.Length == slots && fresh(impl)
    {
      impl := new int[slots](_ => 0);
      count := 0;
    }

    /** mpiwrapper_errorcode_add */
    method Add(e: int) returns (code: Option<int>)
      requires Valid()
      modifies this`count, impl
      ensures Valid()
      ensures code.Some? <==> e != SUCCESS && |old(Codes())| < impl.Length
      ensures code.Some? ==> code == Some(BASE + |old(Codes())|) && Codes() == old(Codes()) + [e]
      ensures code == None ==> Codes() == old(Codes())
    {
      if e == SUCCESS { return None; }
      var slot := count;
      count := count + 1;
      if slot >= impl.Length {
        count := impl.Length;
        return None;
      }
      impl[slot] := e;
      return Some(BASE + slot);
    }

    /** mpiwrapper_errorcode_lastused */
    method LastUsed() returns (code: int)
      requires Valid()
      ensures code == LastUsedOf(Codes())
    {
      var used := if count < impl.Length then count else impl.Length;
      code := if used > 0 then BASE + used - 1 else ERR_LASTCODE;
    }

    /** mpiwrapper_errorcode_dynamic_fromabi */
    method DynamicFrom(p: Predefined, abi: int) returns (e: int)
      requires Valid() && Switches(p)
      ensures e == DynamicFromAbi(p, Codes(), impl.Length, abi)
    {
      var slot := abi - BASE;
      if slot < 0 || slot >= count || slot >= impl.Length { return p.impl[p.other]; }
      return impl[slot];
    }

    /** The downward scan: newest first. */
    method Search(e: int) returns (slot: int)
      requires Valid()
      ensures Newest(Codes(), e) == if slot < 0 then None else Some(slot)
    {
      var last := if count < impl.Length then count else impl.Length;
      slot := last - 1;
      ghost var codes := Codes();
      assert codes[..last] == codes;
      while slot >= 0
        invariant -1 <= slot < last == |codes|
        invariant Newest(codes, e) == Newest(codes[..slot + 1], e)
      {
        NewestStep(codes, e, slot);
        assert impl[slot] == codes[slot];
        if impl[slot] == e { return; }
        slot := slot - 1;
      }
      assert codes[..0] == [];
    }

    /** mpiwrapper_errorcode_dynamic_toabi */
    method DynamicTo(p: Predefined, e: int) returns (abi: int)
      requires Valid() && Switches(p) && e != SUCCESS
      modifies this`count, impl
      ensures Valid() && (abi, Codes()) == DynamicToAbi(p, old(Codes()), impl.Length, e)
    {
      var slot := Search(e);
      if slot >= 0 { return BASE + slot; }
      var code := Add(e);
      if code.Some? { return code.value; }
      return p.abi[p.other];
    }
  }
}
