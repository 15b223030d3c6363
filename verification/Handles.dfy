/** Handle conversion in both directions (src/mpiwrapper/handles.c, gen/mpiwrapper/constants.c:52-292): predefined
  * handles through a switch and its reverse map, every other handle by preserving its bits. */
module Handles {
  import opened Common
  import opened Powers
  import ReverseMap

  const PREDEF_FIRST: Word := 0x20
  const PREDEF_LAST: Word := 0x2eb

  predicate Predefined(bits: Word) {
    PREDEF_FIRST <= bits <= PREDEF_LAST
  }

  /** One handle class: the predefined handles this implementation has, in the ABI's order, and the null handle's
    * place among them. */
  datatype Class = Class(impl: seq<Word>, abi: seq<Word>, nul: nat)

  /** Switch labels are distinct and in the ABI's predefined range; no handle has the reverse map's empty value.
    * The implementation may give two of them one value. */
  predicate Proper(c: Class) {
    && |c.impl| == |c.abi| && c.nul < |c.impl| && Distinct(c.abi) && ReverseMap.EMPTY !in c.impl
    && forall k :: 0 <= k < |c.abi| ==> Predefined(c.abi[k])
  }

  /** The `_fromabi` switch, and its two default arms. */
  function FromAbi(c: Class, a: Word): Word
    requires Proper(c)
  {
    match Assoc<Word, Word>(c.abi, c.impl, a)
    case Some(h) => h
    case None => if Predefined(a) then c.impl[c.nul] else a
  }

  /** The `_toabi` direction: a handle, and whether the conversion failed. */
  function ToAbi(c: Class, h: Word): (Word, bool)
    requires Proper(c)
  {
    match Assoc<Word, Word>(c.impl, c.abi, h)
    case Some(a) => (a, false)
    case None => if Predefined(h) then (c.abi[c.nul], true) else (h, false)
  }

  lemma AbiPredefined(c: Class, a: Word)
    requires Proper(c) && a in c.abi
    ensures Predefined(a)
  {
  }

  lemma FirstLabel(c: Class, h: Word)
    requires Proper(c) && h in c.impl
    ensures ToAbi(c, h).0 in c.abi && FromAbi(c, ToAbi(c, h).0) == h
  {
    var i := FirstPair<Word, Word>(c.impl, c.abi, h);
    OnlyPair<Word, Word>(c.abi, c.impl, i);
  }

  /** An implementation handle survives the round trip exactly when it is predefined or outside the ABI's range; what
    * does not survive is reported, and becomes the null handle. */
  lemma ImplRoundTrip(c: Class, h: Word)
    requires Proper(c)
    ensures FromAbi(c, ToAbi(c, h).0) == h <==> h in c.impl || !Predefined(h)
    ensures ToAbi(c, h).1 <==> FromAbi(c, ToAbi(c, h).0) != h
    ensures ToAbi(c, h).1 ==> ToAbi(c, h).0 == c.abi[c.nul]
  {
    if h in c.impl {
      FirstLabel(c, h);
    } else if Predefined(h) {
      OnlyPair<Word, Word>(c.abi, c.impl, c.nul);
    } else if h in c.abi {
      AbiPredefined(c, h);
    }
  }

  /** The first of the ABI's labels for its implementation value. */
  predicate Canonical(c: Class, a: Word)
    requires Proper(c)
  {
    a in c.abi && ToAbi(c, FromAbi(c, a)).0 == a
  }

  /** Which label is the first: no earlier one has the same implementation value. */
  lemma CanonicalIsFirst(c: Class, i: nat)
    requires Proper(c) && i < |c.abi|
    ensures Canonical(c, c.abi[i]) <==> c.impl[i] !in c.impl[..i]
  {
    OnlyPair<Word, Word>(c.abi, c.impl, i);
    var k := FirstPair<Word, Word>(c.impl, c.abi, c.impl[i]);
    assert k < i ==> c.impl[..i][k] == c.impl[i];
  }

  /** An ABI handle survives the round trip exactly when it is a canonical predefined handle, or lies outside the range
    * and is not also the value of a predefined implementation handle. */
  lemma AbiRoundTrip(c: Class, a: Word)
    requires Proper(c)
    ensures ToAbi(c, FromAbi(c, a)) == (a, false) <==> Canonical(c, a) || (!Predefined(a) && a !in c.impl)
  {
    var h := FromAbi(c, a);
    if a in c.abi {
      AbiPredefined(c, a);
      var i := FirstPair<Word, Word>(c.abi, c.impl, a);
    } else if Predefined(a) {
      assert c.impl[c.nul] in c.impl;
      FirstLabel(c, c.impl[c.nul]);
    } else if a in c.impl {
      FirstLabel(c, a);
      AbiPredefined(c, ToAbi(c, a).0);
    }
  }

  /** Conversion to the ABI confuses no two handles, unless one of them is refused. */
  lemma ToAbiInjective(c: Class, h: Word, g: Word)
    requires Proper(c) && !ToAbi(c, h).1 && !ToAbi(c, g).1 && ToAbi(c, h).0 == ToAbi(c, g).0
    ensures h == g
  {
    ImplRoundTrip(c, h);
    ImplRoundTrip(c, g);
  }

  /** A reserved value this implementation lacks becomes the class's null handle. */
  lemma LackedBecomesNull(c: Class, a: Word)
    requires Proper(c) && Predefined(a) && a !in c.abi
    ensures FromAbi(c, a) == c.impl[c.nul]
  {
  }

  /** `mpiwrapper_<class>_toabi` over a map built from the class's predefined handles, and the thread's error flag. */
  class Converter {
    const c: Class
    const map_: ReverseMap.Map
    var error: bool

    ghost predicate Valid()
      reads this, map_, map_.key, map_.abi
    {
      Proper(c) && map_.Valid() && forall k: Word :: k != ReverseMap.EMPTY ==>
        map_.Found(k) == Assoc<Word, Word>(c.impl, c.abi, k)
    }

    constructor (c: Class, built: ReverseMap.Map)
      requires Proper(c) && built.Valid()
      requires forall k: Word :: k != ReverseMap.EMPTY ==> built.Found(k) == Assoc<Word, Word>(c.impl, c.abi, k)
      ensures Valid() && this.c == c && !error
    {
      this.c := c;
      map_ := built;
      error := false;
    }

    /** A handle of all one bits -- no implementation has one -- matches a free slot, and is answered with what that
      * slot holds. */
    method Convert(h: Word) returns (a: Word)
      requires Valid()
      modifies this`error
      ensures Valid()
      ensures h != ReverseMap.EMPTY ==> a == ToAbi(c, h).0 && error == (old(error) || ToAbi(c, h).1)
      ensures h == ReverseMap.EMPTY ==>
        error == old(error) && a == match map_.Found(h) { case Some(v) => v case None => h }
    {
      var r := map_.Lookup(h);
      if r.Some? { return r.value; }
      if Predefined(h) {
        error := true;
        return c.abi[c.nul];
      }
      return h;
    }

    /** mpiwrapper_take_handle_error */
    method TakeError() returns (e: bool)
      requires Valid()
      modifies this`error
      ensures Valid() && e == old(error) && !error
    {
      e := error;
      error := false;
    }
  }

  /** mpiwrapper_init_reverse_maps, for one class: it fails exactly when the class has more handles than the buffer
    * holds, or none of the multipliers that may be tried keeps them apart. */
  method InitClass(c: Class) returns (r: Converter?)
    requires Proper(c)
    ensures r != null ==> |c.impl| <= 128 && r.Valid() && r.c == c && fresh(r)
    ensures r != null <==> |c.impl| <= 128 && ReverseMap.Mappable(c.impl, ReverseMap.TableBits(|c.impl|), true)
  {
    if |c.impl| > 128 { return null; }
    var bits := ReverseMap.TableBits(|c.impl|);
    ReverseMap.TableSize(|c.impl|);
    SmallTable(|c.impl|);
    var m := new ReverseMap.Map(bits);
    var ok := m.Build(c.impl, c.abi, true);
    if !ok { return null; }
    r := new Converter(c, m);
  }

  lemma SmallTable(n: nat)
    requires n <= 128
    ensures 1 <= ReverseMap.TableBits(n) <= 63
  {
    ReverseMap.TableSize(n);
    var k: nat := 6;
    assert Pow2(k) == 64;
    PowAdd(6, 6);
    PowLess(ReverseMap.TableBits(n), 12);
  }
}
