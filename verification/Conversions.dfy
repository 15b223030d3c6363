/** The generated conversion families of plain integers (dev/generate.py:3818-3880;
  * gen/mpiwrapper/constants.c:1015-1123): a switch each way, and the bitmask mappers. */
module Conversions {
  import opened Common

  // ---------------------------------------------------------------- switches

  /** What a switch answers for a value none of its labels names: the value itself, or a constant of the family. */
  datatype Default = PassThrough | Constant(value: int)

  /** A family's members, as the ABI and as the implementation spell them, and its two default arms. */
  datatype Family = Family(abi: seq<int>, impl: seq<int>, from: Default, to: Default)

  /** Case labels are distinct on each side, or the switch does not compile. */
  predicate Proper(f: Family) {
    |f.abi| == |f.impl| && Distinct(f.abi) && Distinct(f.impl)
  }

  function Arm(d: Default, v: int): int {
    match d
    case PassThrough => v
    case Constant(c) => c
  }

  function FromAbi(f: Family, a: int): int
    requires Proper(f)
  {
    match Assoc(f.abi, f.impl, a)
    case Some(h) => h
    case None => Arm(f.from, a)
  }

  function ToAbi(f: Family, h: int): int
    requires Proper(f)
  {
    match Assoc(f.impl, f.abi, h)
    case Some(a) => a
    case None => Arm(f.to, h)
  }

  /** The same family, read in the other direction. */
  function Reversed(f: Family): Family {
    Family(f.impl, f.abi, f.to, f.from)
  }

  lemma MemberReturns(f: Family, a: int)
    requires Proper(f) && a in f.abi
    ensures FromAbi(f, a) in f.impl && ToAbi(f, FromAbi(f, a)) == a
  {
    var i := FirstPair(f.abi, f.impl, a);
    OnlyPair(f.impl, f.abi, i);
  }

  lemma ImageNotAbi(f: Family, h: int)
    requires Proper(f) && h in f.impl
    ensures ToAbi(f, h) in f.abi
  {
    var i := FirstPair(f.impl, f.abi, h);
  }

  /** Where both defaults pass values through, an ABI value survives the round trip exactly when it is a member, or is
    * not the implementation's spelling of one. */
  lemma PassThroughRoundTrip(f: Family, a: int)
    requires Proper(f) && f.from == PassThrough && f.to == PassThrough
    ensures ToAbi(f, FromAbi(f, a)) == a <==> a in f.abi || a !in f.impl
  {
    if a in f.abi {
      MemberReturns(f, a);
    } else if a in f.impl {
      ImageNotAbi(f, a);
    }
  }

  /** And so, read backwards, an implementation's value survives exactly when it is a member or no ABI member's
    * value. */
  lemma ImplRoundTrip(f: Family, h: int)
    requires Proper(f) && f.from == PassThrough && f.to == PassThrough
    ensures FromAbi(f, ToAbi(f, h)) == h <==> h in f.impl || h !in f.abi
  {
    PassThroughRoundTrip(Reversed(f), h);
  }

  /** Where unknown values become constants, only members survive, unless the constant is its own image. */
  lemma ConstantRoundTrip(f: Family, a: int)
    requires Proper(f) && f.from.Constant? && f.to.Constant?
    ensures ToAbi(f, FromAbi(f, a)) == a <==> a in f.abi || (a == f.to.value && f.from.value !in f.impl)
  {
    if a in f.abi {
      MemberReturns(f, a);
    } else if f.from.value in f.impl {
      ImageNotAbi(f, f.from.value);
    }
  }

  // ---------------------------------------------------------------- bitmasks

  /** An int used as a mask, as the set of its bit positions: `&` is intersection and `|` is union. */
  type Mask = set<nat>

  /** A mapper: each member whose bits the argument shares contributes its counterpart. */
  function MapBits(src: seq<Mask>, dst: seq<Mask>, x: Mask): Mask
    requires |src| == |dst|
  {
    if src == [] then {}
    else
      var last := |src| - 1;
      MapBits(src[..last], dst[..last], x) + if x * src[last] != {} then dst[last] else {}
  }

  /** The emitted body: one test per member, in order. */
  method Map(src: seq<Mask>, dst: seq<Mask>, x: Mask) returns (r: Mask)
    requires |src| == |dst|
    ensures r == MapBits(src, dst, x)
  {
    r := {};
    for i := 0 to |src|
      invariant r == MapBits(src[..i], dst[..i], x)
    {
      assert src[..i + 1][..i] == src[..i] && dst[..i + 1][..i] == dst[..i];
      if x * src[i] != {} { r := r + dst[i]; }
    }
    assert src[..|src|] == src && dst[..|dst|] == dst;
  }

  /** What a mapper answers, bit by bit: a bit is set when some member the argument touches has it. */
  lemma {:induction false} MapBit(src: seq<Mask>, dst: seq<Mask>, x: Mask, b: nat)
    requires |src| == |dst|
    ensures b in MapBits(src, dst, x) <==> exists i :: 0 <= i < |src| && x * src[i] != {} && b in dst[i]
    decreases |src|
  {
    if src != [] {
      var n := |src| - 1;
      MapBit(src[..n], dst[..n], x, b);
      if b in MapBits(src[..n], dst[..n], x) {
        var i :| 0 <= i < n && x * src[..n][i] != {} && b in dst[..n][i];
        assert x * src[i] != {} && b in dst[i];
      }
      if exists i :: 0 <= i < |src| && x * src[i] != {} && b in dst[i] {
        var i :| 0 <= i < |src| && x * src[i] != {} && b in dst[i];
        if i < n { assert x * src[..n][i] != {} && b in dst[..n][i]; }
      }
    }
  }

  /** A mapper distributes over or, whatever its table. */
  lemma {:induction false} MapDistributes(src: seq<Mask>, dst: seq<Mask>, x: Mask, y: Mask)
    requires |src| == |dst|
    ensures MapBits(src, dst, x + y) == MapBits(src, dst, x) + MapBits(src, dst, y)
    decreases |src|
  {
    if src != [] {
      var n := |src| - 1;
      MapDistributes(src[..n], dst[..n], x, y);
      assert (x + y) * src[n] == x * src[n] + y * src[n];
    }
  }

  /** The or of the members picked. */
  function Union(members: seq<Mask>, pick: seq<bool>): Mask
    requires |members| == |pick|
  {
    if members == [] then {}
    else
      var last := |members| - 1;
      Union(members[..last], pick[..last]) + if pick[last] then members[last] else {}
  }

  /** Members are nonzero and share no bit. */
  predicate Disjoint(members: seq<Mask>) {
    (forall i :: 0 <= i < |members| ==> members[i] != {})
    && forall i, j :: 0 <= i < j < |members| ==> members[i] !! members[j]
  }

  lemma {:induction false} UnionBit(members: seq<Mask>, pick: seq<bool>, n: nat, b: nat)
    requires |members| == |pick| && n <= |members|
    ensures b in Union(members[..n], pick[..n]) <==> exists i :: 0 <= i < n && pick[i] && b in members[i]
  {
    if n > 0 {
      UnionBit(members, pick, n - 1, b);
      assert members[..n][..n - 1] == members[..n - 1] && pick[..n][..n - 1] == pick[..n - 1];
    }
  }

  /** A union of members shares bits with exactly the members picked. */
  lemma UnionHits(members: seq<Mask>, pick: seq<bool>, i: nat)
    requires |members| == |pick| && i < |members| && Disjoint(members)
    ensures Union(members, pick) * members[i] != {} <==> pick[i]
  {
    assert members[..|members|] == members && pick[..|pick|] == pick;
    if pick[i] {
      var b :| b in members[i];
      UnionBit(members, pick, |members|, b);
      assert b in Union(members, pick) * members[i];
    } else {
      forall b | b in members[i] ensures b !in Union(members, pick) {
        UnionBit(members, pick, |members|, b);
      }
      assert Union(members, pick) * members[i] == {};
    }
  }

  /** The mapper takes a union of members to the union of their counterparts. */
  lemma {:induction false} MapsUnion(src: seq<Mask>, dst: seq<Mask>, pick: seq<bool>, n: nat)
    requires |src| == |dst| == |pick| && Disjoint(src) && n <= |src|
    ensures MapBits(src[..n], dst[..n], Union(src, pick)) == Union(dst[..n], pick[..n])
  {
    if n > 0 {
      MapsUnion(src, dst, pick, n - 1);
      assert src[..n][..n - 1] == src[..n - 1] && dst[..n][..n - 1] == dst[..n - 1]
        && pick[..n][..n - 1] == pick[..n - 1];
      UnionHits(src, pick, n - 1);
    }
  }

  /** And so, where the members are disjoint on both sides, the two mappers invert each other on every union of
    * members. */
  lemma MaskRoundTrip(abi: seq<Mask>, impl: seq<Mask>, pick: seq<bool>)
    requires |abi| == |impl| == |pick| && Disjoint(abi) && Disjoint(impl)
    ensures MapBits(impl, abi, MapBits(abi, impl, Union(abi, pick))) == Union(abi, pick)
  {
    MapsUnion(abi, impl, pick, |abi|);
    MapsUnion(impl, abi, pick, |impl|);
    assert abi[..|abi|] == abi && impl[..|impl|] == impl && pick[..|pick|] == pick;
  }

  /** The members a mask touches. */
  function Touched(members: seq<Mask>, x: Mask): (r: seq<bool>)
    ensures |r| == |members| && forall i :: 0 <= i < |r| ==> r[i] == (x * members[i] != {})
  {
    seq(|members|, i requires 0 <= i < |members| => x * members[i] != {})
  }

  lemma {:induction false} MapIsUnion(src: seq<Mask>, dst: seq<Mask>, x: Mask, n: nat)
    requires |src| == |dst| && n <= |src|
    ensures MapBits(src[..n], dst[..n], x) == Union(dst[..n], Touched(src, x)[..n])
  {
    if n > 0 {
      MapIsUnion(src, dst, x, n - 1);
      assert src[..n][..n - 1] == src[..n - 1] && dst[..n][..n - 1] == dst[..n - 1];
      assert Touched(src, x)[..n][..n - 1] == Touched(src, x)[..n - 1];
    }
  }

  /** A mask survives the round trip exactly when it is the union of the members it touches: unknown bits are dropped,
    * and a member of several bits comes back whole. */
  lemma MaskSurvives(abi: seq<Mask>, impl: seq<Mask>, x: Mask)
    requires |abi| == |impl| && Disjoint(impl)
    ensures MapBits(impl, abi, MapBits(abi, impl, x)) == Union(abi, Touched(abi, x))
    ensures MapBits(impl, abi, MapBits(abi, impl, x)) == x <==> x == Union(abi, Touched(abi, x))
  {
    MapIsUnion(abi, impl, x, |abi|);
    MapsUnion(impl, abi, Touched(abi, x), |impl|);
    assert abi[..|abi|] == abi && impl[..|impl|] == impl && Touched(abi, x)[..|abi|] == Touched(abi, x);
  }

  /** One mapper cannot serve two roles an implementation numbers alike: it answers with both members where one was
    * meant. */
  lemma SharedBitAnswersBoth(a: Mask, b: Mask, s: Mask)
    requires s != {}
    ensures MapBits([s, s], [a, b], s) == a + b
  {
    assert [s, s][..1] == [s] && [a, b][..1] == [a] && [s][..0] == [] && [a][..0] == [];
    assert s * s == s;
    assert MapBits([s], [a], s) == a;
  }
}
