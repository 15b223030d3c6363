/** The competing lookups of dev/handle-map-bench/bench.c:40-156, each of which has to agree with the list it was
  * built from: linear probing, a perfect hash, binary search and interpolation search. */
module HandleBench {
  import opened Common
  import opened StagedKeys
  import ReverseMap

  type Value = nat

  /** What every lookup has to answer: the key's value, or 0. */
  function Linear(keys: seq<Word>, values: seq<Value>, k: Word): Value
    requires |keys| == |values|
  {
    match Assoc(keys, values, k)
    case Some(v) => v
    case None => 0
  }

  /** Keys are distinct, and none is zero: zero marks a free slot of the perfect hash. */
  predicate Keys(keys: seq<Word>, values: seq<Value>) {
    |keys| == |values| && Distinct(keys) && forall i :: 0 <= i < |keys| ==> keys[i] != 0
  }

  lemma LinearAt(keys: seq<Word>, values: seq<Value>, i: nat)
    requires Keys(keys, values) && i < |keys|
    ensures Linear(keys, values, keys[i]) == values[i]
  {
    OnlyPair(keys, values, i);
  }

  type Hash = Word -> nat

  // ---------------------------------------------------------------- linear probing, as values

  predicate Used(used: seq<bool>, home: nat, d: nat) {
    home < |used| && d < |used| && used[Slot(home, |used|, d)]
  }

  predicate AllUsed(used: seq<bool>, home: nat, d: nat) {
    forall j: nat {:trigger Used(used, home, j)} :: j < d ==> Used(used, home, j)
  }

  /** Key number p sits at probe d of its own sequence, behind used slots only. */
  predicate Sits(key: seq<Word>, val: seq<Value>, used: seq<bool>, k: Word, v: Value, home: nat, d: nat) {
    |key| == |val| == |used| && Used(used, home, d) && AllUsed(used, home, d)
    && key[Slot(home, |used|, d)] == k && val[Slot(home, |used|, d)] == v
  }

  ghost predicate Placed(key: seq<Word>, val: seq<Value>, used: seq<bool>, k: Word, v: Value, home: nat) {
    exists d: nat :: Sits(key, val, used, k, v, home, d)
  }

  /** A used slot holds one of the first n pairs. */
  predicate Owned(key: seq<Word>, val: seq<Value>, used: seq<bool>, keys: seq<Word>, values: seq<Value>, n: nat, p: nat)
    requires |key| == |val| == |used| && n <= |keys| == |values|
  {
    p < |used| && used[p] ==> exists i: nat :: i < n && keys[i] == key[p] && values[i] == val[p]
  }

  function Count(used: seq<bool>): nat {
    if used == [] then 0 else (if used[0] then 1 else 0) + Count(used[1..])
  }

  lemma {:induction false} CountUpdate(used: seq<bool>, p: nat)
    requires p < |used| && !used[p]
    ensures Count(used[p := true]) == Count(used) + 1
  {
    if p == 0 {
      assert used[0 := true][1..] == used[1..];
    } else {
      assert used[p := true][1..] == used[1..][p - 1 := true];
      CountUpdate(used[1..], p - 1);
    }
  }

  lemma {:induction false} SomeFree(used: seq<bool>) returns (p: nat)
    requires Count(used) < |used|
    ensures p < |used| && !used[p]
  {
    if !used[0] {
      p := 0;
    } else {
      p := SomeFree(used[1..]);
      p := p + 1;
    }
  }

  lemma {:induction false} NoneUsed(used: seq<bool>)
    requires forall p :: 0 <= p < |used| ==> !used[p]
    ensures Count(used) == 0
  {
    if used != [] { NoneUsed(used[1..]); }
  }

  /** A table holding the first n keys. */
  ghost predicate Holds(key: seq<Word>, val: seq<Value>, used: seq<bool>, keys: seq<Word>, values: seq<Value>, n: nat,
                        h: Hash)
    requires |keys| == |values| && n <= |keys|
  {
    && |key| == |val| == |used| && Count(used) == n
    && (forall k: Word :: h(k) < |used|)
    && (forall p: nat {:trigger Owned(key, val, used, keys, values, n, p)} :: Owned(key, val, used, keys, values, n, p))
    && (forall i: nat {:trigger Placed(key, val, used, keys[i], values[i], h(keys[i]))} :: i < n ==>
          Placed(key, val, used, keys[i], values[i], h(keys[i])))
  }

  lemma StillUsed(used: seq<bool>, p: nat, home: nat, d: nat)
    requires p < |used| && AllUsed(used, home, d)
    ensures AllUsed(used[p := true], home, d)
  {
    var used' := used[p := true];
    forall j: nat {:trigger Used(used', home, j)} | j < d ensures Used(used', home, j) {
      assert Used(used, home, j);
    }
  }

  /** Filling the first free slot of a key's probe sequence places it and moves nothing. */
  lemma HoldsMore(key: seq<Word>, val: seq<Value>, used: seq<bool>, keys: seq<Word>, values: seq<Value>, n: nat,
                  h: Hash, d: nat)
    requires |keys| == |values| && n < |keys| && Holds(key, val, used, keys, values, n, h)
    requires d < |used| && AllUsed(used, h(keys[n]), d) && !used[Slot(h(keys[n]), |used|, d)]
    ensures var p := Slot(h(keys[n]), |used|, d);
      Holds(key[p := keys[n]], val[p := values[n]], used[p := true], keys, values, n + 1, h)
  {
    var p := Slot(h(keys[n]), |used|, d);
    var key', val', used' := key[p := keys[n]], val[p := values[n]], used[p := true];
    CountUpdate(used, p);
    forall q: nat {:trigger Owned(key', val', used', keys, values, n + 1, q)}
      ensures Owned(key', val', used', keys, values, n + 1, q)
    {
      if q < |used| && q != p { assert Owned(key, val, used, keys, values, n, q); }
    }
    forall i: nat {:trigger Placed(key', val', used', keys[i], values[i], h(keys[i]))} | i < n + 1
      ensures Placed(key', val', used', keys[i], values[i], h(keys[i]))
    {
      if i == n {
        StillUsed(used, p, h(keys[n]), d);
        assert Sits(key', val', used', keys[n], values[n], h(keys[n]), d);
      } else {
        assert Placed(key, val, used, keys[i], values[i], h(keys[i]));
        var e: nat :| Sits(key, val, used, keys[i], values[i], h(keys[i]), e);
        StillUsed(used, p, h(keys[i]), e);
        assert Used(used, h(keys[i]), e);
        assert Sits(key', val', used', keys[i], values[i], h(keys[i]), e);
      }
    }
  }

  /** The probe index at which a slot is visited. */
  function ProbeOf(home: nat, n: nat, p: nat): (d: nat)
    requires home < n && p < n
    ensures d < n && Slot(home, n, d) == p
  {
    if p >= home then p - home else p + n - home
  }

  lemma NotPast(used: seq<bool>, home: nat, d: nat, free: nat)
    requires free < |used| && !used[free] && home < |used| && AllUsed(used, home, d)
    ensures d <= ProbeOf(home, |used|, free)
  {
    var e := ProbeOf(home, |used|, free);
    assert !Used(used, home, e);
  }

  /** A search that has met `k` at probe d answers its value; one that has met a free slot answers 0. */
  lemma FoundRight(key: seq<Word>, val: seq<Value>, used: seq<bool>, keys: seq<Word>, values: seq<Value>, h: Hash,
                   k: Word, d: nat)
    requires Keys(keys, values) && Holds(key, val, used, keys, values, |keys|, h) && d < |used|
    requires AllUsed(used, h(k), d) && forall j: nat :: j < d ==> key[Slot(h(k), |used|, j)] != k
    requires used[Slot(h(k), |used|, d)] ==> key[Slot(h(k), |used|, d)] == k
    ensures Linear(keys, values, k) == if used[Slot(h(k), |used|, d)] then val[Slot(h(k), |used|, d)] else 0
  {
    var p := Slot(h(k), |used|, d);
    assert Owned(key, val, used, keys, values, |keys|, p);
    if k in keys {
      var i: nat :| i < |keys| && keys[i] == k;
      LinearAt(keys, values, i);
      assert Placed(key, val, used, keys[i], values[i], h(keys[i]));
      var e: nat :| Sits(key, val, used, keys[i], values[i], h(k), e);
      assert Used(used, h(k), e);
      if d < e { assert Used(used, h(k), d); }
    }
  }

  // ---------------------------------------------------------------- linear probing, in place

  function Mix(k: Word): (s: nat)
    ensures s < 256
  {
    k * 0x9e37_79b9_7f4a_7c15 % 0x1_0000_0000_0000_0000 / 0x100_0000_0000_0000
  }

  class Probing {
    const key: array<Word>
    const val: array<Value>
    const used: array<bool>

    ghost predicate Shaped() {
      key.Length == val.Length == used.Length == 256 && key as object != val as object
      && key as object != used as object && val as object != used as object
    }

    constructor ()
      ensures Shaped() && fresh(key) && fresh(val) && fresh(used)
    {
      key := new Word[256](_ => 0);
      val := new Value[256](_ => 0);
      used := new bool[256](_ => false);
    }

    ghost predicate Built(keys: seq<Word>, values: seq<Value>, n: nat)
      requires |keys| == |values| && n <= |keys|
      reads key, val, used
    {
      Shaped() && Holds(key[..], val[..], used[..], keys, values, n, k => Mix(k))
    }

    method Clear()
      requires Shaped()
      modifies used
      ensures forall p :: 0 <= p < 256 ==> !used[p]
    {
      for i := 0 to 256
        invariant forall p :: 0 <= p < i ==> !used[p]
      {
        used[i] := false;
      }
    }

    /** The first free slot of a probe sequence: there is one, so the loop ends. */
    method FreeSlot(k: Word) returns (s: nat, ghost d: nat)
      requires Shaped() && Count(used[..]) < 256
      ensures d < 256 && s == Slot(Mix(k), 256, d) && !used[s] && AllUsed(used[..], Mix(k), d)
    {
      ghost var free := SomeFree(used[..]);
      ghost var far := ProbeOf(Mix(k), 256, free);
      s := Mix(k);
      d := 0;
      while used[s]
        invariant d <= far && s == Slot(Mix(k), 256, d) && AllUsed(used[..], Mix(k), d)
        decreases far - d
      {
        assert Used(used[..], Mix(k), d);
        NotPast(used[..], Mix(k), d + 1, free);
        ProbeOrder(Mix(k), 256, d);
        s := (s + 1) % 256;
        d := d + 1;
      }
    }

    /** h_build */
    method Build(keys: seq<Word>, values: seq<Value>)
      requires Shaped() && Keys(keys, values) && |keys| < 256
      modifies key, val, used
      ensures Built(keys, values, |keys|)
    {
      Clear();
      NoneUsed(used[..]);
      for i := 0 to |keys|
        invariant Built(keys, values, i)
      {
        ghost var kt, vt, ut := key[..], val[..], used[..];
        var s, d := FreeSlot(keys[i]);
        HoldsMore(kt, vt, ut, keys, values, i, k => Mix(k), d);
        key[s], val[s], used[s] := keys[i], values[i], true;
        assert key[..] == kt[s := keys[i]] && val[..] == vt[s := values[i]] && used[..] == ut[s := true];
      }
    }

    /** h_lookup */
    method Lookup(k: Word, ghost keys: seq<Word>, ghost values: seq<Value>) returns (v: Value)
      requires Keys(keys, values) && |keys| < 256 && Built(keys, values, |keys|)
      ensures v == Linear(keys, values, k)
    {
      ghost var free := SomeFree(used[..]);
      ghost var far := ProbeOf(Mix(k), 256, free);
      ghost var d: nat := 0;
      ghost var h: Hash := (k: Word) => Mix(k);
      var s := Mix(k);
      while used[s]
        invariant d <= far && s == Slot(Mix(k), 256, d) && AllUsed(used[..], Mix(k), d)
        invariant forall j: nat :: j < d ==> key[..][Slot(Mix(k), 256, j)] != k
        decreases far - d
      {
        if key[s] == k {
          FoundRight(key[..], val[..], used[..], keys, values, h, k, d);
          return val[s];
        }
        assert Used(used[..], Mix(k), d);
        NotPast(used[..], Mix(k), d + 1, free);
        ProbeOrder(Mix(k), 256, d);
        s := (s + 1) % 256;
        d := d + 1;
      }
      FoundRight(key[..], val[..], used[..], keys, values, h, k, d);
      return 0;
    }
  }

  // ---------------------------------------------------------------- the perfect hash

  /** The number of steps after which the multiplier wraps to zero and the search gives up: the step is odd. */
  const WRAP: nat := 0x53a0_68ef_bdc1_7ea7

  lemma AtWrap()
    ensures ReverseMap.MulAt(WRAP) == 0
  {
  }

  /** The multiplier is not zero before that. */
  lemma ZeroAtWrap(i: nat)
    requires i <= WRAP && ReverseMap.MulAt(i) == 0
    ensures i == WRAP
  {
    var inverse: nat, over: nat, d := 0x59071d96d81ecd35, 0xcf65b3f17bf4a6b, WRAP - i;
    var a, b := (ReverseMap.FIRST_MUL + i * ReverseMap.STEP_MUL) / TWO64, 0xc2d094b4add1d66;
    assert d * ReverseMap.STEP_MUL == (b - a) * TWO64;
    assert d * (1 + over * TWO64) == inverse * (d * ReverseMap.STEP_MUL);
    assert d == (inverse * (b - a) - d * over) * TWO64;
  }

  class Perfect {
    const key: array<Word>
    const val: array<Value>
    var mul: Word

    ghost predicate Shaped() {
      key.Length == val.Length == 256 && key as object != val as object
    }

    constructor ()
      ensures Shaped() && fresh(key) && fresh(val)
    {
      key := new Word[256](_ => 0);
      val := new Value[256](_ => 0);
      mul := 0;
    }

    method Clear()
      requires Shaped()
      modifies key, val
      ensures forall p :: 0 <= p < 256 ==> key[p] == 0 && val[p] == 0
    {
      for i := 0 to 256
        invariant forall p :: 0 <= p < i ==> key[p] == 0 && val[p] == 0
      {
        key[i], val[i] := 0, 0;
      }
    }

    ghost predicate Built(keys: seq<Word>, values: seq<Value>, m: Word)
      requires |keys| == |values|
      reads key, val
    {
      Shaped() && ReverseMap.Holds(key[..], val[..], keys, values, ReverseMap.HashOf(m, 56), 0)
      && forall p :: 0 <= p < 256 && key[p] == 0 ==> val[p] == 0
    }

    /** One pair: a slot that is taken is a collision. */
    method Insert(keys: seq<Word>, values: seq<Value>, i: nat, m: Word) returns (ok: bool)
      requires Keys(keys, values) && i < |keys| && Built(keys[..i], values[..i], m)
      modifies key, val
      ensures ok ==> Built(keys[..i + 1], values[..i + 1], m)
      ensures !ok ==> !ReverseMap.Suits(keys, m, 56, false)
    {
      ghost var h := ReverseMap.HashOf(m, 56);
      ReverseMap.IndexInBounds(keys[i], m, 8);
      var s := ReverseMap.Index(keys[i], m, 56);
      if key[s] != 0 {
        ghost var j := ReverseMap.TakenByKey(key[..], val[..], keys, values, h, 0, i);
        return false;
      }
      ReverseMap.HoldsMore(key[..], val[..], keys, values, h, 0, i);
      ghost var kt, vt := key[..], val[..];
      key[s], val[s] := keys[i], values[i];
      assert key[..] == kt[s := keys[i]] && val[..] == vt[s := values[i]];
      return true;
    }

    method Try(keys: seq<Word>, values: seq<Value>, m: Word) returns (ok: bool)
      requires Shaped() && Keys(keys, values)
      modifies key, val
      ensures ok ==> Built(keys, values, m)
      ensures ok <==> ReverseMap.Suits(keys, m, 56, false)
    {
      Clear();
      ReverseMap.NothingHeld(key[..], val[..], ReverseMap.HashOf(m, 56), 0);
      assert keys[..0] == [] && values[..0] == [];
      ok := true;
      var i := 0;
      while i < |keys| && ok
        invariant i <= |keys| && (ok ==> Built(keys[..i], values[..i], m))
        invariant !ok ==> !ReverseMap.Suits(keys, m, 56, false)
      {
        ok := Insert(keys, values, i, m);
        i := i + 1;
      }
      assert keys[..|keys|] == keys && values[..|values|] == values;
      if ok { ReverseMap.HoldsSeparates(key[..], val[..], keys, values, ReverseMap.HashOf(m, 56), 0); }
    }

    /** The multiplier of attempt k sends different keys to different slots. */
    predicate Separated(keys: seq<Word>, k: nat) {
      ReverseMap.Suits(keys, ReverseMap.MulAt(k), 56, false)
    }

    /** p_build: multipliers are tried until one fits or the sequence wraps around to zero.  It succeeds exactly when
      * one of the multipliers before that fits. */
    method Build(keys: seq<Word>, values: seq<Value>) returns (ok: bool)
      requires Shaped() && Keys(keys, values)
      modifies this`mul, key, val
      ensures ok ==> Built(keys, values, mul)
      ensures ok <==> exists k :: 0 <= k < WRAP && Separated(keys, k)
    {
      var m := ReverseMap.FIRST_MUL;
      ghost var i: nat := 0;
      while m != 0
        invariant m == ReverseMap.MulAt(i) && i <= WRAP
        invariant forall k :: 0 <= k < i ==> !Separated(keys, k)
        decreases WRAP - i
      {
        var fits := Try(keys, values, m);
        assert i < WRAP by { AtWrap(); }
        if fits {
          mul := m;
          assert Separated(keys, i);
          return true;
        }
        ReverseMap.MulStep(i);
        m := (m + ReverseMap.STEP_MUL) % TWO64;
        i := i + 1;
      }
      ZeroAtWrap(i);
      return false;
    }

    /** p_lookup */
    method Lookup(k: Word, ghost keys: seq<Word>, ghost values: seq<Value>) returns (v: Value)
      requires Keys(keys, values) && Built(keys, values, mul)
      ensures v == Linear(keys, values, k)
    {
      var m := mul;
      ghost var h := ReverseMap.HashOf(m, 56);
      ReverseMap.IndexInBounds(k, m, 8);
      var s := ReverseMap.Index(k, m, 56);
      if k != 0 { ReverseMap.FindIsAssoc(key[..], val[..], keys, values, h, 0, k); }
      assert k == 0 ==> k !in keys;
      v := if key[s] == k then val[s] else 0;
    }
  }

  // ---------------------------------------------------------------- the sorted array

  predicate Ascending(s: seq<Word>) {
    forall i, j :: 0 <= i < j < |s| ==> s[i] < s[j]
  }

  /** Sorting distinct keys leaves them strictly ascending. */
  lemma SortedDistinct(keys: seq<Word>, idx: seq<Word>)
    requires Distinct(keys) && multiset(idx) == multiset(keys)
    requires forall i, j :: 0 <= i < j < |idx| ==> idx[i] <= idx[j]
    ensures Ascending(idx) && |idx| == |keys| && forall k :: k in idx <==> k in keys
  {
    assert |multiset(idx)| == |idx| && |multiset(keys)| == |keys|;
    forall k ensures k in idx <==> k in keys { assert k in multiset(idx) <==> k in multiset(keys); }
    forall i, j | 0 <= i < j < |idx| ensures idx[i] < idx[j] {
      if idx[i] == idx[j] {
        TwiceCounted(idx, i, j);
        OnceCounted(keys, idx[i]);
        assert false;
      }
    }
  }

  lemma TwiceCounted(s: seq<Word>, i: nat, j: nat)
    requires i < j < |s| && s[i] == s[j]
    ensures multiset(s)[s[i]] >= 2
  {
    assert s == s[..j] + s[j..];
    assert s[..j][i] == s[i] && s[j..][0] == s[j];
    assert multiset(s) == multiset(s[..j]) + multiset(s[j..]);
  }

  lemma {:induction false} OnceCounted(s: seq<Word>, k: Word)
    requires Distinct(s)
    ensures multiset(s)[k] <= 1
  {
    if s != [] {
      assert s == [s[0]] + s[1..];
      OnceCounted(s[1..], k);
      if k == s[0] { assert k !in s[1..]; }
    }
  }

  class Sorted {
    const sk: array<Word>
    const sv: array<Value>

    constructor (n: nat)
      ensures sk.Length == sv.Length == n && fresh(sk) && fresh(sv)
    {
      sk := new Word[n](_ => 0);
      sv := new Value[n](_ => 0);
    }

    /** The arrays carry the pairs of the list, in ascending order of key. */
    ghost predicate Built(keys: seq<Word>, values: seq<Value>)
      reads sk, sv
    {
      && Keys(keys, values) && sk.Length == sv.Length == |keys| && Ascending(sk[..])
      && (forall i :: 0 <= i < sk.Length ==> sv[i] == Linear(keys, values, sk[i]))
      && (forall k: Word :: k in keys <==> k in sk[..])
    }

    /** s_build, from the array that qsort leaves behind. */
    method Build(keys: seq<Word>, values: seq<Value>, idx: seq<Word>)
      requires Keys(keys, values) && sk.Length == sv.Length == |keys| && sk as object != sv as object
      requires multiset(idx) == multiset(keys) && forall i, j :: 0 <= i < j < |idx| ==> idx[i] <= idx[j]
      modifies sk, sv
      ensures Built(keys, values)
    {
      SortedDistinct(keys, idx);
      for i := 0 to |keys|
        invariant sk[..i] == idx[..i]
        invariant forall p :: 0 <= p < i ==> sv[p] == Linear(keys, values, sk[p])
      {
        sk[i] := idx[i];
        assert idx[i] in keys;
        var j := 0;
        while keys[j] != idx[i]
          invariant j < |keys| && idx[i] in keys[j..]
          decreases |keys| - j
        {
          assert keys[j..] == [keys[j]] + keys[j + 1..];
          j := j + 1;
        }
        LinearAt(keys, values, j);
        sv[i] := values[j];
      }
      assert sk[..] == idx;
    }

    lemma Absent(keys: seq<Word>, values: seq<Value>, k: Word, lo: int, hi: int)
      requires Built(keys, values) && 0 <= lo && hi < sk.Length && lo > hi
      requires forall i :: 0 <= i < sk.Length && (i < lo || i > hi) ==> sk[i] != k
      ensures Linear(keys, values, k) == 0
    {
      assert k !in sk[..];
    }

    /** bsearch_lookup */
    method BinarySearch(k: Word, ghost keys: seq<Word>, ghost values: seq<Value>) returns (v: Value)
      requires Built(keys, values)
      ensures v == Linear(keys, values, k)
    {
      var lo, hi := 0, sk.Length - 1;
      while lo <= hi
        invariant 0 <= lo <= hi + 1 <= sk.Length
        invariant forall i :: 0 <= i < sk.Length && (i < lo || i > hi) ==> sk[i] != k
        decreases hi - lo
      {
        var mid := (lo + hi) / 2;
        if sk[mid] == k { return sv[mid]; }
        assert forall i :: 0 <= i < mid ==> sk[..][i] < sk[..][mid];
        assert forall i :: mid < i < sk.Length ==> sk[..][mid] < sk[..][i];
        if sk[mid] < k { lo := mid + 1; } else { hi := mid - 1; }
      }
      Absent(keys, values, k, lo, hi);
      return 0;
    }

    /** isearch_lookup, with the interpolated position taken as an exact floor.  It finds every key of a table of two
      * or more: a range narrows to one element only past a probe that would have met the key at its end.  In a table
      * of one it finds none. */
    method InterpolationSearch(k: Word, ghost keys: seq<Word>, ghost values: seq<Value>) returns (v: Value)
      requires Built(keys, values)
      ensures v == if |keys| == 1 then 0 else Linear(keys, values, k)
    {
      var lo, hi := 0, sk.Length - 1;
      while lo <= hi && sk[lo] <= k <= sk[hi]
        invariant 0 <= lo <= hi + 1 <= sk.Length
        invariant forall i :: 0 <= i < sk.Length && (i < lo || i > hi) ==> sk[i] != k
        invariant |keys| != 1 && lo == hi ==> sk[lo] != k
        invariant |keys| == 1 ==> lo == hi == 0
        decreases hi - lo
      {
        if sk[hi] == sk[lo] { break; }
        assert sk[..][lo] < sk[..][hi] by { if lo < hi { assert sk[..][lo] < sk[..][hi]; } }
        var pos := lo + (k - sk[lo]) * (hi - lo) / (sk[hi] - sk[lo]);
        Position(k - sk[lo], hi - lo, sk[hi] - sk[lo]);
        if sk[pos] == k { return sv[pos]; }
        assert forall i :: 0 <= i < pos ==> sk[..][i] < sk[..][pos];
        assert forall i :: pos < i < sk.Length ==> sk[..][pos] < sk[..][i];
        if sk[pos] < k { lo := pos + 1; } else { hi := pos - 1; }
      }
      if |keys| != 1 { Outside(keys, values, k, lo, hi); }
      return 0;
    }

    lemma Outside(keys: seq<Word>, values: seq<Value>, k: Word, lo: int, hi: int)
      requires Built(keys, values) && 0 <= lo <= hi + 1 <= sk.Length
      requires forall i :: 0 <= i < sk.Length && (i < lo || i > hi) ==> sk[i] != k
      requires lo == hi ==> sk[lo] != k
      requires lo < hi ==> !(sk[lo] <= k <= sk[hi])
      ensures Linear(keys, values, k) == 0
    {
      forall i | 0 <= i < sk.Length ensures sk[i] != k {
        if lo <= i <= hi && lo < hi {
          assert lo < i ==> sk[..][lo] < sk[..][i];
          assert i < hi ==> sk[..][i] < sk[..][hi];
        }
      }
      assert k !in sk[..];
    }
  }

  /** The interpolated offset stays in the range, and meets either end exactly. */
  lemma Position(x: int, width: int, span: int)
    requires 0 <= x <= span && 0 < span && 0 <= width
    ensures 0 <= x * width / span <= width
    ensures x == 0 ==> x * width / span == 0
    ensures x == span ==> x * width / span == width
  {
    Scale(x, width, span);
    Quotient(x * width, width, span);
  }

  lemma Scale(x: int, width: int, span: int)
    requires 0 <= x <= span && 0 <= width
    ensures 0 <= x * width <= span * width && (x == span ==> x * width == width * span)
  {
  }

  lemma Larger(q: int, w: int, span: int)
    requires q > w && span > 0
    ensures q * span >= w * span + span
    decreases q - w
  {
    if q > w + 1 { Larger(q - 1, w, span); }
    Distribute(q - 1, span);
  }

  lemma Distribute(q: int, span: int)
    ensures (q + 1) * span == q * span + span
  {
  }

  /** The quotient of something between 0 and width spans. */
  lemma Quotient(a: int, width: int, span: int)
    requires 0 <= a <= width * span && span > 0 && width >= 0
    ensures 0 <= a / span <= width && (a == width * span ==> a / span == width)
  {
    var q := a / span;
    assert q * span <= a < q * span + span;
    if q > width {
      Larger(q, width, span);
      assert false;
    }
    if a == width * span && q < width {
      Larger(width, q, span);
      assert false;
    }
  }
}
