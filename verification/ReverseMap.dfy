/** The perfect-hash map from an implementation's predefined handles to the ABI's
  * (src/mpiwrapper/handles.c, src/mpiwrapper/internal.h:405-455; examples/mpiwrapper_convert.c:106-165). */
module ReverseMap {
  import opened Common
  import opened Powers

  const EMPTY: Word := 0xFFFF_FFFF_FFFF_FFFF
  const FIRST_MUL: Word := 0x9e37_79b9_7f4a_7c15
  const STEP_MUL: Word := 0x2545_f491_4f6c_dd1d
  const ATTEMPTS := 4096

  // ---------------------------------------------------------------- the size of the table (dev/generate.py:3618)

  /** Python's `int.bit_length`. */
  function BitLength(m: nat): (b: nat)
    ensures m < Pow2(b) && (m > 0 ==> b > 0 && Pow2(b - 1) <= m)
  {
    if m == 0 then 0 else BitLength(m / 2) + 1
  }

  /** The slots a class of n predefined handles gets; for none, the bit length is that of 1. */
  function TableBits(n: nat): (b: nat) {
    var b := if n == 0 then 1 else BitLength(8 * n - 1);
    if b < 3 then 3 else b
  }

  lemma PowSmall(b: nat)
    ensures b <= 2 ==> Pow2(b) <= 4
  {
    var two: nat := 2;
    assert Pow2(two) == 4;
    if b <= two { PowMonotone(b, two); }
  }

  /** A power of two, at least eight, at least eight times the handles, and never twice more than that. */
  lemma TableSize(n: nat)
    ensures Pow2(TableBits(n)) >= 8 && Pow2(TableBits(n)) >= 8 * n
    ensures n > 0 ==> Pow2(TableBits(n)) < 16 * n
  {
    var k: nat := 3;
    assert Pow2(k) == 8;
    PowMonotone(3, TableBits(n));
    if n > 0 { PowSmall(BitLength(8 * n - 1)); }
  }

  // ---------------------------------------------------------------- the index

  function Product(key: Word, mul: Word): (r: Word) {
    key * mul % 0x1_0000_0000_0000_0000
  }

  function Index(key: Word, mul: Word, shift: nat): nat {
    Quotient(Product(key, mul), Pow2(shift))
  }

  function Quotient(x: nat, d: nat): nat
    requires d > 0
  {
    x / d
  }

  /** The top bits of a product always name a slot. */
  lemma IndexInBounds(key: Word, mul: Word, bits: nat)
    requires 1 <= bits <= 64
    ensures Index(key, mul, 64 - bits) < Pow2(bits)
  {
    PowWidths();
    PowAdd(bits, 64 - bits);
    QuotientBound(Product(key, mul), Pow2(bits), Pow2(64 - bits));
  }

  lemma QuotientBound(x: nat, a: nat, b: nat)
    requires b > 0 && x < a * b
    ensures x / b < a
  {
    assert x / b * b <= x;
    if a <= x / b {
      Scales(a, x / b, b);
      assert false;
    }
  }

  lemma {:induction false} PrefixAssoc<V>(keys: seq<Word>, vals: seq<V>, i: nat, k: Word)
    requires |keys| == |vals| && i < |keys|
    ensures Assoc(keys[..i + 1], vals[..i + 1], k) ==
      if k in keys[..i] then Assoc(keys[..i], vals[..i], k) else if k == keys[i] then Some(vals[i]) else None
    decreases i
  {
    assert keys[..i + 1][0] == keys[0] && vals[..i + 1][0] == vals[0];
    assert keys[..i + 1][1..] == keys[1..][..i] && vals[..i + 1][1..] == vals[1..][..i];
    if i > 0 {
      PrefixAssoc(keys[1..], vals[1..], i - 1, k);
      assert keys[..i][1..] == keys[1..][..i - 1] && vals[..i][1..] == vals[1..][..i - 1];
      assert keys[..i] == [keys[0]] + keys[1..][..i - 1];
    } else {
      assert keys[1..][..0] == [] && keys[..0] == [];
    }
  }

  // ---------------------------------------------------------------- the table, as values

  type Hash = Word -> nat

  /** Slot p holds nothing, or a key hashed to it with the first value it was given. */
  predicate SlotRight<V(==)>(kt: seq<Word>, at: seq<V>, keys: seq<Word>, abis: seq<V>, h: Hash, none: Word, p: nat)
    requires |kt| == |at| && |keys| == |abis|
  {
    p < |kt| && kt[p] != none ==> h(kt[p]) == p && Assoc(keys, abis, kt[p]) == Some(at[p])
  }

  predicate KeyRight(kt: seq<Word>, h: Hash, k: Word) {
    h(k) < |kt| && kt[h(k)] == k
  }

  /** The table holds exactly the given pairs. */
  ghost predicate Holds<V>(kt: seq<Word>, at: seq<V>, keys: seq<Word>, abis: seq<V>, h: Hash, none: Word)
    requires |keys| == |abis|
  {
    && |kt| == |at|
    && (forall p: nat {:trigger SlotRight(kt, at, keys, abis, h, none, p)} :: SlotRight(kt, at, keys, abis, h, none, p))
    && (forall k: Word {:trigger KeyRight(kt, h, k)} :: k in keys ==> KeyRight(kt, h, k))
  }

  function Find<V>(kt: seq<Word>, at: seq<V>, h: Hash, k: Word): Option<V>
    requires |kt| == |at|
  {
    if h(k) < |kt| && kt[h(k)] == k then Some(at[h(k)]) else None
  }

  /** A table that holds the pairs is looked up exactly like their list. */
  lemma FindIsAssoc<V>(kt: seq<Word>, at: seq<V>, keys: seq<Word>, abis: seq<V>, h: Hash, none: Word, k: Word)
    requires |keys| == |abis| && Holds(kt, at, keys, abis, h, none) && k != none
    ensures Find(kt, at, h, k) == Assoc(keys, abis, k)
  {
    assert SlotRight(kt, at, keys, abis, h, none, h(k));
    if k in keys { assert KeyRight(kt, h, k); }
  }

  lemma NothingHeld<V>(kt: seq<Word>, at: seq<V>, h: Hash, none: Word)
    requires |kt| == |at| && forall p :: 0 <= p < |kt| ==> kt[p] == none
    ensures Holds(kt, at, [], [], h, none)
  {
  }

  /** One more pair, in a free slot. */
  lemma HoldsMore<V>(kt: seq<Word>, at: seq<V>, keys: seq<Word>, abis: seq<V>, h: Hash, none: Word, i: nat)
    requires |keys| == |abis| && i < |keys| && none !in keys && Holds(kt, at, keys[..i], abis[..i], h, none)
    requires h(keys[i]) < |kt| && kt[h(keys[i])] == none
    ensures Holds(kt[h(keys[i]) := keys[i]], at[h(keys[i]) := abis[i]], keys[..i + 1], abis[..i + 1], h, none)
    ensures keys[i] !in keys[..i]
  {
    var slot := h(keys[i]);
    var kt', at', ks, vs := kt[slot := keys[i]], at[slot := abis[i]], keys[..i + 1], abis[..i + 1];
    assert ks == keys[..i] + [keys[i]];
    assert keys[i] !in keys[..i] by { assert keys[i] in keys[..i] ==> KeyRight(kt, h, keys[i]); }
    forall p: nat {:trigger SlotRight(kt', at', ks, vs, h, none, p)} ensures SlotRight(kt', at', ks, vs, h, none, p) {
      if p < |kt| && kt'[p] != none {
        assert SlotRight(kt, at, keys[..i], abis[..i], h, none, p);
        PrefixAssoc(keys, abis, i, kt'[p]);
      }
    }
    forall k: Word {:trigger KeyRight(kt', h, k)} | k in ks ensures KeyRight(kt', h, k) {
      if k in keys[..i] { assert KeyRight(kt, h, k); }
    }
  }

  /** One more pair whose key is there already: the first value stays. */
  lemma HoldsAlias<V>(kt: seq<Word>, at: seq<V>, keys: seq<Word>, abis: seq<V>, h: Hash, none: Word, i: nat)
    requires |keys| == |abis| && i < |keys| && none !in keys && Holds(kt, at, keys[..i], abis[..i], h, none)
    requires h(keys[i]) < |kt| && kt[h(keys[i])] == keys[i]
    ensures Holds(kt, at, keys[..i + 1], abis[..i + 1], h, none)
    ensures keys[i] in keys[..i]
  {
    var ks, vs := keys[..i + 1], abis[..i + 1];
    assert ks == keys[..i] + [keys[i]];
    assert SlotRight(kt, at, keys[..i], abis[..i], h, none, h(keys[i]));
    forall p: nat {:trigger SlotRight(kt, at, ks, vs, h, none, p)} ensures SlotRight(kt, at, ks, vs, h, none, p) {
      if p < |kt| && kt[p] != none {
        assert SlotRight(kt, at, keys[..i], abis[..i], h, none, p);
        PrefixAssoc(keys, abis, i, kt[p]);
      }
    }
    forall k: Word {:trigger KeyRight(kt, h, k)} | k in ks ensures KeyRight(kt, h, k) {
      assert k in keys[..i];
      assert KeyRight(kt, h, k);
    }
  }

  /** No two different keys share a slot. */
  predicate Separates(keys: seq<Word>, h: Hash) {
    forall i, j :: 0 <= i < j < |keys| && keys[i] != keys[j] ==> h(keys[i]) != h(keys[j])
  }

  lemma HoldsSeparates<V>(kt: seq<Word>, at: seq<V>, keys: seq<Word>, abis: seq<V>, h: Hash, none: Word)
    requires |keys| == |abis| && Holds(kt, at, keys, abis, h, none)
    ensures Separates(keys, h)
  {
    forall i, j | 0 <= i < j < |keys| && keys[i] != keys[j] ensures h(keys[i]) != h(keys[j]) {
      assert KeyRight(kt, h, keys[i]) && KeyRight(kt, h, keys[j]);
    }
  }

  /** A slot that is taken when pair i wants it was taken by an earlier key. */
  lemma TakenByKey<V>(kt: seq<Word>, at: seq<V>, keys: seq<Word>, abis: seq<V>, h: Hash, none: Word, i: nat)
    returns (j: nat)
    requires |keys| == |abis| && i < |keys| && Holds(kt, at, keys[..i], abis[..i], h, none)
    requires h(keys[i]) < |kt| && kt[h(keys[i])] != none
    ensures j < i && keys[j] == kt[h(keys[i])] && h(keys[j]) == h(keys[i])
  {
    var p := h(keys[i]);
    assert SlotRight(kt, at, keys[..i], abis[..i], h, none, p);
    j :| 0 <= j < i && keys[j] == kt[p];
  }

  lemma DistinctMore(keys: seq<Word>, i: nat)
    requires i < |keys|
    ensures Distinct(keys[..i + 1]) <==> Distinct(keys[..i]) && keys[i] !in keys[..i]
  {
    var a, b := keys[..i], keys[..i + 1];
    assert forall p :: 0 <= p < i ==> a[p] == b[p];
    assert b[i] == keys[i];
  }

  // ---------------------------------------------------------------- the table, in place

  class Map {
    const key: array<Word>
    const abi: array<Word>
    const bits: nat
    var mul: Word
    var shift: nat
    var stored: nat

    ghost predicate Shaped() {
      1 <= bits <= 63 && key.Length == abi.Length == Pow2(bits) && key as object != abi as object
    }

    ghost predicate Valid()
      reads this
    {
      Shaped() && shift == 64 - bits
    }

    constructor (bits: nat)
      requires 1 <= bits <= 63
      ensures Shaped() && this.bits == bits && fresh(key) && fresh(abi)
    {
      this.bits := bits;
      key := new Word[Pow2(bits)](_ => EMPTY);
      abi := new Word[Pow2(bits)](_ => 0);
      mul, shift, stored := 0, 64, 0;
    }

    /** The slot of a key, always one of the table's. */
    method At(k: Word, mul: Word, shift: nat) returns (slot: nat)
      requires Shaped() && shift == 64 - bits
      ensures slot == Index(k, mul, shift) && slot < key.Length
    {
      IndexInBounds(k, mul, bits);
      slot := Index(k, mul, shift);
    }

    /** mpiwrapper_rmap_lookup: one multiply, one shift, one load, one compare. */
    method Lookup(k: Word) returns (r: Option<Word>)
      requires Valid()
      ensures r == Found(k)
    {
      var slot := At(k, mul, shift);
      r := if key[slot] == k then Some(abi[slot]) else None;
    }

    ghost function Found(k: Word): Option<Word>
      requires Valid()
      reads this, key, abi
    {
      Find(key[..], abi[..], HashOf(mul, shift), k)
    }

    method ShiftOf() returns (s: nat)
      requires Shaped()
      ensures s == 64 - bits
    {
      s := 64;
      var t := key.Length;
      ghost var left: nat := bits;
      while t > 1
        invariant left <= bits && t == Pow2(left) && s == 64 - (bits - left)
        decreases t
      {
        t := t / 2;
        s := s - 1;
        left := left - 1;
      }
      assert left > 0 ==> Pow2(left) >= 2;
    }

    method Clear()
      requires Shaped()
      modifies key
      ensures forall p :: 0 <= p < key.Length ==> key[p] == EMPTY
    {
      for i := 0 to key.Length
        invariant forall p :: 0 <= p < i ==> key[p] == EMPTY
      {
        key[i] := EMPTY;
      }
    }

    /** One pair.  With `aliases`, a key already in its slot is an alias and is dropped; otherwise it is a collision
      * like any other. */
    method Insert(keys: seq<Word>, abis: seq<Word>, i: nat, mul: Word, shift: nat, aliases: bool)
        returns (fit: bool, isNew: bool)
      requires Shaped() && shift == 64 - bits && |keys| == |abis| && i < |keys| && EMPTY !in keys
      requires Holds(key[..], abi[..], keys[..i], abis[..i], HashOf(mul, shift), EMPTY)
      modifies key, abi
      ensures fit ==> Holds(key[..], abi[..], keys[..i + 1], abis[..i + 1], HashOf(mul, shift), EMPTY)
      ensures fit ==> (isNew <==> keys[i] !in keys[..i]) && (!aliases ==> isNew)
      ensures !fit ==> !Suits(keys, mul, shift, aliases)
    {
      var slot := At(keys[i], mul, shift);
      if aliases && key[slot] == keys[i] {
        HoldsAlias(key[..], abi[..], keys, abis, HashOf(mul, shift), EMPTY, i);
        return true, false;
      }
      if key[slot] != EMPTY {
        var j := TakenByKey(key[..], abi[..], keys, abis, HashOf(mul, shift), EMPTY, i);
        return false, false;
      }
      HoldsMore(key[..], abi[..], keys, abis, HashOf(mul, shift), EMPTY, i);
      ghost var kt, at := key[..], abi[..];
      key[slot] := keys[i];
      abi[slot] := abis[i];
      assert key[..] == kt[slot := keys[i]] && abi[..] == at[slot := abis[i]];
      return true, true;
    }

    /** One multiplier tried on every pair. */
    method Try(keys: seq<Word>, abis: seq<Word>, mul: Word, shift: nat, aliases: bool) returns (ok: bool, count: nat)
      requires Shaped() && shift == 64 - bits && |keys| == |abis| && EMPTY !in keys
      modifies key, abi
      ensures ok ==> Holds(key[..], abi[..], keys, abis, HashOf(mul, shift), EMPTY)
      ensures count <= |keys| && (ok ==> (count == |keys| <==> Distinct(keys)) && (!aliases ==> count == |keys|))
      ensures ok <==> Suits(keys, mul, shift, aliases)
    {
      Clear();
      NothingHeld(key[..], abi[..], HashOf(mul, shift), EMPTY);
      assert keys[..0] == [] && abis[..0] == [];
      count, ok := 0, true;
      var i := 0;
      while i < |keys| && ok
        invariant i <= |keys| && count <= i
        invariant ok ==> Holds(key[..], abi[..], keys[..i], abis[..i], HashOf(mul, shift), EMPTY)
        invariant ok ==> (count == i <==> Distinct(keys[..i])) && (!aliases ==> count == i)
        invariant !ok ==> !Suits(keys, mul, shift, aliases)
      {
        var isNew: bool;
        ok, isNew := Insert(keys, abis, i, mul, shift, aliases);
        DistinctMore(keys, i);
        if ok && isNew { count := count + 1; }
        i := i + 1;
      }
      assert keys[..|keys|] == keys && abis[..|abis|] == abis;
      if ok { HoldsSeparates(key[..], abi[..], keys, abis, HashOf(mul, shift), EMPTY); }
    }

    /** mpiwrapper_rmap_build: it succeeds exactly when one of the multipliers it may try suits the keys, and with the
      * first that does. */
    method Build(keys: seq<Word>, abis: seq<Word>, aliases: bool) returns (ok: bool)
      requires Shaped() && |keys| == |abis| && EMPTY !in keys
      modifies this`mul, this`shift, this`stored, key, abi
      ensures ok ==> Valid() && forall k: Word :: k != EMPTY ==> Found(k) == Assoc(keys, abis, k)
      ensures ok ==> stored <= |keys| && (stored == |keys| <==> Distinct(keys))
      ensures ok && !aliases ==> Distinct(keys)
      ensures ok <==> Mappable(keys, bits, aliases)
      ensures ok ==> exists k: nat :: k < ATTEMPTS && mul == MulAt(k) && FirstToSuit(keys, bits, aliases, k)
    {
      var s := ShiftOf();
      var m: Word := FIRST_MUL;
      for attempt := 0 to ATTEMPTS
        invariant m == MulAt(attempt)
        invariant forall j :: 0 <= j < attempt ==> !Suits(keys, MulAt(j), 64 - bits, aliases)
      {
        var fits, count := Try(keys, abis, m, s, aliases);
        if fits {
          mul, shift, stored := m, s, count;
          assert FirstToSuit(keys, bits, aliases, attempt);
          forall k: Word | k != EMPTY ensures Found(k) == Assoc(keys, abis, k) {
            FindIsAssoc(key[..], abi[..], keys, abis, HashOf(m, s), EMPTY, k);
          }
          return true;
        }
        MulStep(attempt);
        m := (m + STEP_MUL) % 0x1_0000_0000_0000_0000;
      }
      return false;
    }
  }

  /** The multiplier sends different keys to different slots; where aliases are collisions, all keys are different. */
  predicate Suits(keys: seq<Word>, mul: Word, shift: nat, aliases: bool) {
    Separates(keys, HashOf(mul, shift)) && (aliases || Distinct(keys))
  }

  /** One of the multipliers that are tried suits the keys. */
  ghost predicate Mappable(keys: seq<Word>, bits: nat, aliases: bool) {
    bits <= 64 && exists k :: 0 <= k < ATTEMPTS && Suits(keys, MulAt(k), 64 - bits, aliases)
  }

  predicate FirstToSuit(keys: seq<Word>, bits: nat, aliases: bool, k: nat)
    requires bits <= 64
  {
    && Suits(keys, MulAt(k), 64 - bits, aliases)
    && forall j :: 0 <= j < k ==> !Suits(keys, MulAt(j), 64 - bits, aliases)
  }

  /** The multiplier of the k-th attempt. */
  function MulAt(k: nat): Word {
    (FIRST_MUL + k * STEP_MUL) % 0x1_0000_0000_0000_0000
  }

  lemma MulStep(k: nat)
    ensures (MulAt(k) + STEP_MUL) % 0x1_0000_0000_0000_0000 == MulAt(k + 1)
  {
    ModAdd(FIRST_MUL + k * STEP_MUL, STEP_MUL);
    assert FIRST_MUL + (k + 1) * STEP_MUL == FIRST_MUL + k * STEP_MUL + STEP_MUL;
  }

  lemma ModAdd(a: nat, c: nat)
    ensures (a % 0x1_0000_0000_0000_0000 + c) % 0x1_0000_0000_0000_0000 == (a + c) % 0x1_0000_0000_0000_0000
  {
  }

  function HashOf(mul: Word, shift: nat): Hash {
    (k: Word) => Index(k, mul, shift)
  }
}
