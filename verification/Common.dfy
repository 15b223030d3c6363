/** Vocabulary shared by every component of the model. */
module Common {
  datatype Option<+T> = None | Some(value: T) {
    function UnwrapOr(default: T): T {
      if Some? then value else default
    }
  }

  /** A 64-bit word: the bits of a handle, or a key of one of the tables. */
  const TWO64: nat := 0x1_0000_0000_0000_0000
  type Word = w: nat | w < 0x1_0000_0000_0000_0000

  function Min(a: int, b: int): int {
    if a <= b then a else b
  }

  /** The value of the first pair whose key is `k`, as a linear search of an association list finds it. */
  function Assoc<K(==), V>(keys: seq<K>, vals: seq<V>, k: K): (r: Option<V>)
    requires |keys| == |vals|
    ensures r == None <==> k !in keys
    ensures r.Some? ==> exists i :: 0 <= i < |vals| && vals[i] == r.value
  {
    if |keys| == 0 then None
    else if keys[0] == k then Some(vals[0])
    else
      assert keys == [keys[0]] + keys[1..];
      Assoc(keys[1..], vals[1..], k)
  }

  /** Which pair that is. */
  lemma {:induction false} FirstPair<K, V>(keys: seq<K>, vals: seq<V>, k: K) returns (i: nat)
    requires |keys| == |vals| && k in keys
    ensures i < |keys| && keys[i] == k && k !in keys[..i] && Assoc(keys, vals, k) == Some(vals[i])
  {
    assert keys == [keys[0]] + keys[1..];
    if keys[0] == k {
      i := 0;
    } else {
      i := FirstPair(keys[1..], vals[1..], k);
      assert keys[..i + 1] == [keys[0]] + keys[1..][..i];
      i := i + 1;
    }
  }

  /** Where keys are distinct, every pair is found. */
  lemma OnlyPair<K, V>(keys: seq<K>, vals: seq<V>, i: nat)
    requires |keys| == |vals| && Distinct(keys) && i < |keys|
    ensures Assoc(keys, vals, keys[i]) == Some(vals[i])
  {
    var j := FirstPair(keys, vals, keys[i]);
    assert j == i;
  }

  predicate Distinct<T(==)>(s: seq<T>) {
    forall i, j :: 0 <= i < j < |s| ==> s[i] != s[j]
  }
}
