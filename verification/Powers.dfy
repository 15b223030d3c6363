/** Powers of two, and products and quotients of naturals. */
module Powers {
  function Pow2(k: nat): (r: nat)
    ensures r > 0
  {
    if k == 0 then 1 else 2 * Pow2(k - 1)
  }

  lemma {:induction false} PowAdd(a: nat, b: nat)
    ensures Pow2(a + b) == Pow2(a) * Pow2(b)
    decreases b
  {
    if b > 0 { PowAdd(a, b - 1); }
  }

  lemma {:induction false} PowMonotone(a: nat, b: nat)
    requires a <= b
    ensures Pow2(a) <= Pow2(b)
    decreases b - a
  {
    if a < b { PowMonotone(a, b - 1); }
  }

  lemma PowLess(a: nat, b: nat)
    ensures Pow2(a) < Pow2(b) ==> a < b
  {
    if b <= a { PowMonotone(b, a); }
  }

  /** Powers at the widths of bytes, ints and words. */
  lemma PowWidths()
    ensures Pow2(8) == 0x100 && Pow2(16) == 0x1_0000 && Pow2(32) == 0x1_0000_0000 && Pow2(64) == 0x1_0000_0000_0000_0000
  {
    var k: nat := 8;
    assert Pow2(k) == 256;
    PowAdd(8, 8);
    PowAdd(16, 16);
    PowAdd(32, 32);
  }

  lemma Scales(a: nat, b: nat, c: nat)
    requires a <= b
    ensures a * c <= b * c
  {
  }

  /** Whether a product fits, asked without multiplying. */
  lemma FitsByDivision(n: nat, size: nat, room: nat)
    requires size > 0
    ensures n <= room / size <==> n * size <= room
  {
    var q := room / size;
    assert q * size <= room < (q + 1) * size;
    if n <= q { Scales(n, q, size); } else { Scales(q + 1, n, size); }
  }
}
