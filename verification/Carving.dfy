/** One heap block for the temporaries of several arrays (src/mpiwrapper/internal.h:148-180): where each array starts.
  * `top` is the largest size_t. */
module Carving {
  import opened Common
  import opened Powers

  /** `alignof(max_align_t)`. */
  const ALIGN: nat := 16

  /** The largest size_t: all its low bits are set. */
  type Top = t: nat | t % ALIGN == ALIGN - 1 witness 15

  /** Where the next array starts: past so many bytes, rounded up; `top`, for good, once that is out of
    * reach. */
  function Next(top: Top, off: nat, bytes: nat): (r: nat)
    ensures r == top || (r % ALIGN == 0 && off + bytes <= r < off + bytes + ALIGN && r < top)
    ensures r == top <==> off == top || off + bytes > top - (ALIGN - 1)
  {
    if off == top || off + bytes > top - (ALIGN - 1) then top
    else (off + bytes + ALIGN - 1) / ALIGN * ALIGN
  }

  /** The start of array k in a block of arrays of so many bytes each; with k the number of arrays, the block's size. */
  function Offset(top: Top, bytes: seq<nat>, k: nat): (r: nat)
    requires k <= |bytes|
    ensures r == top || (r < top && r % ALIGN == 0)
  {
    if k == 0 then 0 else Next(top, Offset(top, bytes, k - 1), bytes[k - 1])
  }

  /** Bytes the arrays need, without padding. */
  function Needed(bytes: seq<nat>, k: nat): nat
    requires k <= |bytes|
  {
    if k == 0 then 0 else Needed(bytes, k - 1) + bytes[k - 1]
  }

  lemma {:induction false} OffsetsGrow(top: Top, bytes: seq<nat>, j: nat, k: nat)
    requires j <= k <= |bytes| && Offset(top, bytes, k) != top
    ensures Offset(top, bytes, j) != top && Offset(top, bytes, j) <= Offset(top, bytes, k)
    ensures j < k ==> Offset(top, bytes, j) + bytes[j] <= Offset(top, bytes, k)
    decreases k
  {
    if j < k { OffsetsGrow(top, bytes, j, k - 1); }
  }

  /** A block too large for the address space is never mistaken for a small one: the layout comes out as
    * `top`, which the body does not try to allocate; and it comes out so only if the padded arrays do not fit. */
  lemma {:induction false} LayoutNeverWraps(top: Top, bytes: seq<nat>, k: nat)
    requires k <= |bytes|
    ensures Offset(top, bytes, k) == top ==> Needed(bytes, k) + k * ALIGN > top
    ensures Offset(top, bytes, k) != top ==> Needed(bytes, k) <= Offset(top, bytes, k) <= Needed(bytes, k) + k * ALIGN
  {
    if k > 0 { LayoutNeverWraps(top, bytes, k - 1); }
  }

  function Bytes(n: nat, size: nat): nat {
    n * size
  }

  /** mpiwrapper_staged_next: no step of it wraps around. */
  method StagedNext(top: Top, off: nat, n: nat, size: nat) returns (r: nat)
    requires off <= top && n <= top && size <= top
    ensures r == Next(top, off, Bytes(n, size))
  {
    if size > 0 && off <= top { FitsByDivision(n, size, top - off); }
    if off == top || (size > 0 && n > (top - off) / size) { return top; }
    assert off + n * size <= top by { if size == 0 { assert n * size == 0; } }
    var end := off + n * size;
    if end > top - (ALIGN - 1) { return top; }
    // Clearing the low bits of a sum that is in range.
    return end + ALIGN - 1 - (end + ALIGN - 1) % ALIGN;
  }

  lemma OffsetNext(top: Top, bytes: seq<nat>, i: nat, off: nat, b: nat)
    requires i < |bytes| && off == Offset(top, bytes, i) && b == bytes[i]
    ensures Next(top, off, b) == Offset(top, bytes, i + 1)
  {
  }

  datatype Part = Part(n: nat, size: nat)

  /** The offsets of one block's arrays, one `off_` local after another, and its size. */
  method Carve(top: Top, parts: seq<Part>) returns (offsets: seq<nat>)
    requires forall p :: p in parts ==> p.n <= top && p.size <= top
    ensures |offsets| == |parts| + 1
    ensures forall k {:trigger offsets[k]} :: 0 <= k <= |parts| ==> offsets[k] == Offset(top, BytesOf(parts), k)
  {
    offsets := [0];
    ghost var bytes := BytesOf(parts);
    for i := 0 to |parts|
      invariant |offsets| == i + 1
      invariant forall k {:trigger offsets[k]} :: 0 <= k <= i ==> offsets[k] == Offset(top, bytes, k)
    {
      assert parts[i] in parts;
      var next := StagedNext(top, offsets[i], parts[i].n, parts[i].size);
      OffsetNext(top, bytes, i, offsets[i], bytes[i]);
      offsets := offsets + [next];
    }
  }

  function BytesOf(parts: seq<Part>): (r: seq<nat>)
    ensures |r| == |parts| && forall k :: 0 <= k < |r| ==> r[k] == Bytes(parts[k].n, parts[k].size)
  {
    seq(|parts|, k requires 0 <= k < |parts| => Bytes(parts[k].n, parts[k].size))
  }

  // ---------------------------------------------------------------- both layouts

  /** How many elements the first k arrays have together. */
  function Sum(parts: seq<Part>, k: nat): nat
    requires k <= |parts|
  {
    if k == 0 then 0 else Sum(parts, k - 1) + parts[k - 1].n
  }

  lemma {:induction false} SumGrows(parts: seq<Part>, j: nat, k: nat)
    requires j < k <= |parts|
    ensures Sum(parts, j) + parts[j].n <= Sum(parts, k)
    decreases k
  {
    if j < k - 1 { SumGrows(parts, j, k - 1); }
  }

  /** Arrays of more than one element type are laid out in bytes, each on its own alignment; arrays of one type lie end
    * to end. */
  datatype Layout = Layout(parts: seq<Part>, mixed: bool, nstaged: nat)

  /** The element size of arrays of one type. */
  function Unit(l: Layout): (r: nat)
    ensures r > 0
  {
    if |l.parts| > 0 && l.parts[0].size > 0 then l.parts[0].size else 1
  }

  /** Arrays of one type are of one size, and `nstaged` has counted their elements without wrapping around. */
  predicate Sound(l: Layout) {
    !l.mixed ==>
      l.nstaged == Sum(l.parts, |l.parts|) && forall k :: 0 <= k < |l.parts| ==> l.parts[k].size == Unit(l)
  }

  function Start(top: Top, l: Layout, k: nat): nat
    requires k < |l.parts|
  {
    if l.mixed then Offset(top, BytesOf(l.parts), k) else Bytes(Sum(l.parts, k), Unit(l))
  }

  /** The size asked of the heap, or nothing where no size_t can say it. */
  function Room(top: Top, l: Layout): Option<nat> {
    if l.mixed then
      var n := Offset(top, BytesOf(l.parts), |l.parts|);
      if n == top then None else Some(n)
    else if l.nstaged > top / Unit(l) then None
    else Some(Bytes(l.nstaged, Unit(l)))
  }

  /** A block is asked for wherever its size can be said: of one type, exactly what its elements take, and nothing
    * exactly where that is more than a size_t; of several, no more than an alignment beyond what each takes. */
  lemma RoomExactly(top: Top, l: Layout)
    ensures !l.mixed ==> (Room(top, l).Some? <==> Bytes(l.nstaged, Unit(l)) <= top)
                         && (Room(top, l).Some? ==> Room(top, l).value == Bytes(l.nstaged, Unit(l)))
    ensures l.mixed ==>
      var n, b := |l.parts|, BytesOf(l.parts);
      && (Needed(b, n) + n * ALIGN <= top ==> Room(top, l).Some?)
      && (Room(top, l).Some? ==> Needed(b, n) <= Room(top, l).value <= Needed(b, n) + n * ALIGN)
  {
    FitsByDivision(l.nstaged, Unit(l), top);
    LayoutNeverWraps(top, BytesOf(l.parts), |l.parts|);
  }

  lemma BytesSum(a: nat, b: nat, c: nat, size: nat)
    requires a + b <= c
    ensures Bytes(a, size) + Bytes(b, size) <= Bytes(c, size)
  {
    Scales(a + b, c, size);
  }

  /** In either layout every array has its own stretch of the block that was asked for, and lies inside it. */
  lemma StretchesDisjoint(top: Top, l: Layout, j: nat, k: nat)
    requires Sound(l) && Room(top, l).Some? && j <= k < |l.parts|
    ensures Start(top, l, k) + Bytes(l.parts[k].n, l.parts[k].size) <= Room(top, l).value
    ensures j < k ==> Start(top, l, j) + Bytes(l.parts[j].n, l.parts[j].size) <= Start(top, l, k)
  {
    if l.mixed {
      OffsetsGrow(top, BytesOf(l.parts), k, |l.parts|);
      OffsetsGrow(top, BytesOf(l.parts), j, k);
    } else {
      SumGrows(l.parts, k, |l.parts|);
      BytesSum(Sum(l.parts, k), l.parts[k].n, Sum(l.parts, |l.parts|), Unit(l));
      if j < k {
        SumGrows(l.parts, j, k);
        BytesSum(Sum(l.parts, j), l.parts[j].n, Sum(l.parts, k), Unit(l));
      }
    }
  }
}
