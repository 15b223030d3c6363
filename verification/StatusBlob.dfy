/** Status conversion (src/mpiwrapper/status.c; examples/mpiwrapper_convert.c:310-377): the implementation's private
  * bytes ride in the ABI status's scratch area, whatever the layout of the implementation's own status. */
module StatusBlob {
  import opened Common
  import C = Conversions

  type Byte = b: nat | b < 256

  const SCRATCH := 20
  const INT := 4

  /** MPI_Status: so many private bytes, three ints, so many private bytes. */
  datatype Layout = Layout(head: nat, tail: nat)

  /** What the static assertions demand. */
  predicate Fits(l: Layout) {
    l.head + l.tail <= SCRATCH
  }

  function SizeOf(l: Layout): nat {
    l.head + 3 * INT + l.tail
  }

  /** The conversions of the three named fields, by their roles. */
  datatype Roles = Roles(rank: C.Family, tag: C.Family, errorTo: int -> int, errorFrom: int -> int,
                         anySource: int, anyTag: int)

  predicate RolesOk(r: Roles) {
    C.Proper(r.rank) && C.Proper(r.tag)
  }

  /** A 32-bit int in memory, least significant byte first. */
  predicate IsInt(v: int) {
    -0x8000_0000 <= v < 0x8000_0000
  }

  function Encode(v: int): (r: seq<Byte>)
    requires IsInt(v)
    ensures |r| == INT
  {
    var u := if v < 0 then v + 0x1_0000_0000 else v;
    [u % 256, u / 256 % 256, u / 65536 % 256, u / 0x100_0000 % 256]
  }

  function Decode(b: seq<Byte>): (v: int)
    requires |b| == INT
    ensures IsInt(v)
  {
    var u := (b[0] as int) + 256 * (b[1] as int) + 65536 * (b[2] as int) + 0x100_0000 * (b[3] as int);
    if u >= 0x8000_0000 then u - 0x1_0000_0000 else u
  }

  lemma Decodes(v: int)
    requires IsInt(v)
    ensures Decode(Encode(v)) == v
  {
    var u := if v < 0 then v + 0x1_0000_0000 else v;
    assert u == u % 256 + 256 * (u / 256);
    assert u / 65536 == u / 256 / 256 && u / 0x100_0000 == u / 65536 / 256;
  }

  /** The named field k of a status: 0 the source, 1 the tag, 2 the error. */
  function Named(l: Layout, raw: seq<Byte>, k: nat): int
    requires |raw| == SizeOf(l) && k < 3
  {
    Decode(raw[l.head + INT * k..l.head + INT * (k + 1)])
  }

  /** The private bytes: everything but the named fields. */
  function Private(l: Layout, raw: seq<Byte>): (r: seq<Byte>)
    requires |raw| == SizeOf(l)
    ensures |r| == l.head + l.tail
  {
    raw[..l.head] + raw[l.head + 3 * INT..]
  }

  /** A status in the ABI's layout. */
  datatype AbiStatus = AbiStatus(source: int, tag: int, error: int, internal: seq<Byte>)

  predicate Empty(r: Roles, source: int, tag: int) {
    source == r.anySource && tag == r.anyTag
  }

  /** What a conversion leaves in the caller's status. */
  function Converted(l: Layout, r: Roles, raw: seq<Byte>, was: AbiStatus, withError: bool): AbiStatus
    requires Fits(l) && |raw| == SizeOf(l) && RolesOk(r)
  {
    var source, tag := Named(l, raw, 0), Named(l, raw, 1);
    AbiStatus(C.ToAbi(r.rank, source), C.ToAbi(r.tag, tag),
              if withError || Empty(r, source, tag) then r.errorTo(Named(l, raw, 2)) else was.error,
              Private(l, raw) + seq(SCRATCH - l.head - l.tail, _ => 0))
  }

  /** Bytes overwritten in place. */
  function Splice(s: seq<Byte>, d: nat, bytes: seq<Byte>): (r: seq<Byte>)
    requires d + |bytes| <= |s|
    ensures |r| == |s|
  {
    s[..d] + bytes + s[d + |bytes|..]
  }

  lemma SpliceMiddle(s: seq<Byte>, a: seq<Byte>, mid: seq<Byte>, b: seq<Byte>, bytes: seq<Byte>)
    requires s == a + mid + b && |bytes| == |mid|
    ensures Splice(s, |a|, bytes) == a + bytes + b
  {
  }

  /** memcpy */
  method Copy(dst: array<Byte>, d: nat, src: seq<Byte>, from: nat, n: nat)
    requires d + n <= dst.Length && from + n <= |src|
    modifies dst
    ensures dst[..] == Splice(old(dst[..]), d, src[from..from + n])
  {
    for i := 0 to n
      invariant dst[..] == old(dst[..])[..d] + src[from..from + i] + old(dst[..])[d + i..]
    {
      var before := dst[..];
      dst[d + i] := src[from + i];
      assert dst[..] == before[d + i := src[from + i]];
      assert src[from..from + i + 1] == src[from..from + i] + [src[from + i]];
    }
  }

  lemma BlobOf(l: Layout, raw: seq<Byte>, z: seq<Byte>)
    requires Fits(l) && |raw| == SizeOf(l) && z == seq(SCRATCH, _ => 0)
    ensures Splice(Splice(z, 0, raw[0..l.head]), l.head, raw[l.head + 3 * INT..l.head + 3 * INT + l.tail]) ==
            Private(l, raw) + seq(SCRATCH - l.head - l.tail, _ => 0)
  {
    var h, t := raw[0..l.head], raw[l.head + 3 * INT..l.head + 3 * INT + l.tail];
    assert raw[l.head + 3 * INT..] == t && raw[..l.head] == h;
    assert z == [] + z[..l.head] + z[l.head..];
    SpliceMiddle(z, [], z[..l.head], z[l.head..], h);
    var s1 := h + z[l.head..];
    assert [] + h + z[l.head..] == s1;
    assert s1 == h + z[l.head..l.head + l.tail] + z[l.head + l.tail..];
    SpliceMiddle(s1, h, z[l.head..l.head + l.tail], z[l.head + l.tail..], t);
    assert z[l.head + l.tail..] == seq(SCRATCH - l.head - l.tail, _ => 0);
  }

  method ToBlob(l: Layout, raw: seq<Byte>) returns (internal: seq<Byte>)
    requires Fits(l) && |raw| == SizeOf(l)
    ensures internal == Private(l, raw) + seq(SCRATCH - l.head - l.tail, _ => 0)
  {
    var blob := new Byte[SCRATCH](_ => 0);
    ghost var z := blob[..];
    Copy(blob, 0, raw, 0, l.head);
    Copy(blob, l.head, raw, l.head + 3 * INT, l.tail);
    BlobOf(l, raw, z);
    return blob[..];
  }

  /** `status_toabi`: both forms, the whole status and the one that leaves the caller's error field alone. */
  method ToAbi(l: Layout, r: Roles, raw: seq<Byte>, was: AbiStatus, withError: bool) returns (abi: AbiStatus)
    requires Fits(l) && |raw| == SizeOf(l) && RolesOk(r)
    ensures abi == Converted(l, r, raw, was, withError)
  {
    var internal := ToBlob(l, raw);
    var source, tag := Named(l, raw, 0), Named(l, raw, 1);
    var error := was.error;
    if withError || Empty(r, source, tag) { error := r.errorTo(Named(l, raw, 2)); }
    return AbiStatus(C.ToAbi(r.rank, source), C.ToAbi(r.tag, tag), error, internal);
  }

  /** The bytes `status_fromabi` builds. */
  function Rebuilt(l: Layout, r: Roles, abi: AbiStatus): (raw: seq<Byte>)
    requires Fits(l) && |abi.internal| == SCRATCH && RolesOk(r) && InRange(r, abi)
    ensures |raw| == SizeOf(l)
  {
    abi.internal[..l.head]
    + (Encode(C.FromAbi(r.rank, abi.source)) + Encode(C.FromAbi(r.tag, abi.tag)) + Encode(r.errorFrom(abi.error)))
    + abi.internal[l.head..l.head + l.tail]
  }

  /** The converted fields are ints. */
  predicate InRange(r: Roles, abi: AbiStatus)
    requires RolesOk(r)
  {
    IsInt(C.FromAbi(r.rank, abi.source)) && IsInt(C.FromAbi(r.tag, abi.tag)) && IsInt(r.errorFrom(abi.error))
  }

  /** The private bytes, around whatever the named fields hold. */
  method CopyPrivate(l: Layout, raw: array<Byte>, blob: seq<Byte>)
    requires Fits(l) && raw.Length == SizeOf(l) && |blob| == SCRATCH
    modifies raw
    ensures raw[..] == blob[..l.head] + old(raw[..])[l.head..l.head + 3 * INT] + blob[l.head..l.head + l.tail]
  {
    ghost var z := raw[..];
    Copy(raw, 0, blob, 0, l.head);
    Copy(raw, l.head + 3 * INT, blob, l.head, l.tail);
    PrivateSpliced(l, z, blob[0..l.head], blob[l.head..l.head + l.tail]);
    assert blob[0..l.head] == blob[..l.head];
  }

  method CopyInt(raw: array<Byte>, at: nat, v: int)
    requires at + INT <= raw.Length && IsInt(v)
    modifies raw
    ensures raw[..] == Splice(old(raw[..]), at, Encode(v))
  {
    var bytes := Encode(v);
    Copy(raw, at, bytes, 0, INT);
    assert bytes[0..INT] == bytes;
  }

  /** `status_fromabi` */
  method FromAbi(l: Layout, r: Roles, abi: AbiStatus) returns (raw: array<Byte>)
    requires Fits(l) && |abi.internal| == SCRATCH && RolesOk(r) && InRange(r, abi)
    ensures fresh(raw) && raw[..] == Rebuilt(l, r, abi)
  {
    raw := new Byte[SizeOf(l)](_ => 0);
    ghost var z := raw[l.head..l.head + 3 * INT];
    CopyPrivate(l, raw, abi.internal);
    CopyNamed(l, raw, z, abi.internal[..l.head], abi.internal[l.head..l.head + l.tail],
              C.FromAbi(r.rank, abi.source), C.FromAbi(r.tag, abi.tag), r.errorFrom(abi.error));
  }

  method CopyNamed(l: Layout, raw: array<Byte>, ghost z: seq<Byte>, ghost h: seq<Byte>, ghost t: seq<Byte>,
                   source: int, tag: int, error: int)
    requires |h| == l.head && |z| == 3 * INT && raw.Length == l.head + 3 * INT + |t| && raw[..] == h + z + t
    requires IsInt(source) && IsInt(tag) && IsInt(error)
    modifies raw
    ensures raw[..] == h + (Encode(source) + Encode(tag) + Encode(error)) + t
  {
    CopyInt(raw, l.head, source);
    CopyInt(raw, l.head + INT, tag);
    CopyInt(raw, l.head + 2 * INT, error);
    NamedSpliced(l, z, h, t, Encode(source), Encode(tag), Encode(error));
  }

  lemma PrivateSpliced(l: Layout, z: seq<Byte>, h: seq<Byte>, t: seq<Byte>)
    requires |z| == SizeOf(l) && |h| == l.head && |t| == l.tail
    ensures Splice(Splice(z, 0, h), l.head + 3 * INT, t) == h + z[l.head..l.head + 3 * INT] + t
  {
    assert z == [] + z[..l.head] + z[l.head..];
    SpliceMiddle(z, [], z[..l.head], z[l.head..], h);
    var s1 := h + z[l.head..];
    assert [] + h + z[l.head..] == s1;
    var a := h + z[l.head..l.head + 3 * INT];
    assert s1 == a + z[l.head + 3 * INT..] + [];
    SpliceMiddle(s1, a, z[l.head + 3 * INT..], [], t);
  }

  lemma NamedSpliced(l: Layout, m: seq<Byte>, h: seq<Byte>, t: seq<Byte>, x: seq<Byte>, y: seq<Byte>, w: seq<Byte>)
    requires |m| == 3 * INT && |h| == l.head && |x| == |y| == |w| == INT
    ensures Splice(Splice(Splice(h + m + t, l.head, x), l.head + INT, y), l.head + 2 * INT, w) == h + (x + y + w) + t
  {
    var s0 := h + m + t;
    assert s0 == h + m[..INT] + (m[INT..] + t);
    SpliceMiddle(s0, h, m[..INT], m[INT..] + t, x);
    var s1 := h + x + (m[INT..] + t);
    assert s1 == (h + x) + m[INT..2 * INT] + (m[2 * INT..] + t);
    SpliceMiddle(s1, h + x, m[INT..2 * INT], m[2 * INT..] + t, y);
    var s2 := (h + x) + y + (m[2 * INT..] + t);
    assert s2 == (h + x + y) + m[2 * INT..] + t;
    SpliceMiddle(s2, h + x + y, m[2 * INT..], t, w);
    assert h + x + y + w + t == h + (x + y + w) + t;
  }

  lemma RebuiltParts(l: Layout, r: Roles, abi: AbiStatus)
    requires Fits(l) && |abi.internal| == SCRATCH && RolesOk(r) && InRange(r, abi)
    ensures Private(l, Rebuilt(l, r, abi)) == abi.internal[..l.head + l.tail]
    ensures Named(l, Rebuilt(l, r, abi), 0) == C.FromAbi(r.rank, abi.source)
    ensures Named(l, Rebuilt(l, r, abi), 1) == C.FromAbi(r.tag, abi.tag)
    ensures Named(l, Rebuilt(l, r, abi), 2) == r.errorFrom(abi.error)
  {
    var raw := Rebuilt(l, r, abi);
    var a, b, c := C.FromAbi(r.rank, abi.source), C.FromAbi(r.tag, abi.tag), r.errorFrom(abi.error);
    Decodes(a);
    Decodes(b);
    Decodes(c);
    assert raw[l.head..l.head + INT] == Encode(a);
    assert raw[l.head + INT..l.head + 2 * INT] == Encode(b);
    assert raw[l.head + 2 * INT..l.head + 3 * INT] == Encode(c);
    assert raw[..l.head] + raw[l.head + 3 * INT..] == abi.internal[..l.head + l.tail];
  }

  /** For every layout that fits, a status comes back from the ABI with every private byte as it was, and with each
    * named field exactly where the field's own conversion is exact. */
  lemma StatusRoundTrip(l: Layout, r: Roles, raw: seq<Byte>, was: AbiStatus)
    requires Fits(l) && |raw| == SizeOf(l) && RolesOk(r)
    requires InRange(r, Converted(l, r, raw, was, true))
    ensures var abi := Converted(l, r, raw, was, true);
      var again := Rebuilt(l, r, abi);
      && Private(l, again) == Private(l, raw)
      && (Named(l, again, 0) == Named(l, raw, 0) <==>
          C.FromAbi(r.rank, C.ToAbi(r.rank, Named(l, raw, 0))) == Named(l, raw, 0))
      && (Named(l, again, 1) == Named(l, raw, 1) <==>
          C.FromAbi(r.tag, C.ToAbi(r.tag, Named(l, raw, 1))) == Named(l, raw, 1))
      && (Named(l, again, 2) == Named(l, raw, 2) <==> r.errorFrom(r.errorTo(Named(l, raw, 2))) == Named(l, raw, 2))
  {
    var abi := Converted(l, r, raw, was, true);
    RebuiltParts(l, r, abi);
    assert abi.internal[..l.head + l.tail] == Private(l, raw);
  }

  /** For ranks and tags that condition is: a sentinel, or no value the ABI uses for one. */
  lemma RankSurvives(f: C.Family, v: int)
    requires C.Proper(f) && f.from == C.PassThrough && f.to == C.PassThrough
    ensures C.FromAbi(f, C.ToAbi(f, v)) == v <==> v in f.impl || v !in f.abi
  {
    C.ImplRoundTrip(f, v);
  }

  /** A single status comes back with the caller's error field untouched (section 3.2.5 of MPI-5.0), except the empty
    * status, whose error field is part of its value (section 3.7.3). */
  lemma ErrorFieldKept(l: Layout, r: Roles, raw: seq<Byte>, was: AbiStatus)
    requires Fits(l) && |raw| == SizeOf(l) && RolesOk(r)
    ensures var source, tag := Named(l, raw, 0), Named(l, raw, 1);
      var one, all := Converted(l, r, raw, was, false), Converted(l, r, raw, was, true);
      && one.(error := all.error) == all
      && one.error == if source == r.anySource && tag == r.anyTag then r.errorTo(Named(l, raw, 2)) else was.error
  {
  }

  /** Copying an ABI status copies everything the implementation needs of it: two statuses that agree in the scratch
    * bytes in use and the named fields are one status to the implementation. */
  lemma CopiesAreEqual(l: Layout, r: Roles, a: AbiStatus, b: AbiStatus)
    requires Fits(l) && |a.internal| == |b.internal| == SCRATCH && RolesOk(r) && InRange(r, a)
    requires a.source == b.source && a.tag == b.tag && a.error == b.error
    ensures Rebuilt(l, r, a) == Rebuilt(l, r, b) <==> a.internal[..l.head + l.tail] == b.internal[..l.head + l.tail]
  {
    RebuiltParts(l, r, a);
    RebuiltParts(l, r, b);
    assert a.internal[..l.head + l.tail] == a.internal[..l.head] + a.internal[l.head..l.head + l.tail];
    assert b.internal[..l.head + l.tail] == b.internal[..l.head] + b.internal[l.head..l.head + l.tail];
    if a.internal[..l.head + l.tail] == b.internal[..l.head + l.tail] {
      assert a.internal[..l.head] == a.internal[..l.head + l.tail][..l.head];
      assert b.internal[..l.head] == b.internal[..l.head + l.tail][..l.head];
      assert a.internal[l.head..l.head + l.tail] == a.internal[..l.head + l.tail][l.head..];
      assert b.internal[l.head..l.head + l.tail] == b.internal[..l.head + l.tail][l.head..];
    }
  }
}
