/** The large-count fallback: the second compilation of a signature, written against the small-count twin
  * (dev/generate.py:4176-4366), and what it refines.
  *
  * A parameter the twin takes narrower is narrowed, an out it reports narrower is widened, and the rest is as in the
  * native form.  So both are emitted bodies, and `FallbackRefines` compares their executions.
  */
module LargeCount {
  import opened Common
  import opened Powers
  import opened GenIR
  import opened GenEmit
  import opened GenSpec
  import opened GenStaging
  import opened GenCalling
  import opened GenMeaning
  import opened GenTheorems
  import T = StagedTable

  datatype Direction = DirIn | DirOut | DirInout
  datatype CType = CInt | CAint | CCount | COffset | Other(id: nat)
  datatype Form = ByVal | Pointer | Array

  /** One formal of an entry point: its C declaration, the class the generator gave it, and the buffer, if there is one,
    * whose being MPI_IN_PLACE makes it ignored. */
  datatype Formal = Formal(name: nat, dir: Direction, ty: CType, form: Form, cls: Class, ignoredBy: Option<nat>)

  predicate Narrowable(ty: CType) {
    !ty.Other?
  }

  /** A narrowing function exists only for the types a small twin takes. */
  predicate HasNarrow(ty: CType) {
    ty.CInt? || ty.CAint?
  }

  function Bytes(ty: CType, aint: nat): nat {
    if ty.CInt? then 4 else aint
  }

  /** The class name of a parameter, and its conversion family; the extents of its arrays are named separately. */
  function Tag(c: Class): (nat, Family) {
    match c
    case In(fam) => (0, fam)
    case Buffer(fam, _) => (1, fam)
    case PassPtr(_) => (0, IDENTITY)
    case Subst(_) => (0, IDENTITY)
    case HandleOut(fam) => (2, fam)
    case ScalarOut(fam, _) => (3, fam)
    case Inout(fam) => (4, fam)
    case StatusOut => (5, IDENTITY)
    case StageIn(fam, _, _, _) => (6, fam)
    case StageInout(_) => (7, IDENTITY)
    case StageOut(fam, _) => (8, fam)
    case StageStatus(_) => (9, IDENTITY)
    case MapOut(fam, _) => (10, fam)
    case _ => (11, IDENTITY)
  }

  predicate Passes(f: Formal) {
    match f.form
    case ByVal => f.cls == In(IDENTITY) || f.cls.Subst?
    case Pointer => f.cls.PassPtr?
    case Array => f.cls.PassPtr?
  }

  /** How a parameter the two forms type differently is converted, if it can be.  `ext` sizes an array the twin takes
    * narrower; an array nothing can size has none. */
  function FallbackParam(p: Formal, ap: Formal, ext: Option<Extent>, aint: nat): Option<Class> {
    if p.name != ap.name || p.dir != ap.dir then None
    else if p.ty == ap.ty && p.form == ap.form then (if Tag(p.cls) == Tag(ap.cls) then Some(p.cls) else None)
    else if p.form == Array || ap.form == Array then
      if p.form == ap.form && p.dir == DirIn && Passes(p) && Passes(ap) && Narrowable(p.ty) && HasNarrow(ap.ty)
         && ext.Some? then
        Some(StageNarrow(Bytes(ap.ty, aint), ext.value, p.ignoredBy.Some?, p.ignoredBy.UnwrapOr(0)))
      else None
    else if !Passes(p) || !Passes(ap) || p.form != ap.form || !Narrowable(p.ty) || !Narrowable(ap.ty) then None
    else if p.form == ByVal then
      if !HasNarrow(ap.ty) then None
      else Some(Narrow(Bytes(ap.ty, aint), p.cls.Subst?, if p.cls.Subst? then p.cls.id else 0))
    else
      match p.dir
      case DirOut => Some(ScalarOut(IDENTITY, true))
      case DirInout => if HasNarrow(ap.ty) then Some(NarrowInout(Bytes(ap.ty, aint))) else None
      case DirIn => None
  }

  /** A parameter only the large form has. */
  function LargeOnly(p: Formal): Class {
    if p.dir == DirOut && p.form == Pointer then LargeZero else LargeVoid
  }

  function Lookup(alts: seq<Formal>, name: nat): (r: Option<Formal>)
    ensures r.Some? ==> r.value in alts && r.value.name == name
    ensures r == None ==> forall a :: a in alts ==> a.name != name
  {
    if alts == [] then None
    else if alts[0].name == name then Some(alts[0])
    else Lookup(alts[1..], name)
  }

  /** The class a parameter has in the fallback body. */
  function FallbackClass(p: Formal, alts: seq<Formal>, ext: Option<Extent>, aint: nat): Option<Class> {
    match Lookup(alts, p.name)
    case None => Some(LargeOnly(p))
    case Some(ap) => FallbackParam(p, ap, ext, aint)
  }

  predicate Covered(ps: seq<Formal>, alts: seq<Formal>) {
    forall a :: a in alts ==> Lookup(ps, a.name).Some?
  }

  function Fallback(ps: seq<Formal>, alts: seq<Formal>, exts: seq<Option<Extent>>, aint: nat): Option<seq<Class>>
    requires |exts| == |ps|
  {
    if ps == [] then Some([])
    else
      match FallbackClass(ps[0], alts, exts[0], aint)
      case None => None
      case Some(c) =>
        match Fallback(ps[1..], alts, exts[1..], aint)
        case None => None
        case Some(cs) => Some([c] + cs)
  }

  function Prepend(a: seq<Class>, f: Option<seq<Class>>): Option<seq<Class>> {
    match f
    case None => None
    case Some(cs) => Some(a + cs)
  }

  lemma PrependNone(f: Option<seq<Class>>)
    ensures Prepend([], f) == f
  {
    if f.Some? { assert [] + f.value == f.value; }
  }

  lemma PrependMore(a: seq<Class>, c: Class, f: Option<seq<Class>>)
    ensures Prepend(a, Prepend([c], f)) == Prepend(a + [c], f)
  {
    if f.Some? { assert a + ([c] + f.value) == (a + [c]) + f.value; }
  }

  /** `assign_fallbacks` for one entry point: its parameters paired with the twin's by name, one at a time.  There is
    * no fallback when the twin wants something the large form cannot give, or when one parameter cannot be
    * converted. */
  method AssignFallback(ps: seq<Formal>, alts: seq<Formal>, exts: seq<Option<Extent>>, aint: nat)
      returns (r: Option<seq<Class>>)
    requires |exts| == |ps|
    ensures r == if Covered(ps, alts) then Fallback(ps, alts, exts, aint) else None
  {
    for k := 0 to |alts|
      invariant forall j :: 0 <= j < k ==> Lookup(ps, alts[j].name).Some?
    {
      if Lookup(ps, alts[k].name) == None {
        assert alts[k] in alts;
        return None;
      }
    }
    assert Covered(ps, alts);
    var params: seq<Class> := [];
    assert ps[0..] == ps && exts[0..] == exts;
    PrependNone(Fallback(ps, alts, exts, aint));
    for i := 0 to |ps|
      invariant Fallback(ps, alts, exts, aint) == Prepend(params, Fallback(ps[i..], alts, exts[i..], aint))
    {
      assert ps[i..][1..] == ps[i + 1..] && exts[i..][1..] == exts[i + 1..];
      match FallbackClass(ps[i], alts, exts[i], aint) {
        case None => return None;
        case Some(c) =>
          PrependMore(params, c, Fallback(ps[i + 1..], alts, exts[i + 1..], aint));
          params := params + [c];
      }
    }
    assert params + [] == params;
    return Some(params);
  }

  // ---------------------------------------------------------------- whether a value fits

  /** `mpiwrapper_fits` as it is written: an unsigned comparison of magnitudes, which must not overflow. */
  predicate MagnitudeFits(v: int, bytes: nat)
    requires 1 <= bytes <= 8 && -0x8000_0000_0000_0000 <= v < 0x8000_0000_0000_0000
  {
    var magnitude := Pow2(bytes * 8 - 1) % TWO64;
    if v >= 0 then v % TWO64 < magnitude else (-(v + 1)) % TWO64 < magnitude
  }

  lemma PowBound(n: nat)
    requires n <= 63
    ensures Pow2(n) <= 0x8000_0000_0000_0000 && Pow2(63) == 0x8000_0000_0000_0000
  {
    PowMonotone(n, 63);
    PowWidths();
    assert Pow2(64) == 2 * Pow2(63);
  }

  /** It says exactly that the value survives the conversion, and an 8-byte type holds every value. */
  lemma MagnitudeFitsExactly(v: int, bytes: nat)
    requires 1 <= bytes <= 8 && -0x8000_0000_0000_0000 <= v < 0x8000_0000_0000_0000
    ensures MagnitudeFits(v, bytes) <==> Fits(v, bytes)
    ensures bytes == 8 ==> Fits(v, bytes)
  {
    PowBound(bytes * 8 - 1);
  }

  // ---------------------------------------------------------------- what may become of a class

  predicate Extra(c': Class) {
    c'.LargeZero? || c'.LargeVoid?
  }

  /** Every class the fallback gives a parameter serves the class the primary body gave it. */
  predicate Serves(c: Class, c': Class) {
    || c' == c
    || Extra(c')
    || (c == In(IDENTITY) && c'.Narrow? && !c'.sub)
    || (c.Subst? && c'.Narrow? && c'.sub && c'.probe == c.id)
    || (c.PassPtr? && c' == ScalarOut(IDENTITY, true))
    || (c.PassPtr? && (c'.NarrowInout? || c'.StageNarrow?))
  }

  /** Each parameter's class is decided by itself; the fallback exists where every one can be. */
  lemma {:induction false} FallbackAt(ps: seq<Formal>, alts: seq<Formal>, exts: seq<Option<Extent>>, aint: nat)
    requires |exts| == |ps|
    ensures Fallback(ps, alts, exts, aint).Some? <==>
            forall i :: 0 <= i < |ps| ==> FallbackClass(ps[i], alts, exts[i], aint).Some?
    ensures Fallback(ps, alts, exts, aint).Some? ==>
      && |Fallback(ps, alts, exts, aint).value| == |ps|
      && forall i :: 0 <= i < |ps| ==>
           FallbackClass(ps[i], alts, exts[i], aint) == Some(Fallback(ps, alts, exts, aint).value[i])
  {
    if ps != [] {
      FallbackAt(ps[1..], alts, exts[1..], aint);
      assert forall i :: 0 < i < |ps| ==> ps[i] == ps[1..][i - 1] && exts[i] == exts[1..][i - 1];
      if forall i :: 0 <= i < |ps| ==> FallbackClass(ps[i], alts, exts[i], aint).Some? {
        assert forall i :: 0 <= i < |ps| - 1 ==> ps[1..][i] == ps[i + 1] && exts[1..][i] == exts[i + 1];
      }
    }
  }

  /** What a fallback gives each parameter serves what the native form would have given it. */
  lemma FallbackServes(ps: seq<Formal>, alts: seq<Formal>, exts: seq<Option<Extent>>, aint: nat, i: nat)
    requires |exts| == |ps| && Fallback(ps, alts, exts, aint).Some? && i < |ps|
    ensures |Fallback(ps, alts, exts, aint).value| == |ps|
    ensures Serves(ps[i].cls, Fallback(ps, alts, exts, aint).value[i])
    ensures Lookup(alts, ps[i].name).Some? ==>
      !Extra(Fallback(ps, alts, exts, aint).value[i]) || Extra(ps[i].cls)
  {
    FallbackAt(ps, alts, exts, aint);
  }

  /** The values the implementation's C type has: an int of four bytes, an MPI_Aint of `aint`. */
  predicate InType(ty: CType, aint: nat, v: int) {
    match ty
    case CInt => -0x8000_0000 <= v < 0x8000_0000
    case CAint => aint > 0 && -(Pow2(8 * aint - 1) as int) <= v < Pow2(8 * aint - 1)
    case _ => true
  }

  lemma WidthRight(ty: CType, aint: nat, v: int)
    requires HasNarrow(ty)
    ensures Fits(v, Bytes(ty, aint)) <==> InType(ty, aint, v)
  {
    PowBound(31);
    PowWidths();
    assert Pow2(32) == 2 * Pow2(31);
  }

  /** Where the two forms declare a parameter differently, what goes in is checked, value by value, against exactly what
    * the twin's own type has, and what only comes out is widened; an array is measured by its own extent, and ignored
    * where its buffer says so.  A parameter only the large form has is answered zero if it is an out object. */
  lemma NarrowsToTwin(ps: seq<Formal>, alts: seq<Formal>, exts: seq<Option<Extent>>, aint: nat, i: nat)
    requires |exts| == |ps| && Fallback(ps, alts, exts, aint).Some? && i < |ps|
    ensures |Fallback(ps, alts, exts, aint).value| == |ps|
    ensures Lookup(alts, ps[i].name).Some? ==>
      var p, ap, c := ps[i], Lookup(alts, ps[i].name).value, Fallback(ps, alts, exts, aint).value[i];
      if p.ty == ap.ty && p.form == ap.form then c == p.cls
      else if p.form == Pointer && p.dir == DirOut then c == ScalarOut(IDENTITY, true)
      else
        && (c.Narrow? || c.NarrowInout? || c.StageNarrow?)
        && (c.Narrow? <==> p.form == ByVal) && (c.StageNarrow? <==> p.form == Array)
        && (forall v: int {:trigger Fits(v, c.bytes)} :: Fits(v, c.bytes) <==> InType(ap.ty, aint, v))
        && (c.StageNarrow? ==> exts[i] == Some(c.ext) && p.ignoredBy == if c.inplace then Some(c.buffer) else None)
    ensures Lookup(alts, ps[i].name) == None ==>
      var p, c := ps[i], Fallback(ps, alts, exts, aint).value[i];
      Extra(c) && (c.LargeZero? <==> p.dir == DirOut && p.form == Pointer)
  {
    FallbackAt(ps, alts, exts, aint);
    var twin := Lookup(alts, ps[i].name);
    if twin.Some? && HasNarrow(twin.value.ty) {
      var ap := twin.value;
      assert FallbackParam(ps[i], ap, exts[i], aint).Some?;
      forall v: int {:trigger Fits(v, Bytes(ap.ty, aint))}
        ensures Fits(v, Bytes(ap.ty, aint)) <==> InType(ap.ty, aint, v)
      {
        WidthRight(ap.ty, aint, v);
      }
    }
  }

  /** Both classes convert alike: the same way, between the same families.  A value passed through is one whether it is
    * passed by value, by pointer or in place of another. */
  predicate Alike(c: Class, d: Class) {
    match c
    case In(fam) => if fam == IDENTITY then Through(d) else d == c
    case PassPtr(_) => Through(d)
    case Subst(_) => Through(d)
    case Buffer(fam, _) => d.Buffer? && d.fam == fam
    case HandleOut(_) => d == c
    case ScalarOut(fam, _) => d.ScalarOut? && d.fam == fam
    case Inout(_) => d == c
    case StatusOut => d == c
    case StageIn(fam, _, _, _) => d.StageIn? && d.fam == fam
    case StageInout(_) => d.StageInout?
    case StageOut(fam, _) => d.StageOut? && d.fam == fam
    case StageStatus(_) => d.StageStatus?
    case MapOut(fam, _) => d.MapOut? && d.fam == fam
    case _ => FallbackOnly(d)
  }

  predicate Through(c: Class) {
    c == In(IDENTITY) || c.PassPtr? || c.Subst?
  }

  /** The classes no native form has. */
  predicate FallbackOnly(c: Class) {
    c.Narrow? || c.NarrowInout? || c.StageNarrow? || c.LargeZero? || c.LargeVoid?
  }

  /** The parameter can be got to the twin: both declare it alike and convert it alike, or both pass an integer through
    * in the same way, the twin in a type there is a narrowing for -- unless it only comes out, and widens.  An array
    * only goes in, and has to be sized; an object behind a pointer is not only read. */
  predicate CanServe(p: Formal, ap: Formal, sized: bool) {
    && p.name == ap.name && p.dir == ap.dir
    && (p.ty == ap.ty && p.form == ap.form ==> Alike(p.cls, ap.cls))
    && (p.ty != ap.ty || p.form != ap.form ==>
          && p.form == ap.form && !p.ty.Other? && !ap.ty.Other?
          && (if p.form == ByVal then Through(p.cls) && !p.cls.PassPtr? && Through(ap.cls) && !ap.cls.PassPtr?
              else p.cls.PassPtr? && ap.cls.PassPtr?)
          && (ap.ty == CInt || ap.ty == CAint || (p.form == Pointer && p.dir == DirOut))
          && (p.form == Array ==> p.dir == DirIn && sized)
          && (p.form == Pointer ==> p.dir != DirIn))
  }

  predicate Served(p: Formal, alts: seq<Formal>, sized: bool) {
    Lookup(alts, p.name).Some? ==> CanServe(p, Lookup(alts, p.name).value, sized)
  }

  /** There is a fallback exactly where every parameter the twin has too can be got to it. */
  lemma ServedExactly(ps: seq<Formal>, alts: seq<Formal>, exts: seq<Option<Extent>>, aint: nat)
    requires |exts| == |ps|
    ensures Fallback(ps, alts, exts, aint).Some? <==>
            forall i :: 0 <= i < |ps| ==> Served(ps[i], alts, exts[i].Some?)
  {
    FallbackAt(ps, alts, exts, aint);
    forall i | 0 <= i < |ps|
      ensures FallbackClass(ps[i], alts, exts[i], aint).Some? <==> Served(ps[i], alts, exts[i].Some?)
    {
    }
  }

  // ---------------------------------------------------------------- when the fallback refuses

  /** Every value the body has to narrow survives. */
  predicate FitsAt(t: Site, i: nat)
    requires i < |t.g.params| == |t.args|
  {
    var c := t.g.params[i];
    ((c.Narrow? || c.NarrowInout?) && t.args[i].I? ==> Fits(t.args[i].i, c.bytes)) && !Misfit(t, i)
  }

  predicate EverythingFits(t: Site)
    requires |t.g.params| == |t.args|
  {
    forall i :: 0 <= i < |t.g.params| ==> FitsAt(t, i)
  }

  /** Nothing but a value that does not fit stands in the way: lengths are possible, queries answer, memory is there. */
  predicate OtherwiseFine(t: Site)
    requires |t.g.params| == |t.args|
  {
    && (forall i :: 0 <= i < |t.g.params| ==> LengthFine(t, i))
    && ProbeRefusal(t, 0) == [] && !OutOfMemory(t)
  }

  predicate LengthFine(t: Site, i: nat)
    requires i < |t.g.params|
  {
    var c := t.g.params[i];
    Staged(c) && c.ext.alloc.OfParam? ==>
      LenOf(t, c.ext.alloc) >= 0 && (c.ext.wide ==> LenOf(t, c.ext.alloc) <= t.w.sizeMax / c.ext.size)
  }

  lemma {:induction false} ChecksFit(t: Site, i: nat)
    requires i <= |t.g.params| == |t.args| && forall k :: i <= k < |t.g.params| ==> LengthFine(t, k)
    ensures CheckRefusal(t, i) == [] || CheckRefusal(t, i) == [ERR_TOO_LARGE]
    ensures (forall k :: i <= k < |t.g.params| ==> FitsAt(t, k)) ==> CheckRefusal(t, i) == []
    ensures forall k :: i <= k < |t.g.params| && !FitsAt(t, k) && !Misfit(t, k) ==>
      CheckRefusal(t, i) == [ERR_TOO_LARGE]
    decreases |t.g.params| - i
  {
    if i < |t.g.params| {
      ChecksFit(t, i + 1);
      assert LengthFine(t, i);
      var c := t.g.params[i];
      assert OwnRefusal(t, i) == if (c.Narrow? || c.NarrowInout?) && t.args[i].I? && !Fits(t.args[i].i, c.bytes)
        then [ERR_TOO_LARGE] else [];
      assert FitsAt(t, i) ==> OwnRefusal(t, i) == [];
    }
  }

  /** The fallback refuses with VALUE_TOO_LARGE exactly when some value does not fit. */
  lemma RefusesIffTooLarge(t: Site)
    requires |t.g.params| == |t.args| && OtherwiseFine(t)
    ensures Refusal(t) == if EverythingFits(t) then [] else [ERR_TOO_LARGE]
  {
    ChecksFit(t, 0);
    if EverythingFits(t) {
      forall k | 0 <= k < |t.g.params| ensures !Misfit(t, k) { assert FitsAt(t, k); }
    } else {
      var k :| 0 <= k < |t.g.params| && !FitsAt(t, k);
      assert Misfit(t, k) ==> AnyMisfit(t);
    }
  }

  lemma TooLargeRefuses(t: Site)
    requires |t.g.params| == |t.args| && !EverythingFits(t)
    ensures Refusal(t) != [] && !BlockLeft(t).Live?
  {
    var k :| 0 <= k < |t.g.params| && !FitsAt(t, k);
    if CheckRefusal(t, 0) == [] { NoneRefuses(t, 0, k); }
    assert Misfit(t, k) ==> AnyMisfit(t);
  }

  /** And then the twin is never called, whatever else may be wrong with the call. */
  lemma TooLargeNeverCalls(t: Site)
    requires Called(t) && !Faults(t) && !EverythingFits(t)
    ensures CutWithin(t.g) && Perform(t).Ret? && Perform(t).s.calls == []
    ensures Perform(t).s.held == multiset{} && !Perform(t).s.block.Live?
  {
    WrapperMeaning(t);
    TooLargeRefuses(t);
  }

  // ---------------------------------------------------------------- the refinement

  /** The same call, served by the primary body and by the fallback; only what is called differs. */
  ghost predicate SameCall(t: Site, t': Site) {
    && t'.args == t.args && |t'.g.params| == |t.g.params| == |t.args|
    && t'.g.nullable == t.g.nullable && t'.handles == t.handles
    && t'.w == t.w.(impl := t'.w.impl, probeError := t'.w.probeError)
    && forall i :: 0 <= i < |t.g.params| ==> Serves(t.g.params[i], t'.g.params[i])
  }

  /** Parameters an implementation reads a value from. */
  predicate Carries(c: Class) {
    !(c.PassPtr? && c.zeroable) && !c.HandleOut? && !c.ScalarOut? && !c.StatusOut? && !c.StageOut? && !c.StageStatus?
    && !c.MapOut? && !Extra(c)
  }

  lemma SameConversions(w: World, w': World, fam: Family, a: seq<int>)
    requires w'.fromAbi == w.fromAbi && w'.toAbi == w.toAbi && w'.statusToAbi == w.statusToAbi
    ensures FromAll(w', fam, a) == FromAll(w, fam, a) && ToAll(w', fam, a) == ToAll(w, fam, a)
    ensures StatusAll(w', a) == StatusAll(w, a)
  {
  }

  lemma SameTemporary(t: Site, t': Site, i: nat)
    requires SameCall(t, t') && i < |t.args| && t'.g.params[i] == t.g.params[i]
    ensures Temporary(t', i) == Temporary(t, i)
  {
    var c, v := t.g.params[i], t.args[i];
    if Staged(c) {
      var n := Max(0, LenOf(t, c.ext.alloc));
      assert LenOf(t', c.ext.alloc) == LenOf(t, c.ext.alloc);
      if HoldsAtLeast(v, n) {
        SameConversions(t.w, t'.w, REQUEST, v.a[..n]);
        if c.StageIn? { SameConversions(t.w, t'.w, c.fam, v.a[..n]); }
      }
      assert Blank(t', i, n, c.StageStatus?) == Blank(t, i, n, c.StageStatus?);
      if c.StageIn? {
        assert seq(n, _ => t'.w.implNull(c.fam)) == seq(n, _ => t.w.implNull(c.fam));
      }
    }
  }

  /** The twin reads numerically the value the large-count form would have read. */
  lemma TwinReadsTheSame(t: Site, t': Site, i: nat)
    requires SameCall(t, t') && i < |t.args| && ArgOk(t, i) && ArgOk(t', i)
    requires Refusal(t') == [] && !Faults(t')
    requires Carries(t.g.params[i]) && Carries(t'.g.params[i])
    ensures t'.g.params[i].StageNarrow? && t.g.params[i].PassPtr? ==>
      var n := Natural(LenOf(t, t'.g.params[i].ext.alloc));
      n <= |Have(t.args[i])| && Image(t', i) == [A(Have(t.args[i])[..n])] && Image(t, i) == [t.args[i]]
    ensures !(t'.g.params[i].StageNarrow? && t.g.params[i].PassPtr?) ==> Image(t', i) == Image(t, i)
    ensures t'.g.params[i].Narrow? || t'.g.params[i].NarrowInout? ==> Fits(t'.args[i].i, t'.g.params[i].bytes)
  {
    assert Serves(t.g.params[i], t'.g.params[i]);
    if t'.g.params[i] == t.g.params[i] { SameTemporary(t, t', i); }
    NoneRefuses(t', 0, i);
    NothingUnread(t', i);
  }

  lemma NothingUnread(t: Site, i: nat)
    requires |t.g.params| == |t.args| && Refusal(t) == [] && !Faults(t) && i < |t.args|
    ensures !Misfit(t, i) && !Unread(t, i)
  {
    assert Misfit(t, i) ==> AnyMisfit(t);
    assert forall j :: 0 <= j < i ==> !Misfit(t, j);
  }

  /** Where the two implementations leave the same values, the caller finds the same. */
  predicate SameAnswers(t: Site, t': Site)
    requires |t.g.params| == |t.args| == |t'.g.params| == |t'.args|
  {
    && Answer(t').ierror == Answer(t).ierror
    && forall i | 0 <= i < |t.args| && !Extra(t'.g.params[i]) ::
         t.args[i] != Absent && !t'.g.params[i].StageNarrow? ==> OutOf(t', i) == OutOf(t, i)
  }

  /** The two bodies treat a failed call alike: one that stages past its return zeroes its integers where another passes
    * on what the implementation left. */
  predicate SameEnd(t: Site, t': Site)
    requires |t.g.params| == |t.args| == |t'.g.params| == |t'.args|
  {
    Answer(t).ierror == 0 || (Outlives(t.g) == Outlives(t'.g) && (Outlives(t.g) ==> OwnsOk(t.g) && OwnsOk(t'.g)))
  }

  /** The outs of the fallback are the outs of the primary form, exactly: widening loses nothing. */
  lemma WidenedOuts(t: Site, t': Site, i: nat)
    requires SameCall(t, t') && SameAnswers(t, t') && SameEnd(t, t') && i < |t.args| && ArgOk(t, i) && ArgOk(t', i)
    requires t'.g.params[i] != t.g.params[i] && !Extra(t'.g.params[i]) && !t'.g.params[i].StageNarrow?
    requires t.args[i] != Absent && (t'.g.params[i].ScalarOut? || t'.g.params[i].NarrowInout?) ==> OutOf(t', i).I?
    ensures After(t', i) == After(t, i)
  {
    assert Serves(t.g.params[i], t'.g.params[i]);
  }

  lemma SameBack(t: Site, t': Site, i: nat)
    requires SameCall(t, t') && SameAnswers(t, t') && i < |t.args|
    requires t'.g.params[i] == t.g.params[i] && Sized(t.g.params[i])
    requires ParamOk(t'.g, i) && ReportOk(t', i)
    ensures Back(t', t.g.params[i].ext) == Back(t, t.g.params[i].ext)
    ensures LenOf(t', t.g.params[i].ext.alloc) == LenOf(t, t.g.params[i].ext.alloc)
  {
    var e := t.g.params[i].ext;
    if e.reported { assert OutOf(t', e.via) == OutOf(t, e.via); }
  }

  lemma SameArrayOuts(t: Site, t': Site, i: nat)
    requires SameCall(t, t') && SameAnswers(t, t') && SameEnd(t, t') && i < |t.args| && ArgOk(t, i)
      && ParamOk(t'.g, i) && ReportOk(t', i)
    requires t'.g.params[i] == t.g.params[i] && Sized(t.g.params[i]) && t.args[i] != Absent
    ensures After(t', i) == After(t, i)
  {
    var c, out := t.g.params[i], OutOf(t, i);
    assert OutOf(t', i) == out || c.StageNarrow?;
    if c.StageInout? {
      SameConversions(t.w, t'.w, REQUEST, Elements(out, Max(0, LenOf(t, c.ext.alloc))));
    } else if c.StageOut? || c.MapOut? || c.StageStatus? {
      SameBack(t, t', i);
      SameConversions(t.w, t'.w, if c.StageStatus? then REQUEST else c.fam, Elements(out, Back(t, c.ext)));
    }
  }

  lemma TwinAnswersTheSame(t: Site, t': Site, i: nat)
    requires SameCall(t, t') && SameAnswers(t, t') && SameEnd(t, t') && i < |t.args| && ArgOk(t, i) && ArgOk(t', i)
    requires ParamOk(t'.g, i) && ReportOk(t', i)
    requires !Extra(t'.g.params[i]) && !t'.g.params[i].StageNarrow?
    requires t.args[i] != Absent && (t'.g.params[i].ScalarOut? || t'.g.params[i].NarrowInout?) ==> OutOf(t', i).I?
    ensures After(t', i) == After(t, i)
  {
    if t'.g.params[i] != t.g.params[i] {
      WidenedOuts(t, t', i);
    } else if Sized(t.g.params[i]) && t.args[i] != Absent {
      SameArrayOuts(t, t', i);
    } else {
      AfterScalar(t, t', i);
    }
  }

  lemma AfterScalar(t: Site, t': Site, i: nat)
    requires SameCall(t, t') && SameAnswers(t, t') && SameEnd(t, t') && i < |t.args| && ArgOk(t, i)
    requires t'.g.params[i] == t.g.params[i] && !Extra(t.g.params[i])
    requires !Sized(t.g.params[i]) || t.args[i] == Absent
    ensures After(t', i) == After(t, i)
  {
  }

  /** A parameter only the large form has is no handle. */
  predicate ExtrasPlain(t: Site, t': Site)
    requires |t.g.params| == |t'.g.params|
  {
    forall i :: 0 <= i < |t.g.params| && Extra(t'.g.params[i]) ==>
      Extra(t.g.params[i]) || t.g.params[i].PassPtr? || t.g.params[i] == In(IDENTITY)
  }

  lemma SameClashAt(t: Site, t': Site, i: nat)
    requires SameCall(t, t') && SameAnswers(t, t') && ExtrasPlain(t, t') && i < |t.args| && ArgOk(t, i)
    requires ParamOk(t'.g, i) && ReportOk(t', i)
    ensures ClashAt(t', i) <==> ClashAt(t, i)
    ensures HandleOutClass(t'.g.params[i], t.handles) <==> HandleOutClass(t.g.params[i], t.handles)
  {
    assert Serves(t.g.params[i], t'.g.params[i]);
    if t'.g.params[i] == t.g.params[i] && Sized(t.g.params[i]) && t.args[i] != Absent {
      SameBack(t, t', i);
    }
  }

  lemma SameClashes(t: Site, t': Site)
    requires SameCall(t, t') && SameAnswers(t, t') && ExtrasPlain(t, t') && Given(t) && Given(t')
    ensures AnyClash(t') <==> AnyClash(t)
    ensures HandleOuts(t'.g, t'.handles) <==> HandleOuts(t.g, t.handles)
  {
    forall i | 0 <= i < |t.args|
      ensures ClashAt(t', i) <==> ClashAt(t, i)
      ensures HandleOutClass(t'.g.params[i], t.handles) <==> HandleOutClass(t.g.params[i], t.handles)
    {
      assert ArgOk(t, i) && ParamOk(t'.g, i) && ReportOk(t', i);
      SameClashAt(t, t', i);
    }
  }

  predicate TableFull(t: Site)
    requires |t.g.params| == |t.args|
  {
    Outlives(t.g) && |t.w.table| > 0 && StillRead(t) && TableAnswer(t) == T.Full
  }

  lemma OwnsHandle(t: Site)
    requires Outlives(t.g)
    ensures HandleOuts(t.g, t.handles)
  {
    var i :| 0 <= i < |t.g.params| && t.g.params[i] == HandleOut(REQUEST);
    assert HandleOutClass(t.g.params[i], t.handles);
  }

  /** The two bodies answer the same code, unless the request table is full. */
  lemma SameCode(t: Site, t': Site)
    requires SameCall(t, t') && SameAnswers(t, t') && SameEnd(t, t') && !TableFull(t) && !TableFull(t')
    requires AnyClash(t') == AnyClash(t) && HandleOuts(t'.g, t'.handles) == HandleOuts(t.g, t.handles)
    requires t'.stale == t.stale && t.w.errorToAbi(0) == ABI_SUCCESS
    ensures Code(t') == Code(t)
  {
    if Outlives(t.g) { OwnsHandle(t); }
    if Outlives(t'.g) { OwnsHandle(t'); }
  }

  /** The native form and its twin leave the same, and neither finds the request table full. */
  predicate SameOutcome(t: Site, t': Site)
    requires |t.g.params| == |t.args| == |t'.g.params| == |t'.args|
  {
    SameAnswers(t, t') && SameEnd(t, t') && !TableFull(t) && !TableFull(t')
  }

  lemma RefinedAnswers(t: Site, t': Site, i: nat)
    requires Given(t) && Given(t') && SameCall(t, t') && ExtrasPlain(t, t') && SameOutcome(t, t') && i < |t.args|
    requires t'.stale == t.stale && t.w.errorToAbi(0) == ABI_SUCCESS
    ensures Code(t') == Code(t)
    ensures !Extra(t'.g.params[i]) && !t'.g.params[i].StageNarrow? ==> After(t', i) == After(t, i)
  {
    assert ArgOk(t, i) && ArgOk(t', i) && ParamOk(t'.g, i) && ReportOk(t', i);
    SameClashes(t, t');
    SameCode(t, t');
    if !Extra(t'.g.params[i]) && !t'.g.params[i].StageNarrow? {
      if Image(t', i) != [] { OutShape(t', i); }
      TwinAnswersTheSame(t, t', i);
    }
  }

  /** The fallback refines the native form.  Where some value does not fit, the twin is never called; where everything
    * fits and nothing else stands in the way, it is called once, and if it leaves what the native form would have left,
    * the caller gets the same code and finds the same behind every parameter the twin writes. */
  lemma FallbackRefines(t: Site, t': Site, i: nat)
    requires Called(t) && Called(t') && SameCall(t, t') && ExtrasPlain(t, t') && t'.stale == t.stale
    requires t.w.errorToAbi(0) == ABI_SUCCESS && !Faults(t) && !Faults(t') && Refusal(t) == [] && OtherwiseFine(t')
    requires i < |t.args|
    ensures CutWithin(t.g) && CutWithin(t'.g) && Perform(t).Ret? && Perform(t').Ret?
    ensures |Perform(t).s.slots| == |Perform(t').s.slots| == |t.args|
    ensures !EverythingFits(t') ==> Perform(t').code == ERR_TOO_LARGE && Perform(t').s.calls == []
    ensures EverythingFits(t') ==> Perform(t').s.calls == [Images(t', 0)] && Perform(t).s.calls == [Images(t, 0)]
    ensures EverythingFits(t') && SameOutcome(t, t') ==>
      && Perform(t').code == Perform(t).code
      && (!Extra(t'.g.params[i]) && !t'.g.params[i].StageNarrow? ==>
            Perform(t').s.slots[i].abi == Perform(t).s.slots[i].abi)
  {
    WrapperMeaning(t);
    WrapperMeaning(t');
    RefusesIffTooLarge(t');
    assert Leaves(t, Perform(t).s, i) && Leaves(t', Perform(t').s, i);
    if EverythingFits(t') && SameOutcome(t, t') { RefinedAnswers(t, t', i); }
  }

  /** What a parameter only the large form has reports: zero, and nothing behind the rest. */
  lemma LargeOnlyReportsZero(t: Site, i: nat)
    requires |t.g.params| == |t.args| && i < |t.args| && ArgOk(t, i) && Refusal(t) == []
    ensures t.g.params[i].LargeZero? && t.args[i] != Absent ==> After(t, i) == I(0)
    ensures t.g.params[i].LargeVoid? ==> After(t, i) == t.args[i]
    ensures Extra(t.g.params[i]) ==> Image(t, i) == []
  {
  }
}
