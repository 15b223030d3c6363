/** Bodies whose temporaries outlive them, and with those the meaning of every emitted body.
  *
  * The temporaries lie in one block.  Before the call every exit gives the block back; after it the block goes to the
  * request table, unless the operation has nothing left to read, or the handle could not be converted, and then it
  * leaks.  `OwningDoes` follows the body; `SiteRun` puts it beside the body that releases its temporaries itself.
  */
module GenOwning {
  import opened GenIR
  import opened GenEmit
  import opened GenSpec
  import opened GenRows
  import opened GenPre
  import opened GenStaging
  import opened GenFilling
  import opened GenCalling
  import opened GenReturning
  import opened GenMeaning
  import Powers
  import Common
  import C = Carving

  // ---------------------------------------------------------------- lengths and sizes, in order

  lemma {:induction false} LensHas(g: Signature, i: nat, k: nat) returns (j: nat)
    requires i <= |g.params| && k < Rank(g, i)
    ensures j < i && Staged(g.params[j]) && g.params[j].ext.alloc == Lens(g, i)[k]
      && g.params[j].ext.size == Sizes(g, i)[k]
  {
    if Staged(g.params[i - 1]) && k == Rank(g, i - 1) {
      j := i - 1;
    } else {
      j := LensHas(g, i - 1, k);
    }
  }

  lemma {:induction false} LensAtRank(g: Signature, i: nat, n: nat)
    requires i < n <= |g.params| && Staged(g.params[i])
    ensures Rank(g, i) < Rank(g, n)
    ensures Lens(g, n)[Rank(g, i)] == g.params[i].ext.alloc && Sizes(g, n)[Rank(g, i)] == g.params[i].ext.size
    decreases n
  {
    if i < n - 1 { LensAtRank(g, i, n - 1); }
  }

  lemma TermHas(g: Signature, l: Len) returns (j: nat)
    requires l in Terms(g) || l in Lens(g, |g.params|)
    ensures j < |g.params| && Staged(g.params[j]) && g.params[j].ext.alloc == l
  {
    var k :| 0 <= k < |Lens(g, |g.params|)| && Lens(g, |g.params|)[k] == l;
    j := LensHas(g, |g.params|, k);
  }

  // ---------------------------------------------------------------- the block is large enough

  lemma {:induction false} TotalBounds(top: C.Top, ns: seq<int>, k: nat)
    requires k < |ns|
    ensures SizeT(top, ns[k]) <= Total(top, ns)
    decreases |ns|
  {
    if k < |ns| - 1 { TotalBounds(top, ns[..|ns| - 1], k); }
  }

  lemma {:induction false} TotalIsSum(top: C.Top, ns: seq<int>, sizes: seq<Size>, k: nat)
    requires k <= |ns| == |sizes|
    ensures C.Sum(PartsOf(top, ns, sizes), k) == Total(top, ns[..k])
    decreases k
  {
    if k > 0 {
      TotalIsSum(top, ns, sizes, k - 1);
      assert ns[..k][..k - 1] == ns[..k - 1];
    }
  }

  lemma {:induction false} DistinctTotal(t: Site, lens: seq<Len>)
    ensures Total(t.w.sizeMax, LensAt(t, Distinct(lens))) <= Total(t.w.sizeMax, LensAt(t, lens))
    decreases |lens|
  {
    if lens != [] {
      var n := |lens| - 1;
      var d := Distinct(lens[..n]);
      DistinctTotal(t, lens[..n]);
      assert LensAt(t, lens)[..n] == LensAt(t, lens[..n]);
      assert LensAt(t, d + [lens[n]])[..|d|] == LensAt(t, d);
    }
  }

  lemma SmallMod(a: nat, m: nat)
    requires a <= m
    ensures a % (m + 1) == a
  {
  }

  /** A length counts towards `nstaged` as many elements as it has, and the count does not wrap around. */
  lemma CountedIn(t: Site, i: nat)
    requires InMemory(t) && i < |t.g.params| && Staged(t.g.params[i])
    ensures SizeT(t.w.sizeMax, LenOf(t, t.g.params[i].ext.alloc)) <= BlockLayout(t).nstaged
    ensures BlockLayout(t).nstaged == Total(t.w.sizeMax, LensAt(t, Terms(t.g)))
  {
    var k := InTerms(t.g, i);
    DistinctTotal(t, Lens(t.g, |t.g.params|));
    SmallMod(Total(t.w.sizeMax, LensAt(t, Terms(t.g))), t.w.sizeMax);
    TotalBounds(t.w.sizeMax, LensAt(t, Terms(t.g)), k);
  }

  lemma InTerms(g: Signature, i: nat) returns (k: nat)
    requires i < |g.params| && Staged(g.params[i])
    ensures k < |Terms(g)| && Terms(g)[k] == g.params[i].ext.alloc
  {
    LensAtRank(g, i, |g.params|);
    assert g.params[i].ext.alloc in Lens(g, |g.params|);
    k :| 0 <= k < |Terms(g)| && Terms(g)[k] == g.params[i].ext.alloc;
  }

  /** A negative length is a size_t in the upper half. */
  lemma NegativeIsHuge(top: C.Top, n: int)
    requires -(top / 2) - 1 <= n
    ensures if n < 0 then SizeT(top, n) > top / 2 else SizeT(top, n) == n
  {
    if n < 0 { SmallMod(n + top + 1, top); }
  }

  lemma PartAt(t: Site, i: nat)
    requires i < |t.g.params| && Staged(t.g.params[i])
    ensures Rank(t.g, i) < |BlockLayout(t).parts|
    ensures BlockLayout(t).parts[Rank(t.g, i)] ==
            C.Part(SizeT(t.w.sizeMax, LenOf(t, t.g.params[i].ext.alloc)), t.g.params[i].ext.size)
  {
    LensAtRank(t.g, i, |t.g.params|);
  }

  /** The size of each element in order. */
  lemma PartSize(t: Site, k: nat)
    requires k < Rank(t.g, |t.g.params|)
    ensures BlockLayout(t).parts[k].size == Sizes(t.g, |t.g.params|)[k]
  {
  }

  lemma SameSizes(g: Signature, k: nat)
    requires OwnsOk(g) && !Mixed(g) && k < Rank(g, |g.params|)
    ensures Sizes(g, |g.params|)[k] == Sizes(g, |g.params|)[0]
  {
    var i := LensHas(g, |g.params|, k);
    var j := LensHas(g, |g.params|, 0);
    assert OwnClass(g.params[i]) && OwnClass(g.params[j]);
    if i < j { assert SameUnit(g, i, j); } else if j < i { assert SameUnit(g, j, i); }
  }

  /** Arrays of one type end to end: the count is that of all of them, and their elements are of one size. */
  lemma LayoutSound(t: Site)
    requires InMemory(t) && OwnsOk(t.g)
    ensures C.Sound(BlockLayout(t))
  {
    var g, n := t.g, |t.g.params|;
    if !Mixed(g) {
      var ns := LensAt(t, Lens(g, n));
      TotalIsSum(t.w.sizeMax, ns, Sizes(g, n), |ns|);
      assert ns[..|ns|] == ns;
      SmallMod(Total(t.w.sizeMax, ns), t.w.sizeMax);
      forall k | 0 <= k < Rank(g, n) ensures BlockLayout(t).parts[k].size == C.Unit(BlockLayout(t)) {
        SameSizes(g, k);
        PartSize(t, k);
        PartSize(t, 0);
      }
    }
  }

  lemma Doubled(n: nat, size: Size, top: nat)
    requires n > top / 2
    ensures C.Bytes(n, size) > top && n > top / size
  {
    Powers.FitsByDivision(n, 2, top);
    Powers.Scales(2, size, n);
    Powers.FitsByDivision(n, size, top);
    assert n * 2 <= n * size by { assert n * size == size * n; }
  }

  /** No block holds an array of that many elements. */
  lemma TooLarge(top: C.Top, l: C.Layout, k: nat)
    requires C.Sound(l) && k < |l.parts| && l.parts[k].n > top / 2 && l.parts[k].size > 1 && l.nstaged >= l.parts[k].n
    ensures C.Room(top, l) == Common.None
  {
    Doubled(l.parts[k].n, l.parts[k].size, top);
    if l.mixed {
      if C.Offset(top, C.BytesOf(l.parts), |l.parts|) != top {
        C.OffsetsGrow(top, C.BytesOf(l.parts), k, |l.parts|);
        assert false;
      }
    }
  }

  /** No length is negative once there is a block: no heap has one that large. */
  lemma LiveNatural(t: Site, i: nat)
    requires InMemory(t) && OwnsOk(t.g) && BlockAnswer(t).Live? && i < |t.g.params| && Staged(t.g.params[i])
    ensures LenOf(t, t.g.params[i].ext.alloc) >= 0
  {
    CountedIn(t, i);
    NegativeIsHuge(t.w.sizeMax, LenOf(t, t.g.params[i].ext.alloc));
    PartAt(t, i);
    LayoutSound(t);
    if LenOf(t, t.g.params[i].ext.alloc) < 0 {
      TooLarge(t.w.sizeMax, BlockLayout(t), Rank(t.g, i));
    }
  }

  /** Past the allocation: no length is negative, and where there is no block there is nothing to put in it. */
  lemma NothingLost(t: Site, i: nat)
    requires InMemory(t) && OwnsOk(t.g) && (BlockAnswer(t).Null? ==> BlockLayout(t).nstaged == 0)
    requires i < |t.g.params| && Staged(t.g.params[i])
    ensures LenOf(t, t.g.params[i].ext.alloc) >= 0
    ensures BlockAnswer(t).Null? ==> LenOf(t, t.g.params[i].ext.alloc) == 0
  {
    if BlockAnswer(t).Live? {
      LiveNatural(t, i);
    } else {
      CountedIn(t, i);
      NegativeIsHuge(t.w.sizeMax, LenOf(t, t.g.params[i].ext.alloc));
    }
  }

  lemma OwnRoomy(t: Site)
    requires Given(t) && Outlives(t.g) && !OutOfMemory(t)
    ensures Roomy(t)
  {
    forall i | 0 <= i < |t.args| && Staged(t.g.params[i]) ensures LenOf(t, t.g.params[i].ext.alloc) >= 0 {
      NothingLost(t, i);
    }
  }

  // ---------------------------------------------------------------- allocating

  lemma LensKnown(t: Site, s: State, lens: seq<Len>)
    requires Given(t) && LensOk(t, s) && InStage(t, s, 3, 0, |t.args|)
    requires forall l :: l in lens ==> l in Terms(t.g) || l in Lens(t.g, |t.g.params|)
    ensures AllLens(s, lens) && LensNow(s, lens) == LensAt(t, lens)
  {
    forall k | 0 <= k < |lens| ensures LenVal(s, lens[k]) == I(LenOf(t, lens[k])) {
      assert lens[k] in lens;
      var j := TermHas(t.g, lens[k]);
      LengthNow(t, s, 3, 0, j);
    }
  }

  lemma AllocateRun(t: Site, s: State)
    requires Legal(t) && LensOk(t, s) && InStage(t, s, 3, 0, |t.args|) && s.block == Unasked
    ensures var n := |t.g.params|;
      Run(t, [Own(Allocate(Lens(t.g, n), Sizes(t.g, n), Terms(t.g), Mixed(t.g)))], Go(s)) ==
      Go(s.(block := BlockAnswer(t)))
  {
    var n := |t.g.params|;
    LensKnown(t, s, Lens(t.g, n));
    LensKnown(t, s, Terms(t.g));
    OneOwn(t, Allocate(Lens(t.g, n), Sizes(t.g, n), Terms(t.g), Mixed(t.g)), s);
  }

  lemma OneOwn(t: Site, b: BlockStmt, s: State)
    requires Means(t)
    ensures Run(t, [Own(b)], Go(s)) == ExecBlock(t.w, t.g.nullable, b, s)
  {
    One(t, Own(b), s);
    OwnIs(t.w, t.g.nullable, b, s);
  }

  lemma BlockAllocRun(t: Site, s: State) returns (f: Flow)
    requires Legal(t) && LensOk(t, s) && InStage(t, s, 3, 0, |t.args|) && s.block == Unasked
    ensures f == Run(t, BlockAlloc(t.g, t.w), Go(s))
    ensures var s1 := s.(block := BlockAnswer(t));
      if BlockAnswer(t).Null? && BlockLayout(t).nstaged > 0 then Refused(t, s1, f, ERR_INTERN) else f == Go(s1)
  {
    var n, s1 := |t.g.params|, s.(block := BlockAnswer(t));
    AllocateRun(t, s);
    Chain(t, BlockAlloc(t.g, t.w), [Own(Allocate(Lens(t.g, n), Sizes(t.g, n), Terms(t.g), Mixed(t.g)))],
          [Own(NotNullOr(OutDefined(t.g, t.w)))], s, Go(s1));
    OneOwn(t, NotNullOr(OutDefined(t.g, t.w)), s1);
    f := ExecBlock(t.w, t.g.nullable, NotNullOr(OutDefined(t.g, t.w)), s1);
    StageSlots(t, s, s1, 3, 0, |t.args|);
    StageUntouched(t, s1);
    Refuses(t, s1, ERR_INTERN);
  }

  // ---------------------------------------------------------------- carving

  lemma OwnRows(t: Site, i: nat)
    requires Given(t) && Outlives(t.g) && i < |t.args|
    ensures Row(t, 5, i) == Row(t, 3, i) && Row(t, 3, i).abi == t.args[i]
    ensures Staged(t.g.params[i]) ==> InMode(t.g.params[i])
    ensures Row(t, 6, i) == if Staged(t.g.params[i])
      then Row(t, 5, i).(x := A(Blank(t, i, Natural(LenOf(t, t.g.params[i].ext.alloc)), false))) else Row(t, 5, i)
  {
    assert OwnClass(t.g.params[i]);
  }

  lemma OwnStage(t: Site, s: State)
    requires Given(t) && Outlives(t.g) && InStage(t, s, 3, 0, |t.args|)
    ensures InStage(t, s, 5, 0, |t.args|)
  {
    forall i: nat {:trigger Is(t, s, 5, i)} | i < |t.args| ensures Is(t, s, 5, i) {
      assert Is(t, s, 3, i);
      OwnRows(t, i);
    }
  }

  lemma StretchLive(w: World, s: State, i: nat, k: nat)
    requires s.block.Live? && C.Sound(s.block.l) && C.Room(w.sizeMax, s.block.l).Some?
    requires k < |s.block.l.parts| && i < |s.slots|
    ensures Stretch(w, s, i, k) == Go(SetX(s, i, A(Junk(w, i, s.block.l.parts[k].n))))
  {
    C.StretchesDisjoint(w.sizeMax, s.block.l, k, k);
  }

  lemma StretchNull(w: World, s: State, i: nat, k: nat)
    requires s.block.Null? && k < |s.block.l.parts| && s.block.l.parts[k].n == 0 && i < |s.slots|
    ensures Stretch(w, s, i, k) == Go(SetX(s, i, A(Junk(w, i, 0))))
  {
    assert Junk(w, i, 0) == [];
  }

  /** Array i gets its stretch of the block, as long as it is. */
  lemma StretchFits(t: Site, s: State, i: nat)
    requires InMemory(t) && OwnsOk(t.g) && (BlockAnswer(t).Null? ==> BlockLayout(t).nstaged == 0)
    requires s.block == BlockAnswer(t) && i < |t.g.params| && i < |s.slots| && Staged(t.g.params[i])
    ensures LenOf(t, t.g.params[i].ext.alloc) >= 0
    ensures Stretch(t.w, s, i, Rank(t.g, i)) ==
            Go(SetX(s, i, A(Blank(t, i, LenOf(t, t.g.params[i].ext.alloc), false))))
  {
    var k, n := Rank(t.g, i), LenOf(t, t.g.params[i].ext.alloc);
    NothingLost(t, i);
    NegativeIsHuge(t.w.sizeMax, n);
    PartAt(t, i);
    LayoutSound(t);
    if s.block.Live? { StretchLive(t.w, s, i, k); } else { StretchNull(t.w, s, i, k); }
    assert Blank(t, i, n, false) == Junk(t.w, i, n);
  }

  lemma StretchRun(t: Site, s: State, i: nat)
    requires Legal(t) && Outlives(t.g) && !OutOfMemory(t) && s.block == BlockAnswer(t)
    requires i < |t.args| && i < |s.slots| && Staged(t.g.params[i])
    ensures LenOf(t, t.g.params[i].ext.alloc) >= 0
    ensures Run(t, [Own(CarveOut(i, Rank(t.g, i)))], Go(s)) ==
            Go(SetX(s, i, A(Blank(t, i, LenOf(t, t.g.params[i].ext.alloc), false))))
  {
    OneOwn(t, CarveOut(i, Rank(t.g, i)), s);
    StretchFits(t, s, i);
  }

  function CarveOf(g: Signature, i: nat): seq<Stmt>
    requires i < |g.params|
  {
    if Staged(g.params[i]) then [Own(CarveOut(i, Rank(g, i)))] else []
  }

  lemma CarveOne(t: Site, s: State, i: nat)
    requires Legal(t) && Outlives(t.g) && !OutOfMemory(t) && s.block == BlockAnswer(t) && Is(t, s, 5, i)
    ensures Run(t, CarveOf(t.g, i), Go(s)) == Go(s.(slots := s.slots[i := Row(t, 6, i)]))
  {
    OwnRows(t, i);
    if Staged(t.g.params[i]) {
      StretchRun(t, s, i);
    } else {
      assert s.slots[i := Row(t, 6, i)] == s.slots;
    }
  }

  lemma CarvesNext(t: Site, s: State, i: nat) returns (s': State)
    requires Legal(t) && Outlives(t.g) && !OutOfMemory(t) && s.block == BlockAnswer(t)
    requires Between(t, s, 5, i) && i < |s.slots|
    ensures Run(t, Carves(t.g, i), Go(s)) == Run(t, Carves(t.g, i + 1), Go(s'))
    ensures SlotsOnly(s, Go(s')) && Between(t, s', 5, i + 1)
  {
    NextBetween(t, s, 5, i);
    CarveOne(t, s, i);
    s' := s.(slots := s.slots[i := Row(t, 6, i)]);
    Chain(t, Carves(t.g, i), CarveOf(t.g, i), Carves(t.g, i + 1), s, Go(s'));
  }

  lemma {:induction false} CarvesAll(t: Site, s: State, i: nat) returns (f: Flow)
    requires Legal(t) && Outlives(t.g) && !OutOfMemory(t) && s.block == BlockAnswer(t)
    requires Between(t, s, 5, i) && i <= |s.slots|
    ensures f == Run(t, Carves(t.g, i), Go(s))
    ensures SlotsOnly(s, f) && Between(t, f.s, 5, |s.slots|)
    decreases |s.slots| - i
  {
    if i == |s.slots| {
      assert Carves(t.g, i) == [];
      f := Go(s);
    } else {
      var s' := CarvesNext(t, s, i);
      f := CarvesAll(t, s', i + 1);
    }
  }

  // ---------------------------------------------------------------- filling

  lemma OwnUntouched(t: Site, s: State, i: nat)
    requires Given(t) && Outlives(t.g) && Between(t, s, 6, i)
    ensures Untouched(t, s)
  {
    forall j: nat {:trigger Early(t, s, j)} | j < |s.slots| ensures Early(t, s, j) {
      if j < i { assert Is(t, s, 7, j); } else { assert Is(t, s, 6, j); }
    }
  }

  lemma FreesAndRefuses(t: Site, s: State, code: int)
    requires Given(t) && Untouched(t, s) && (s.block.Live? || s.block.Null?)
    ensures Refused(t, s.(block := Dropped(s.block)), FreeAndRefuse(s, t.g.nullable, OutDefined(t.g, t.w), code), code)
  {
    var s' := s.(block := Dropped(s.block));
    assert FreeBlock(s) == Go(s');
    forall j: nat {:trigger Early(t, s', j)} | j < |s'.slots| ensures Early(t, s', j) { assert Early(t, s, j); }
    Refuses(t, s', code);
  }

  lemma NarrowIntoRun(t: Site, s: State, i: nat, n: nat)
    requires Means(t) && Fillable(t, s, i, n) && t.g.params[i].StageNarrow?
    ensures var f := Run(t, BlockFill(t.g, t.w, i), Go(s));
      match Narrowed(t, i) {
        case Fault => f == Stuck
        case Fit(_) => f == Go(SetX(s, i, Temporary(t, i)))
        case Unfit => f == FreeAndRefuse(s, t.g.nullable, OutDefined(t.g, t.w), ERR_TOO_LARGE)
      }
  {
    OneOwn(t, NarrowInto(i, t.g.params[i].bytes, t.g.params[i].ext.alloc, OutDefined(t.g, t.w)), s);
  }

  /** One array filled from the caller's, inside the block. */
  lemma BlockFillOne(t: Site, s: State, i: nat)
    requires Legal(t) && Outlives(t.g) && Roomy(t) && LensOk(t, s) && Between(t, s, 6, i) && i < |s.slots|
    requires Filled(t.g.params[i]) && s.block == BlockAnswer(t)
    ensures var f := Run(t, BlockFill(t.g, t.w, i), Go(s));
      && (Unread(t, i) ==> f == Stuck)
      && (Misfit(t, i) ==> Refused(t, s.(block := Dropped(s.block)), f, ERR_TOO_LARGE))
      && (Fine(t, i) ==> f == Go(s.(slots := s.slots[i := Row(t, 7, i)])))
  {
    if t.g.params[i].StageNarrow? {
      CanFill(t, s, i);
      FillRows(t, i);
      assert Is(t, s, 6, i);
      NarrowIntoRun(t, s, i, LenOf(t, t.g.params[i].ext.alloc));
      if Misfit(t, i) {
        OwnUntouched(t, s, i);
        FreesAndRefuses(t, s, ERR_TOO_LARGE);
      }
    } else {
      FillOne(t, s, i);
    }
  }

  lemma BlockFillNothing(t: Site, s: State, i: nat)
    requires Legal(t) && Outlives(t.g) && Is(t, s, 6, i) && !Filled(t.g.params[i])
    ensures Run(t, BlockFill(t.g, t.w, i), Go(s)) == Go(s.(slots := s.slots[i := Row(t, 7, i)])) && Fine(t, i)
  {
    OwnRows(t, i);
    assert BlockFill(t.g, t.w, i) == [];
    assert Row(t, 7, i) == Row(t, 6, i);
    assert s.slots[i := Row(t, 7, i)] == s.slots;
  }

  ghost predicate BlockOutcome(t: Site, s: State, f: Flow, i: nat)
    requires |t.g.params| == |t.args|
  {
    if FaultFrom(t, i) then f == Stuck
    else if MisfitFrom(t, i) then Refused(t, s.(block := Dropped(s.block)), f, ERR_TOO_LARGE)
    else SlotsOnly(s, f) && Between(t, f.s, 6, |t.args|)
  }

  lemma BlockOutcomeStep(t: Site, s: State, s': State, f: Flow, i: nat)
    requires i < |t.g.params| == |t.args| && Fine(t, i)
    requires SlotsOnly(s, Go(s')) && BlockOutcome(t, s', f, i + 1)
    ensures BlockOutcome(t, s, f, i)
  {
    TroubleLater(t, i);
  }

  lemma BlockFillEnds(t: Site, s: State, i: nat) returns (f: Flow)
    requires Legal(t) && Outlives(t.g) && Roomy(t) && LensOk(t, s) && Between(t, s, 6, i) && i < |s.slots|
    requires s.block == BlockAnswer(t) && !Fine(t, i)
    ensures f == Run(t, BlockFills(t.g, t.w, i), Go(s)) && BlockOutcome(t, s, f, i)
  {
    BlockFillOne(t, s, i);
    TroubleLater(t, i);
    f := Run(t, BlockFill(t.g, t.w, i), Go(s));
    Chain(t, BlockFills(t.g, t.w, i), BlockFill(t.g, t.w, i), BlockFills(t.g, t.w, i + 1), s, f);
    ExecEnded(t.step, BlockFills(t.g, t.w, i + 1), f);
  }

  lemma BlockFillGoes(t: Site, s: State, i: nat) returns (s': State)
    requires Legal(t) && Outlives(t.g) && Roomy(t) && LensOk(t, s) && Between(t, s, 6, i) && i < |s.slots|
    requires s.block == BlockAnswer(t) && Fine(t, i)
    ensures Run(t, BlockFills(t.g, t.w, i), Go(s)) == Run(t, BlockFills(t.g, t.w, i + 1), Go(s'))
    ensures SlotsOnly(s, Go(s')) && Between(t, s', 6, i + 1) && LensOk(t, s')
  {
    NextBetween(t, s, 6, i);
    if Filled(t.g.params[i]) { BlockFillOne(t, s, i); } else { BlockFillNothing(t, s, i); }
    s' := s.(slots := s.slots[i := Row(t, 7, i)]);
    Chain(t, BlockFills(t.g, t.w, i), BlockFill(t.g, t.w, i), BlockFills(t.g, t.w, i + 1), s, Go(s'));
    SameLens(t, s, s');
  }

  lemma NothingToFill(t: Site, s: State)
    requires |t.g.params| == |t.args| == |s.slots| && Between(t, s, 6, |s.slots|)
    ensures Run(t, BlockFills(t.g, t.w, |s.slots|), Go(s)) == Go(s) && BlockOutcome(t, s, Go(s), |s.slots|)
  {
    assert BlockFills(t.g, t.w, |s.slots|) == [];
  }

  lemma {:induction false} BlockFillsAll(t: Site, s: State, i: nat) returns (f: Flow)
    requires Legal(t) && Outlives(t.g) && Roomy(t) && LensOk(t, s) && Between(t, s, 6, i) && i <= |s.slots|
    requires s.block == BlockAnswer(t)
    ensures f == Run(t, BlockFills(t.g, t.w, i), Go(s)) && BlockOutcome(t, s, f, i)
    decreases |s.slots| - i
  {
    if i == |s.slots| {
      f := Go(s);
      NothingToFill(t, s);
    } else if Fine(t, i) {
      var s' := BlockFillGoes(t, s, i);
      f := BlockFillsAll(t, s', i + 1);
      BlockOutcomeStep(t, s, s', f, i);
    } else {
      f := BlockFillEnds(t, s, i);
    }
  }

  // ---------------------------------------------------------------- after the call

  /** The request is the only handle the body produces. */
  lemma OneRequest(t: Site)
    requires Given(t) && Outlives(t.g)
    ensures var r := RequestOut(t.g, 0);
      && r < |t.args| && t.g.params[r] == HandleOut(REQUEST) && t.args[r].I?
      && forall i :: 0 <= i < |t.args| && i != r ==> !t.g.params[i].HandleOut?
  {
    assert t.g.params[0..] == t.g.params;
    assert ArgOk(t, RequestOut(t.g, 0));
  }

  lemma OwnClash(t: Site)
    requires Given(t) && Outlives(t.g)
    ensures AnyClash(t) <==> Answer(t).ierror == 0 && Clash(t.w, REQUEST, Request(t))
  {
    OneRequest(t);
    var r := RequestOut(t.g, 0);
    assert ClashAt(t, r) <==> Answer(t).ierror == 0 && Clash(t.w, REQUEST, Request(t));
    forall i | 0 <= i < |t.args| && i != r ensures !ClashAt(t, i) { assert OwnClass(t.g.params[i]); }
  }

  /** Around the call: what the caller's objects hold, and the request the implementation has left. */
  lemma OwnAnswered(t: Site, i: nat)
    requires Given(t) && Outlives(t.g) && i < |t.args|
    ensures t.g.params[i].PassPtr? && t.args[i] != Absent && t.g.params[i].zeroable ==> OutOf(t, i).I?
    ensures Row(t, 9, i).abi == if t.g.params[i].PassPtr? && t.args[i] != Absent then OutOf(t, i) else t.args[i]
    ensures t.g.params[i].HandleOut? ==> t.args[i].I? && OutOf(t, i).I? && Row(t, 9, i).x == OutOf(t, i)
  {
    assert ArgOk(t, i) && OwnClass(t.g.params[i]);
    if t.g.params[i].PassPtr? || t.g.params[i].HandleOut? { OutShape(t, i); }
  }

  lemma OwnAfter(t: Site, i: nat)
    requires Given(t) && Outlives(t.g) && i < |t.args|
    ensures Answer(t).ierror == 0 ==>
      After(t, i) == if t.g.params[i].HandleOut? then I(To(t.w, REQUEST, Whole(OutOf(t, i)))) else Row(t, 9, i).abi
    ensures Answer(t).ierror != 0 ==>
      After(t, i) == if Defaulted(t.g.params[i]) then Put(t, Row(t, 9, i), i).abi else Row(t, 9, i).abi
  {
    assert ArgOk(t, i) && OwnClass(t.g.params[i]);
    OwnAnswered(t, i);
  }

  ghost predicate Answered(t: Site, s: State) {
    && InStage(t, s, 9, 0, |t.args|) && s.block == BlockAnswer(t) && s.table == t.w.table
    && s.ierror == Answer(t).ierror && s.clashed == t.stale && s.held == multiset{}
    && s.calls == [Images(t, 0)] && s.released == []
  }

  lemma Answered9(t: Site, s: State)
    requires Given(t) && Outlives(t.g) && Answered(t, s)
    ensures Definable(t, s.slots)
    ensures forall i :: 0 <= i < |t.args| ==> s.slots[i] == Row(t, 9, i)
  {
    forall i | 0 <= i < |s.slots|
      ensures s.slots[i] == Row(t, 9, i) && (Defaulted(t.g.params[i]) ==> s.slots[i].abi.I? || s.slots[i].abi.Absent?)
      ensures Defaulted(t.g.params[i]) && s.slots[i].abi.Absent? ==> t.g.nullable
    {
      assert Is(t, s, 9, i) && ArgOk(t, i);
      OwnAnswered(t, i);
      assert OwnClass(t.g.params[i]);
    }
  }

  /** The call has failed: the block is given back, and every out parameter defined. */
  lemma FailureRun(t: Site, s: State) returns (f: Flow)
    requires Legal(t) && Outlives(t.g) && Answered(t, s) && s.ierror != 0
    ensures f == Run(t, [Own(SuccessOr(OutDefined(t.g, t.w)))], Go(s))
    ensures f.Ret? && f.code == t.w.errorToAbi(s.ierror)
    ensures f.s == s.(slots := f.s.slots, block := Dropped(s.block)) && |f.s.slots| == |t.args|
    ensures forall i :: 0 <= i < |t.args| ==> f.s.slots[i].abi == After(t, i)
  {
    OneOwn(t, SuccessOr(OutDefined(t.g, t.w)), s);
    Answered9(t, s);
    var s' := s.(block := Dropped(s.block));
    assert FreeBlock(s) == Go(s');
    DefineOuts(t, s');
    f := Refuse(s', t.g.nullable, OutDefined(t.g, t.w), t.w.errorToAbi(s.ierror));
    forall i | 0 <= i < |t.args| ensures f.s.slots[i].abi == After(t, i) { OwnAfter(t, i); }
  }

  /** The state once the caller has its request. */
  function Handed(t: Site, s: State): State
    requires RequestOut(t.g, 0) < |s.slots| && |t.args| == |t.g.params|
  {
    SetAbi(s.(clashed := s.clashed || Clash(t.w, REQUEST, Request(t))), RequestOut(t.g, 0),
      I(To(t.w, REQUEST, Request(t))))
  }

  lemma HandedLeaves(t: Site, s: State, i: nat)
    requires Given(t) && Outlives(t.g) && Answered(t, s) && s.ierror == 0 && i < |t.args|
    requires RequestOut(t.g, 0) < |s.slots| == |t.args|
    ensures Handed(t, s).slots[i].abi == After(t, i)
  {
    OneRequest(t);
    assert Is(t, s, 9, i);
    OwnAfter(t, i);
  }

  lemma HandRun(t: Site, s: State)
    requires Legal(t) && Outlives(t.g) && Answered(t, s) && s.ierror == 0
    ensures RequestOut(t.g, 0) < |s.slots| == |t.args|
    ensures Run(t, [Store(RequestOut(t.g, 0), REQUEST)], Go(s)) == Go(Handed(t, s))
    ensures Handed(t, s).slots[RequestOut(t.g, 0)].x == I(Request(t))
  {
    var r := RequestOut(t.g, 0);
    OneRequest(t);
    OwnAnswered(t, r);
    assert Is(t, s, 9, r);
    StoreRun(t, s, r, REQUEST);
  }

  lemma KeepLeaves(t: Site, s: State)
    requires |t.args| == |t.g.params| && |t.w.table| > 0 && Outlives(t.g)
    requires s.block == BlockAnswer(t) && s.table == t.w.table && Started(t)
    requires CheckRefusal(t, 0) == [] && ProbeRefusal(t, 0) == [] && !OutOfMemory(t) && !AnyMisfit(t)
    ensures var s' := s.(block := BlockLeft(t), table := TableLeft(t));
      KeepBlock(t.w, s, Request(t), Persistent(t.g)) == if Code(t) == ERR_INTERN then Ret(s', ERR_INTERN) else Go(s')
    ensures Code(t) == ERR_INTERN || Code(t) == ABI_SUCCESS
  {
  }

  /** What keeping leads to. */
  lemma KeepRun(t: Site, s: State)
    requires Means(t) && |t.args| == |t.g.params| && |t.w.table| > 0 && Outlives(t.g)
    requires RequestOut(t.g, 0) < |s.slots| && s.slots[RequestOut(t.g, 0)].x == I(Request(t))
    requires s.block == BlockAnswer(t) && s.table == t.w.table && Started(t)
    requires CheckRefusal(t, 0) == [] && ProbeRefusal(t, 0) == [] && !OutOfMemory(t) && !AnyMisfit(t)
    ensures Run(t, [Own(KeepOr(RequestOut(t.g, 0), Persistent(t.g)))] + [Own(Succeed)], Go(s)) ==
            Ret(s.(block := BlockLeft(t), table := TableLeft(t)), Code(t))
  {
    var keep, s' := KeepOr(RequestOut(t.g, 0), Persistent(t.g)), s.(block := BlockLeft(t), table := TableLeft(t));
    KeepLeaves(t, s);
    OneOwn(t, keep, s);
    var f := KeepBlock(t.w, s, Request(t), Persistent(t.g));
    Chain(t, [Own(keep)] + [Own(Succeed)], [Own(keep)], [Own(Succeed)], s, f);
    if Code(t) == ERR_INTERN {
      ExecEnded(t.step, [Own(Succeed)], f);
    } else {
      OneOwn(t, Succeed, s');
    }
  }

  /** The body ends: the code, the block, and everything else as the call has left it. */
  ghost predicate Ended(t: Site, s: State, f: Flow)
    requires |t.args| == |t.g.params|
  {
    && f.Ret? && f.code == Code(t) && f.s.block == BlockLeft(t) && f.s.table == TableLeft(t)
    && f.s.held == s.held && f.s.calls == s.calls && f.s.released == s.released && |f.s.slots| == |t.args|
    && forall i :: 0 <= i < |t.args| ==> f.s.slots[i].abi == After(t, i)
  }

  lemma HandlesRun(t: Site, s: State, rest: seq<Stmt>)
    requires Means(t)
    ensures Run(t, [Own(HandlesOr)] + rest, Go(s)) ==
            if s.clashed then Ret(s.(clashed := false), ERR_INTERN) else Run(t, rest, Go(s))
  {
    OneOwn(t, HandlesOr, s);
    var f := ExecBlock(t.w, t.g.nullable, HandlesOr, s);
    Chain(t, [Own(HandlesOr)] + rest, [Own(HandlesOr)], rest, s, f);
    if s.clashed { ExecEnded(t.step, rest, f); }
  }

  lemma SuccessRun(t: Site, s: State) returns (f: Flow)
    requires Legal(t) && Outlives(t.g) && Answered(t, s) && s.ierror == 0
    requires CheckRefusal(t, 0) == [] && ProbeRefusal(t, 0) == [] && !OutOfMemory(t) && !AnyMisfit(t)
    ensures var r := RequestOut(t.g, 0);
      f == Run(t, [Store(r, REQUEST)] + ([Own(HandlesOr)] + ([Own(KeepOr(r, Persistent(t.g)))] + [Own(Succeed)])),
        Go(s))
    ensures Ended(t, s, f)
  {
    var r := RequestOut(t.g, 0);
    var keep := [Own(KeepOr(r, Persistent(t.g)))] + [Own(Succeed)];
    HandRun(t, s);
    var s1 := Handed(t, s);
    Chain(t, [Store(r, REQUEST)] + ([Own(HandlesOr)] + keep), [Store(r, REQUEST)], [Own(HandlesOr)] + keep, s, Go(s1));
    HandlesRun(t, s1, keep);
    OwnClash(t);
    forall i | 0 <= i < |t.args| ensures s1.slots[i].abi == After(t, i) { HandedLeaves(t, s, i); }
    if s1.clashed {
      f := Ret(s1.(clashed := false), ERR_INTERN);
    } else {
      KeepRun(t, s1);
      f := Ret(s1.(block := BlockLeft(t), table := TableLeft(t)), Code(t));
    }
  }

  lemma BlockEndRun(t: Site, s: State) returns (f: Flow)
    requires Legal(t) && Outlives(t.g) && Answered(t, s)
    requires CheckRefusal(t, 0) == [] && ProbeRefusal(t, 0) == [] && !OutOfMemory(t) && !AnyMisfit(t)
    ensures f == Run(t, BlockEnd(t.g, t.w), Go(s)) && Ended(t, s, f)
  {
    var r, first := RequestOut(t.g, 0), [Own(SuccessOr(OutDefined(t.g, t.w)))];
    var rest := [Store(r, REQUEST)] + ([Own(HandlesOr)] + ([Own(KeepOr(r, Persistent(t.g)))] + [Own(Succeed)]));
    if s.ierror != 0 {
      f := FailureRun(t, s);
      Chain(t, BlockEnd(t.g, t.w), first, rest, s, f);
      ExecEnded(t.step, rest, f);
    } else {
      OneOwn(t, SuccessOr(OutDefined(t.g, t.w)), s);
      Chain(t, BlockEnd(t.g, t.w), first, rest, s, Go(s));
      f := SuccessRun(t, s);
    }
  }

  // ---------------------------------------------------------------- the whole

  /** The out locals and the call, whatever comes next. */
  lemma UpToAnswer(t: Site, s: State, next: seq<Stmt>) returns (s2: State)
    requires Legal(t) && LensOk(t, s) && InStage(t, s, 7, 0, |t.args|) && s.calls == []
    ensures Run(t, OutLocals(t.g, t.w, 0) + ([Call(Args(t.g, 0))] + next), Go(s)) == Run(t, next, Go(s2))
    ensures s2 == s.(slots := s2.slots, calls := [Images(t, 0)], ierror := Answer(t).ierror)
    ensures InStage(t, s2, 9, 0, |t.args|)
  {
    var call := [Call(Args(t.g, 0))];
    var f1 := OutLocalsAll(t, s, 0);
    Chain(t, OutLocals(t.g, t.w, 0) + (call + next), OutLocals(t.g, t.w, 0), call + next, s, f1);
    SameLens(t, s, f1.s);
    var f2 := CallRun(t, f1.s);
    Chain(t, call + next, call, next, f1.s, f2);
    s2 := f2.s;
  }

  lemma OwnCallRun(t: Site, s: State) returns (f: Flow)
    requires Legal(t) && Outlives(t.g) && LensOk(t, s) && InStage(t, s, 7, 0, |t.args|)
    requires s.block == BlockAnswer(t) && s.table == t.w.table && s.clashed == t.stale && s.held == multiset{}
    requires s.calls == [] && s.released == []
    requires CheckRefusal(t, 0) == [] && ProbeRefusal(t, 0) == [] && !OutOfMemory(t) && !AnyMisfit(t)
    ensures f == Run(t, OutLocals(t.g, t.w, 0) + ([Call(Args(t.g, 0))] + BlockEnd(t.g, t.w)), Go(s))
    ensures Ended(t, s.(calls := [Images(t, 0)]), f)
  {
    var s2 := UpToAnswer(t, s, BlockEnd(t.g, t.w));
    f := BlockEndRun(t, s2);
  }

  lemma OwnConditions(t: Site)
    requires |t.g.params| == |t.args| && CheckRefusal(t, 0) == [] && ProbeRefusal(t, 0) == []
    ensures Faults(t) <==> !OutOfMemory(t) && FaultFrom(t, 0)
    ensures AnyMisfit(t) <==> MisfitFrom(t, 0)
  {
  }

  lemma BlockRefusedDoes(t: Site, s: State, f: Flow, code: int)
    requires |t.g.params| == |t.args| && Outlives(t.g) && !Faults(t) && Refusal(t) == [code] && Refused(t, s, f, code)
    requires s.calls == [] && s.released == [] && s.held == multiset{} && s.table == t.w.table
      && s.block == BlockLeft(t)
    requires !BlockLeft(t).Kept?
    ensures Meets(t, f)
  {
    forall i: nat {:trigger Leaves(t, f.s, i)} | i < |t.args| ensures Leaves(t, f.s, i) { assert Owed(t, f.s, i); }
  }

  /** From the filled block, or the trouble in filling it, to the end. */
  lemma AfterFills(t: Site, s: State, f2: Flow) returns (f: Flow)
    requires Legal(t) && Outlives(t.g) && CheckRefusal(t, 0) == [] && ProbeRefusal(t, 0) == [] && !OutOfMemory(t)
    requires LensOk(t, s) && s.held == multiset{} && s.block == BlockAnswer(t) && BlockOutcome(t, s, f2, 0)
    requires s.table == t.w.table && s.calls == [] && s.released == [] && s.clashed == t.stale
    ensures f == Run(t, OutLocals(t.g, t.w, 0) + ([Call(Args(t.g, 0))] + BlockEnd(t.g, t.w)), f2) && Meets(t, f)
  {
    var call := OutLocals(t.g, t.w, 0) + ([Call(Args(t.g, 0))] + BlockEnd(t.g, t.w));
    OwnConditions(t);
    if FaultFrom(t, 0) {
      f := Stuck;
      ExecEnded(t.step, call, Stuck);
    } else if MisfitFrom(t, 0) {
      f := f2;
      ExecEnded(t.step, call, f2);
      BlockRefusedDoes(t, s.(block := Dropped(s.block)), f, ERR_TOO_LARGE);
    } else {
      SameLens(t, s, f2.s);
      f := OwnCallRun(t, f2.s);
      forall i: nat {:trigger Leaves(t, f.s, i)} | i < |t.args| ensures Leaves(t, f.s, i) { }
    }
  }

  /** From the allocated block to the end. */
  lemma FilledDoes(t: Site, s: State) returns (f: Flow)
    requires Legal(t) && Outlives(t.g) && CheckRefusal(t, 0) == [] && ProbeRefusal(t, 0) == [] && !OutOfMemory(t)
    requires LensOk(t, s) && InStage(t, s, 3, 0, |t.args|) && s.held == multiset{} && s.block == BlockAnswer(t)
    requires s.table == t.w.table && s.calls == [] && s.released == [] && s.clashed == t.stale
    ensures f == Run(t, Carves(t.g, 0) + (BlockFills(t.g, t.w, 0)
                        + (OutLocals(t.g, t.w, 0) + ([Call(Args(t.g, 0))] + BlockEnd(t.g, t.w)))), Go(s))
    ensures Meets(t, f)
  {
    var call := OutLocals(t.g, t.w, 0) + ([Call(Args(t.g, 0))] + BlockEnd(t.g, t.w));
    OwnRoomy(t);
    OwnStage(t, s);
    var f1 := CarvesAll(t, s, 0);
    Chain(t, Carves(t.g, 0) + (BlockFills(t.g, t.w, 0) + call), Carves(t.g, 0), BlockFills(t.g, t.w, 0) + call, s, f1);
    SameLens(t, s, f1.s);
    var f2 := BlockFillsAll(t, f1.s, 0);
    Chain(t, BlockFills(t.g, t.w, 0) + call, BlockFills(t.g, t.w, 0), call, f1.s, f2);
    f := AfterFills(t, f1.s, f2);
  }

  lemma OwningDoes(t: Site, s: State) returns (f: Flow)
    requires Legal(t) && Outlives(t.g) && CheckRefusal(t, 0) == [] && ProbeRefusal(t, 0) == []
    requires LensOk(t, s) && InStage(t, s, 3, 0, |t.args|) && s.held == multiset{} && s.block == Unasked
    requires s.table == t.w.table && s.calls == [] && s.released == [] && s.clashed == t.stale
    ensures f == Run(t, Owning(t.g, t.w), Go(s)) && Meets(t, f)
  {
    var rest := Carves(t.g, 0) + (BlockFills(t.g, t.w, 0)
                + (OutLocals(t.g, t.w, 0) + ([Call(Args(t.g, 0))] + BlockEnd(t.g, t.w))));
    var s1 := s.(block := BlockAnswer(t));
    var f1 := BlockAllocRun(t, s);
    Chain(t, Owning(t.g, t.w), BlockAlloc(t.g, t.w), rest, s, f1);
    if OutOfMemory(t) {
      f := f1;
      ExecEnded(t.step, rest, f1);
      BlockRefusedDoes(t, s1, f, ERR_INTERN);
    } else {
      SameLens(t, s, s1);
      StageSlots(t, s, s1, 3, 0, |t.args|);
      f := FilledDoes(t, s1);
    }
  }

  /** What `assemble` or `assemble_outliving` puts after the declarations. */
  function Assembled(t: Site): seq<Stmt> {
    if Outlives(t.g) then Owning(t.g, t.w) else Staging(t.g, t.w) + (Calling(t.g, t.w) + Ending(t.g, t.handles))
  }

  lemma AssembledDoes(t: Site, s: State) returns (f: Flow)
    requires Legal(t) && CheckRefusal(t, 0) == [] && ProbeRefusal(t, 0) == []
    requires LensOk(t, s) && InStage(t, s, 3, 0, |t.args|) && s.held == multiset{} && s.block == Unasked
    requires s.table == t.w.table && s.calls == [] && s.released == [] && s.clashed == t.stale
    ensures f == Run(t, Assembled(t), Go(s)) && Meets(t, f)
  {
    if Outlives(t.g) { f := OwningDoes(t, s); } else { f := StagedDoes(t, s); }
  }

  /** Either body, from entry to return. */
  lemma SiteRun(t: Site) returns (f: Flow)
    requires Legal(t) && Cut(t.g, |t.g.params|) <= |t.g.params|
    ensures f == Run(t, Emit(t.g, t.w, t.handles), Go(Entry(t))) && Meets(t, f)
  {
    EntryStage(t);
    var f1 := DeclarationsRun(t, Entry(t));
    Chain(t, Emit(t.g, t.w, t.handles), Declarations(t.g, t.w), Assembled(t), Entry(t), f1);
    if CheckRefusal(t, 0) != [] {
      f := f1;
      ExecEnded(t.step, Assembled(t), f1);
      RefusedDoes(t, f, CheckRefusal(t, 0)[0]);
    } else if ProbeRefusal(t, 0) != [] {
      f := f1;
      ExecEnded(t.step, Assembled(t), f1);
      RefusedDoes(t, f, ProbeRefusal(t, 0)[0]);
    } else {
      f := AssembledDoes(t, f1.s);
    }
  }
}
