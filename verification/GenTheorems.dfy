/** The generator's obligations, for every signature it accepts, whichever assembler the body comes from.
  *
  * Each is about `Perform`, the execution of the emitted body from its entry on the caller's arguments.  First what
  * every call does; then the block of a body that stages past its return; then where a body does something else.
  */
module GenTheorems {
  import opened GenIR
  import opened GenEmit
  import opened GenSpec
  import opened GenRows
  import opened GenPre
  import opened GenStaging
  import opened GenMeaning
  import opened GenOwning
  import E = GenEmission
  import K = StagedKeys
  import T = StagedTable
  import Common

  function Meaning(w: World, nullable: bool): Step {
    (st, s) => Exec1(w, nullable, st, s)
  }

  /** A legal call of an emitted wrapper. */
  ghost predicate Called(t: Site) {
    Legal(t) && t.step == Meaning(t.w, t.g.nullable)
  }

  predicate CutWithin(g: Signature) {
    Cut(g, |g.params|) <= |g.params|
  }

  /** The emitted body, executed on the caller's arguments. */
  function Perform(t: Site): Flow
    requires CutWithin(t.g)
  {
    Exec(Meaning(t.w, t.g.nullable), Emit(t.g, t.w, t.handles), Go(Entry(t)))
  }

  /** Every emitted wrapper does what its parameter classes promise, whatever the implementation answers; and it faults
    * exactly where it reads an array the caller was free to leave out. */
  lemma WrapperMeaning(t: Site)
    requires Called(t)
    ensures CutWithin(t.g) && (Perform(t) == Stuck <==> Faults(t)) && (!Faults(t) ==> Does(t, Perform(t)))
  {
    CutBounded(t.g, t.handles, |t.g.params|);
    var f := SiteRun(t);
  }

  /** An out integer that an early exit has to define. */
  predicate IntegerOut(c: Class) {
    c == LargeZero || c == PassPtr(true) || (c.ScalarOut? && c.zeroable)
  }

  /** Decision 6 of section 7 of NOTES.md: an exit before the call leaves every out handle null and every out integer
    * zero, and changes nothing else of the caller's. */
  lemma EarlyExitDefinesOuts(t: Site, i: nat)
    requires Called(t) && !Faults(t) && i < |t.args|
    ensures CutWithin(t.g) && Perform(t).Ret? && |Perform(t).s.slots| == |t.args|
    ensures Perform(t).s.calls == [] ==>
      var v := Perform(t).s.slots[i].abi;
      if t.args[i].I? && t.g.params[i].HandleOut? then v == I(t.w.abiNull(t.g.params[i].fam))
      else if t.args[i].I? && IntegerOut(t.g.params[i]) then v == I(0)
      else v == t.args[i]
  {
    WrapperMeaning(t);
    assert Leaves(t, Perform(t).s, i);
  }

  /** Every exit releases every temporary of the call exactly once: none is held at the end, and releasing one that is
    * not held would have been a fault.  The implementation is called at most once, and not at all exactly where the
    * wrapper refuses. */
  lemma ExitsReleaseTemporaries(t: Site)
    requires Called(t) && !Faults(t)
    ensures CutWithin(t.g) && Perform(t).Ret? && Perform(t).s.held == multiset{}
    ensures |Perform(t).s.calls| <= 1
    ensures Perform(t).s.calls == [] <==> Refusal(t) != []
    ensures !Outlives(t.g) ==> Perform(t).s.block == Unasked && Perform(t).s.table == t.w.table
  {
    WrapperMeaning(t);
  }

  // ---------------------------------------------------------------- temporaries that outlive the call

  /** The heap has given the body a block. */
  predicate Granted(t: Site)
    requires |t.g.params| == |t.args|
  {
    CheckRefusal(t, 0) == [] && ProbeRefusal(t, 0) == [] && BlockAnswer(t).Live?
  }

  /** The operation is under way: the implementation has been called and has succeeded. */
  predicate UnderWay(t: Site)
    requires |t.g.params| == |t.args|
  {
    Refusal(t) == [] && Answer(t).ierror == 0
  }

  lemma NeededIsGranted(t: Site)
    requires |t.g.params| == |t.args| && Outlives(t.g) && UnderWay(t) && StillRead(t)
    ensures Granted(t)
  {
  }

  lemma BlockCases(t: Site)
    requires |t.g.params| == |t.args| && Outlives(t.g) && |t.w.table| > 0
    ensures var b, lost := BlockLeft(t), t.stale || AnyClash(t);
      && (b.Kept? <==> UnderWay(t) && !lost && StillRead(t) && TableAnswer(t) == T.Stored)
      && (b.Live? <==> Granted(t) && UnderWay(t) && (lost || (StillRead(t) && TableAnswer(t) != T.Stored)))
      && (b.Freed? <==> Granted(t) && (!UnderWay(t) || (!lost && !StillRead(t))))
    ensures BlockLeft(t).Kept? ==>
      && Code(t) == ABI_SUCCESS && TableLeft(t) == T.Attached(t.w.table, t.w.bits(Request(t)))
      && BlockLeft(t).slot == T.Taken(t.w.table, t.w.bits(Request(t)))
  {
    if UnderWay(t) && StillRead(t) { NeededIsGranted(t); }
  }

  /** Where the block is when the wrapper returns.  It belongs to the request table exactly where the operation may go
    * on reading it and the table has room; it is lost exactly where the operation is under way and either its handle
    * could not be reported -- a handle error left over on the thread is enough -- or the table would not take the
    * block; and otherwise a block that was granted has been freed, once. */
  lemma BlockAccounted(t: Site)
    requires Called(t) && !Faults(t) && Outlives(t.g)
    ensures CutWithin(t.g) && Perform(t).Ret?
    ensures var b, lost := Perform(t).s.block, t.stale || AnyClash(t);
      && (b.Kept? <==> UnderWay(t) && !lost && StillRead(t) && TableAnswer(t) == T.Stored)
      && (b.Live? <==> Granted(t) && UnderWay(t) && (lost || (StillRead(t) && TableAnswer(t) != T.Stored)))
      && (b.Freed? <==> Granted(t) && (!UnderWay(t) || (!lost && !StillRead(t))))
  {
    WrapperMeaning(t);
    BlockCases(t);
  }

  lemma HandedRequest(t: Site)
    requires Given(t) && Outlives(t.g) && UnderWay(t)
    ensures RequestOut(t.g, 0) < |t.args| && After(t, RequestOut(t.g, 0)) == I(To(t.w, REQUEST, Request(t)))
  {
    OneRequest(t);
  }

  /** A block that is kept is what a completion call finds under the request it was kept for, even where the table
    * already carried that request's value; and the caller holds that request. */
  lemma KeptIsFound(t: Site)
    requires Called(t) && !Faults(t) && Outlives(t.g)
    ensures CutWithin(t.g) && Perform(t).Ret? && RequestOut(t.g, 0) < |Perform(t).s.slots| == |t.args|
    ensures var s, key := Perform(t).s, t.w.bits(Request(t));
      s.block.Kept? ==>
        && |s.table| == |t.w.table| > 0
        && T.Found(s.table, K.Home(key, |s.table|), key) == Common.Some(s.block.slot)
        && s.slots[RequestOut(t.g, 0)].abi == I(To(t.w, REQUEST, Request(t)))
        && Perform(t).code == ABI_SUCCESS
  {
    WrapperMeaning(t);
    OneRequest(t);
    BlockCases(t);
    assert Leaves(t, Perform(t).s, RequestOut(t.g, 0));
    if Perform(t).s.block.Kept? {
      T.AttachThenRelease(t.w.table, t.w.bits(Request(t)));
      HandedRequest(t);
    }
  }

  lemma LendsOutlives(g: Signature)
    ensures E.Lends(g) <==> Outlives(g)
  {
  }

  /** The implementation has been called, and has succeeded. */
  predicate Succeeded(t: Site)
    requires |t.g.params| == |t.args| && CutWithin(t.g) && Perform(t).Ret?
  {
    Perform(t).s.calls != [] && Answer(t).ierror == 0
  }

  /** Array i, which the routine lends to the implementation, has elements. */
  predicate LendsElements(t: Site, i: nat) {
    && i < |t.args| == |t.g.params| && E.Lends(t.g) && (t.g.params[i].StageIn? || t.g.params[i].StageNarrow?)
    && LenOf(t, t.g.params[i].ext.alloc) > 0
  }

  /** What the implementation may still read is not freed: a request handed back incomplete leaves the block that holds
    * the array with the request table, or leaked, and the body does not release the array otherwise. */
  lemma LentArraySurvives(t: Site, i: nat)
    requires Called(t) && !Faults(t) && LendsElements(t, i)
    ensures CutWithin(t.g) && Perform(t).Ret? && Unstage(i) !in Emit(t.g, t.w, t.handles)
    ensures Succeeded(t) && !t.w.complete(Request(t)) ==> Perform(t).s.block.Kept? || Perform(t).s.block.Live?
  {
    LendsOutlives(t.g);
    BlockAccounted(t);
    ExitsReleaseTemporaries(t);
    CountedIn(t, i);
    E.LentIsNotReleased(t.g, t.w, t.handles, i);
    if Succeeded(t) && !t.w.complete(Request(t)) { NeededIsGranted(t); }
  }

  /** The block of a persistent operation, which is one that takes an MPI_Info, is never freed here once the operation
    * exists: an inactive request looks complete, and the first start still needs the arrays. */
  lemma PersistentNeverDropped(t: Site, i: nat)
    requires Called(t) && !Faults(t) && LendsElements(t, i) && In(INFO) in t.g.params
    ensures CutWithin(t.g) && Perform(t).Ret?
    ensures Succeeded(t) ==> Perform(t).s.block.Kept? || Perform(t).s.block.Live?
  {
    LendsOutlives(t.g);
    BlockAccounted(t);
    ExitsReleaseTemporaries(t);
    CountedIn(t, i);
    if Succeeded(t) { NeededIsGranted(t); }
  }

  /** And that of a nonblocking one is freed at once if the request comes back complete and could be reported. */
  lemma CompleteIsFreed(t: Site)
    requires Called(t) && !Faults(t) && E.Lends(t.g) && In(INFO) !in t.g.params && !t.stale && !AnyClash(t)
    ensures CutWithin(t.g) && Perform(t).Ret?
    ensures Succeeded(t) && t.w.complete(Request(t)) ==> Perform(t).s.block.Freed? || Perform(t).s.block.Null?
  {
    LendsOutlives(t.g);
    WrapperMeaning(t);
    ExitsReleaseTemporaries(t);
  }

  // ---------------------------------------------------------------- a handle the ABI cannot represent

  lemma ClashNeedsCheck(t: Site, i: nat)
    requires Given(t) && i < |t.args| && ClashAt(t, i) && !t.g.params[i].ScalarOut?
    ensures HandleOuts(t.g, t.handles)
  {
    var c := t.g.params[i];
    assert HandleOutClass(c, t.handles);
  }

  /** It is reported, whichever parameter it comes back through, one by one or in an array. */
  lemma ClashReported(t: Site, i: nat)
    requires Called(t) && !Faults(t) && i < |t.args| && ClashAt(t, i) && !t.g.params[i].ScalarOut?
    ensures CutWithin(t.g) && Perform(t).Ret?
    ensures Perform(t).s.calls != [] && (E.Lends(t.g) ==> Answer(t).ierror == 0) ==> Perform(t).code == ERR_INTERN
  {
    LendsOutlives(t.g);
    WrapperMeaning(t);
    ExitsReleaseTemporaries(t);
    ClashNeedsCheck(t, i);
  }

  /** Inside the block every array has its own stretch, as long as its extent. */
  lemma StretchesApart(t: Site, i: nat, j: nat)
    requires Called(t) && Outlives(t.g) && BlockAnswer(t).Live? && i < j < |t.args|
    requires Staged(t.g.params[i]) && Staged(t.g.params[j])
    ensures var l, top := BlockLayout(t), t.w.sizeMax;
      && Rank(t.g, i) < Rank(t.g, j) < |l.parts| && C.Room(top, l).Some?
      && l.parts[Rank(t.g, i)].n == LenOf(t, t.g.params[i].ext.alloc)
      && C.Start(top, l, Rank(t.g, i)) + C.Bytes(l.parts[Rank(t.g, i)].n, t.g.params[i].ext.size)
         <= C.Start(top, l, Rank(t.g, j))
      && C.Start(top, l, Rank(t.g, j)) + C.Bytes(l.parts[Rank(t.g, j)].n, t.g.params[j].ext.size)
         <= C.Room(top, l).value
  {
    LensAtRank(t.g, i, j);
    PartAt(t, i);
    PartAt(t, j);
    LiveNatural(t, i);
    NegativeIsHuge(t.w.sizeMax, LenOf(t, t.g.params[i].ext.alloc));
    LayoutSound(t);
    C.StretchesDisjoint(t.w.sizeMax, BlockLayout(t), Rank(t.g, i), Rank(t.g, j));
  }

  // ---------------------------------------------------------------- an array MPI_IN_PLACE makes ignored

  lemma {:induction false} NothingChecked(t: Site, i: nat)
    requires i <= |t.g.params| == |t.args| && forall k :: i <= k < |t.args| ==> OwnRefusal(t, k) == []
    ensures CheckRefusal(t, i) == []
    decreases |t.args| - i
  {
    if i < |t.args| { NothingChecked(t, i + 1); }
  }

  predicate Answered1(t: Site, i: nat)
    requires i < |t.g.params|
  {
    Sized(t.g.params[i]) && t.g.params[i].ext.alloc.OfProbe? ==> t.w.probeError(t.g.params[i].ext.alloc.id) == 0
  }

  lemma {:induction false} NothingProbed(t: Site, i: nat)
    requires i <= |t.g.params| && forall k :: i <= k < |t.g.params| ==> Answered1(t, k)
    ensures ProbeRefusal(t, i) == []
    decreases |t.g.params| - i
  {
    if i < |t.g.params| {
      assert Answered1(t, i);
      NothingProbed(t, i + 1);
    }
  }

  /** The fallback of MPI_Alltoallv_c: the send counts and displacements are narrowed, and ignored where the send buffer
    * is MPI_IN_PLACE. */
  function AlltoallvFallback(): Signature {
    var e := Extent(OfProbe(0), false, 4, false, 0);
    Signature([Buffer(3, false), StageNarrow(4, e, true, 0), StageNarrow(4, e, true, 0), In(4),
               Buffer(5, false), StageNarrow(4, e, false, 0), StageNarrow(4, e, false, 0), In(4), In(6)], false)
  }

  /** A call of it that is in place, and passes no send counts, as the standard allows. */
  predicate InPlaceCall(t: Site) {
    t.g == AlltoallvFallback() && |t.args| == 9 && t.args[0] == I(t.w.inPlace) && t.args[1] == Absent
    && t.w.probeError(0) == 0 && t.w.probeLen(0) <= t.w.sizeMax / 4 && forall i :: 0 <= i < 9 ==> !t.w.allocFails(i)
  }

  lemma InPlaceConditions(t: Site)
    requires InPlaceCall(t)
    ensures CheckRefusal(t, 0) == [] && ProbeRefusal(t, 0) == [] && !OutOfMemory(t)
    ensures !Misfit(t, 0) && !Misfit(t, 1) && (Unread(t, 1) <==> t.w.probeLen(0) > 0)
  {
    forall k | 0 <= k < 9 ensures OwnRefusal(t, k) == [] && Answered1(t, k) && !Fails(t, k) {
    }
    NothingChecked(t, 0);
    NothingProbed(t, 0);
    assert !Outlives(t.g) by { assert forall k :: 0 <= k < 9 ==> t.g.params[k] != HandleOut(REQUEST); }
  }

  lemma InPlaceFaults(t: Site)
    requires InPlaceCall(t) && t.w.probeLen(0) > 0
    ensures Faults(t) && Ignored(t, 1)
  {
    InPlaceConditions(t);
    assert Unread(t, 1) && forall j :: 0 <= j < 1 ==> !Misfit(t, j);
  }

  /** Every such call, on a communicator of any size, faults: the conversion loop reads the missing send counts. */
  lemma InPlaceCallFaults(t: Site)
    requires Called(t) && InPlaceCall(t) && t.w.probeLen(0) > 0
    ensures Ignored(t, 1) && CutWithin(t.g) && Perform(t) == Stuck
  {
    InPlaceFaults(t);
    WrapperMeaning(t);
  }

  lemma UnreadIsIgnored(t: Site, i: nat)
    requires i < |t.g.params| == |t.args| && ArgOk(t, i) && Unread(t, i)
    ensures Ignored(t, i) && LenOf(t, t.g.params[i].ext.alloc) > |Have(t.args[i])|
  {
  }

  /** Only an ignored array can make a legal call fault; one that is converted rather than narrowed never does. */
  lemma OnlyIgnoredFaults(t: Site) returns (i: nat)
    requires Called(t) && Faults(t)
    ensures i < |t.args| == |t.g.params| && t.g.params[i].StageNarrow? && Ignored(t, i)
    ensures LenOf(t, t.g.params[i].ext.alloc) > |Have(t.args[i])|
  {
    i :| 0 <= i < |t.g.params| && Unread(t, i);
    assert ArgOk(t, i);
    UnreadIsIgnored(t, i);
  }

  lemma IgnoredImage(t: Site, i: nat)
    requires i < |t.args| == |t.g.params| && t.g.params[i].StageIn? && Ignored(t, i)
    ensures Image(t, i) == [A(seq(Natural(LenOf(t, t.g.params[i].ext.alloc)), _ => t.w.implNull(t.g.params[i].fam)))]
  {
    var c := t.g.params[i];
    assert Fill0(t, i, c.fam, Natural(LenOf(t, c.ext.alloc))) ==
      seq(Natural(LenOf(t, c.ext.alloc)), _ => t.w.implNull(c.fam));
  }

  /** The other conversion loop fills with null handles and reads nothing: whatever the caller passed, the
    * implementation sees those. */
  lemma FillSkipsIgnoredArray(t: Site, i: nat)
    requires Called(t) && !Faults(t) && Refusal(t) == [] && i < |t.args| && t.g.params[i].StageIn? && Ignored(t, i)
    ensures CutWithin(t.g) && Perform(t).Ret? && Perform(t).s.calls == [Images(t, 0)]
    ensures Image(t, i) == [A(seq(Natural(LenOf(t, t.g.params[i].ext.alloc)), _ => t.w.implNull(t.g.params[i].fam)))]
  {
    WrapperMeaning(t);
    IgnoredImage(t, i);
  }

  // ---------------------------------------------------------------- a negative length

  predicate SizedBy(t: Site, j: nat, l: nat)
    requires j < |t.g.params|
  {
    Staged(t.g.params[j]) && t.g.params[j].ext.alloc == OfParam(l)
  }

  /** The checks of array j see the value of its length: it is not narrowed later, and the check is not omitted as
    * done. */
  predicate Sees(t: Site, j: nat, l: nat)
    requires j < |t.g.params|
  {
    SizedBy(t, j, l) && !(l < |t.g.params| && t.g.params[l].Narrow? && j < l)
    && (t.g.params[j].ext.wide || forall k :: 0 <= k < j ==> !SizedBy(t, k, l))
  }

  lemma {:induction false} SeenSized(t: Site, j: nat, l: nat)
    requires j <= |t.g.params|
    ensures l in SeenBefore(t.g, j) <==> exists k :: 0 <= k < j && SizedBy(t, k, l)
  {
    if j > 0 {
      SeenSized(t, j - 1, l);
      assert l in SeenBefore(t.g, j) <==> l in SeenBefore(t.g, j - 1) || SizedBy(t, j - 1, l);
    }
  }

  lemma {:induction false} OnlyCount(t: Site, l: nat, i: nat)
    requires i <= |t.g.params| == |t.args| && LenOf(t, OfParam(l)) < 0
    requires forall j :: i <= j < |t.args| ==> OwnRefusal(t, j) == if Sees(t, j, l) then [ERR_COUNT] else []
    ensures CheckRefusal(t, i) == if exists j :: i <= j < |t.args| && Sees(t, j, l) then [ERR_COUNT] else []
    decreases |t.args| - i
  {
    if i < |t.args| { OnlyCount(t, l, i + 1); }
  }

  lemma NegativeFails(t: Site, i: nat)
    requires Given(t) && i < |t.args| && Staged(t.g.params[i]) && !Skipped(t, i)
      && LenOf(t, t.g.params[i].ext.alloc) < 0
    ensures OutOfMemory(t)
  {
    if Outlives(t.g) {
      if BlockAnswer(t).Live? { LiveNatural(t, i); }
      CountedIn(t, i);
      NegativeIsHuge(t.w.sizeMax, LenOf(t, t.g.params[i].ext.alloc));
    } else {
      assert Fails(t, i);
    }
  }

  /** A negative length, and nothing else wrong: the answer is ERR_COUNT exactly where some check sees the length, and
    * ERR_INTERN, from the allocation, exactly where every array it sizes comes before the parameter that narrows it --
    * or comes after with its check left out as already done. */
  lemma NegativeLength(t: Site, l: nat, i: nat)
    requires Called(t) && i < |t.args| && SizedBy(t, i, l) && !Skipped(t, i) && LenOf(t, OfParam(l)) < 0
    requires ProbeRefusal(t, 0) == [] && forall j :: 0 <= j < |t.args| ==> OwnRefusal(t, j) == [] || SizedBy(t, j, l)
    ensures CutWithin(t.g) && Perform(t).Ret? && Perform(t).s.calls == []
    ensures Perform(t).code == if exists j :: 0 <= j < |t.args| && Sees(t, j, l) then ERR_COUNT else ERR_INTERN
  {
    forall j | 0 <= j < |t.args| ensures OwnRefusal(t, j) == if Sees(t, j, l) then [ERR_COUNT] else [] {
      SeenSized(t, j, l);
      assert SizedBy(t, j, l) ==> (BadLength(t, j) <==> Sees(t, j, l));
    }
    OnlyCount(t, l, 0);
    NegativeFails(t, i);
    WrapperMeaning(t);
  }

  // ---------------------------------------------------------------- after a call that failed

  lemma AfterFailure(t: Site, i: nat)
    requires i < |t.args| == |t.g.params| && ArgOk(t, i) && Answer(t).ierror != 0 && t.args[i] != Absent
    ensures var c, v := t.g.params[i], After(t, i);
      && (c.HandleOut? ==> v == I(t.w.abiNull(c.fam)))
      && (c.StageOut? ==> v == t.args[i])
      && (E.Lends(t.g) && IntegerOut(c) ==> v == I(0))
      && (c.ScalarOut? && !E.Lends(t.g) ==> v == I(To(t.w, c.fam, Whole(OutOf(t, i)))))
      && (c.PassPtr? && !(E.Lends(t.g) && c.zeroable) ==> v == OutOf(t, i))
  {
  }

  /** What the outs are worth after the implementation has failed: handles are null, arrays of answers are untouched,
    * and a body that stages past its return zeroes its integers; every other out passes on what the implementation
    * left, which is indeterminate where it wrote nothing. */
  lemma FailureOuts(t: Site, i: nat)
    requires Called(t) && !Faults(t) && Refusal(t) == [] && Answer(t).ierror != 0 && i < |t.args| && t.args[i] != Absent
    ensures CutWithin(t.g) && Perform(t).Ret? && |Perform(t).s.slots| == |t.args|
    ensures var c, v := t.g.params[i], Perform(t).s.slots[i].abi;
      && (c.HandleOut? ==> v == I(t.w.abiNull(c.fam)))
      && (c.StageOut? ==> v == t.args[i])
      && (E.Lends(t.g) && IntegerOut(c) ==> v == I(0))
      && (c.ScalarOut? && !E.Lends(t.g) ==> v == I(To(t.w, c.fam, Whole(OutOf(t, i)))))
      && (c.PassPtr? && !(E.Lends(t.g) && c.zeroable) ==> v == OutOf(t, i))
  {
    WrapperMeaning(t);
    assert Leaves(t, Perform(t).s, i) && ArgOk(t, i);
    AfterFailure(t, i);
  }
}
