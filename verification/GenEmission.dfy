/** Emission as the generator does it: one pass over the parameters, each appending to the list of each group of lines
  * (dev/generate.py:1861-2696).
  *
  * Each loop builds several lists at once; an invariant says that what has been appended so far, followed by what the
  * remaining parameters contribute, is the whole group.  `EmitBody` puts the groups together, for either assembler.
  */
module GenEmission {
  import opened GenIR
  import opened GenEmit

  /** `emit_body`'s one pass over the parameters: each parameter appends to the list of each group of lines. */
  method EmitCall(g: Signature, w: World) returns (args: seq<Arg>, outs: seq<Stmt>, post: seq<Stmt>)
    ensures args == Args(g, 0) && outs == OutLocals(g, w, 0) && post == Posts(g, 0)
  {
    args, outs, post := [], [], [];
    var i := 0;
    while i < |g.params|
      invariant i <= |g.params|
      invariant args + Args(g, i) == Args(g, 0)
      invariant outs + OutLocals(g, w, i) == OutLocals(g, w, 0)
      invariant post + Posts(g, i) == Posts(g, 0)
    {
      Regroup(args, ArgOf(g, i), Args(g, i + 1));
      Regroup(outs, OutLocal(g, w, i), OutLocals(g, w, i + 1));
      Regroup(post, Post(g, i), Posts(g, i + 1));
      args, outs, post := args + ArgOf(g, i), outs + OutLocal(g, w, i), post + Post(g, i);
      i := i + 1;
    }
  }

  method EmitChecks(g: Signature, w: World) returns (rows: seq<Stmt>, checks: seq<Stmt>, probes: seq<Stmt>)
    ensures rows == AllRows(g, 0, |g.params|)
    ensures checks == Checks(g, w, 0, {})
    ensures probes == Probes(g, w, 0, {})
  {
    rows, checks, probes := [], [], [];
    var checkedLengths, asked: set<nat> := {}, {};
    var i := 0;
    while i < |g.params|
      invariant i <= |g.params|
      invariant rows + AllRows(g, i, |g.params|) == AllRows(g, 0, |g.params|)
      invariant checks + Checks(g, w, i, checkedLengths) == Checks(g, w, 0, {})
      invariant probes + Probes(g, w, i, asked) == Probes(g, w, 0, {})
    {
      Regroup(rows, Rows(g, i), AllRows(g, i + 1, |g.params|));
      Regroup(checks, Check(g, w, i, checkedLengths), Checks(g, w, i + 1, Seen(g, i, checkedLengths)));
      rows := rows + Rows(g, i);
      checks := checks + Check(g, w, i, checkedLengths);
      checkedLengths := Seen(g, i, checkedLengths);
      if Sized(g.params[i]) && g.params[i].ext.alloc.OfProbe? && g.params[i].ext.alloc.id !in asked {
        var id := g.params[i].ext.alloc.id;
        Regroup(probes, [ProbeOr(id, OutDefined(g, w))], Probes(g, w, i + 1, asked + {id}));
        probes := probes + [ProbeOr(id, OutDefined(g, w))];
        asked := asked + {id};
      }
      i := i + 1;
    }
  }

  /** `assemble`'s passes over the staged arrays. */
  method StagedGroups(g: Signature, w: World) returns (temps: seq<Stmt>, allocs: seq<Stmt>, fills: seq<Stmt>,
                                                        copies: seq<Stmt>, unstages: seq<Stmt>)
    ensures temps == NullTemps(g, 0) && allocs == Allocs(g, 0) && fills == Fills(g, w, 0)
    ensures copies == CopyBacks(g, 0) && unstages == Unstages(g, 0)
  {
    temps, allocs, fills, copies, unstages := [], [], [], [], [];
    var i := 0;
    while i < |g.params|
      invariant i <= |g.params|
      invariant temps + NullTemps(g, i) == NullTemps(g, 0)
      invariant allocs + Allocs(g, i) == Allocs(g, 0)
      invariant fills + Fills(g, w, i) == Fills(g, w, 0)
      invariant copies + CopyBacks(g, i) == CopyBacks(g, 0)
      invariant unstages + Unstages(g, i) == Unstages(g, 0)
    {
      var temp := if Staged(g.params[i]) then [NullTemp(i)] else [];
      var unstage := if Staged(g.params[i]) then [Unstage(i)] else [];
      Regroup(temps, temp, NullTemps(g, i + 1));
      Regroup(allocs, AllocOf(g, i), Allocs(g, i + 1));
      Regroup(fills, FillOf(g, w, i), Fills(g, w, i + 1));
      Regroup(copies, CopyBack(g, i), CopyBacks(g, i + 1));
      Regroup(unstages, unstage, Unstages(g, i + 1));
      temps, allocs, fills := temps + temp, allocs + AllocOf(g, i), fills + FillOf(g, w, i);
      copies, unstages := copies + CopyBack(g, i), unstages + unstage;
      i := i + 1;
    }
  }

  /** The prefix lists are built like any others, from the front. */
  lemma PrefixSteps(g: Signature, i: nat)
    requires i < |g.params|
    ensures Rank(g, i + 1) == Rank(g, i) + if Staged(g.params[i]) then 1 else 0
    ensures Lens(g, i + 1) == Lens(g, i) + if Staged(g.params[i]) then [g.params[i].ext.alloc] else []
    ensures Sizes(g, i + 1) == Sizes(g, i) + if Staged(g.params[i]) then [g.params[i].ext.size] else []
  {
  }

  lemma DistinctStep(lens: seq<Len>, l: Len)
    ensures Distinct(lens + [l]) == if l in lens then Distinct(lens) else Distinct(lens) + [l]
  {
    assert (lens + [l])[..|lens|] == lens;
  }

  /** What `assemble_outliving` allocates for: the lengths added up -- each once, where elements of several types share
    * the block. */
  method BlockSize(g: Signature) returns (alloc: BlockStmt)
    ensures alloc == Allocate(Lens(g, |g.params|), Sizes(g, |g.params|), Terms(g), Mixed(g))
  {
    var lens: seq<Len>, sizes: seq<Size>, once: seq<Len> := [], [], [];
    var i := 0;
    while i < |g.params|
      invariant i <= |g.params| && lens == Lens(g, i) && sizes == Sizes(g, i) && once == Distinct(lens)
    {
      PrefixSteps(g, i);
      if Staged(g.params[i]) {
        var l := g.params[i].ext.alloc;
        DistinctStep(lens, l);
        if l !in lens { once := once + [l]; }
        lens, sizes := lens + [l], sizes + [g.params[i].ext.size];
      }
      i := i + 1;
    }
    alloc := Allocate(lens, sizes, if Mixed(g) then once else lens, Mixed(g));
  }

  /** Each array's place in the block, and what fills it. */
  method BlockGroups(g: Signature, w: World) returns (carves: seq<Stmt>, fills: seq<Stmt>)
    ensures carves == Carves(g, 0) && fills == BlockFills(g, w, 0)
  {
    var rank: nat := 0;
    carves, fills := [], [];
    var i := 0;
    while i < |g.params|
      invariant i <= |g.params| && rank == Rank(g, i)
      invariant carves + Carves(g, i) == Carves(g, 0)
      invariant fills + BlockFills(g, w, i) == BlockFills(g, w, 0)
    {
      PrefixSteps(g, i);
      var carve := if Staged(g.params[i]) then [Own(CarveOut(i, rank))] else [];
      Regroup(carves, carve, Carves(g, i + 1));
      Regroup(fills, BlockFill(g, w, i), BlockFills(g, w, i + 1));
      carves, fills := carves + carve, fills + BlockFill(g, w, i);
      if Staged(g.params[i]) { rank := rank + 1; }
      i := i + 1;
    }
  }

  lemma RequestLater(g: Signature, i: nat)
    requires i < |g.params| && g.params[i] != HandleOut(REQUEST)
    ensures RequestOut(g, i) == RequestOut(g, i + 1)
  {
  }

  method FindRequest(g: Signature) returns (r: nat)
    ensures r == RequestOut(g, 0)
  {
    var i := 0;
    while i < |g.params|
      invariant i <= |g.params| && RequestOut(g, 0) == RequestOut(g, i)
    {
      if g.params[i] == HandleOut(REQUEST) { return i; }
      RequestLater(g, i);
      i := i + 1;
    }
    return 0;
  }

  /** `assemble_outliving`. */
  method AssembleOutliving(g: Signature, w: World, outs: seq<Stmt>, args: seq<Arg>) returns (body: seq<Stmt>)
    requires outs == OutLocals(g, w, 0) && args == Args(g, 0)
    ensures body == Owning(g, w)
  {
    var alloc := BlockSize(g);
    var carves, fills := BlockGroups(g, w);
    var r := FindRequest(g);
    var ending := [Own(SuccessOr(OutDefined(g, w)))] + ([Store(r, REQUEST)] + ([Own(HandlesOr)]
                  + ([Own(KeepOr(r, Persistent(g)))] + [Own(Succeed)])));
    return ([Own(alloc)] + [Own(NotNullOr(OutDefined(g, w)))]) + (carves + (fills + (outs + ([Call(args)] + ending))));
  }

  /** The lines of one body: the declarations, and then what one of the two assemblers joins. */
  method EmitBody(g: Signature, w: World, handles: set<Family>) returns (body: seq<Stmt>)
    requires Cut(g, |g.params|) <= |g.params|
    ensures body == Emit(g, w, handles)
  {
    var rows, checks, probes := EmitChecks(g, w);
    var args, outs, post := EmitCall(g, w);
    var cut := Cut(g, |g.params|);
    // The rows are one list, split after the last declaration some check is keyed on.
    var declarations := AllRows(g, 0, cut) + (checks + (AllRows(g, cut, |g.params|) + (Keeps(g, 0) + probes)));
    if Outlives(g) {
      var rest := AssembleOutliving(g, w, outs, args);
      return declarations + rest;
    }
    var temps, allocs, fills, copies, unstages := StagedGroups(g, w);
    var staging := if AnyStaged(g)
      then temps + ([InternByDefault] + (Defines(OutDefined(g, w)) + (allocs + fills))) else [];
    var calling :=
      outs + ([Call(args)] + (post + ((ArrayReleases(g, 0) + ScalarReleases(g, 0)) + (copies + Maps(g, 0)))));
    var exits := if AnyStaged(g) then [Done] + unstages else [];
    var ending := [SetResult] + ((if HandleOuts(g, handles) then [CheckHandles] else []) + (exits + [ReturnResult]));
    return declarations + (staging + (calling + ending));
  }

  lemma Regroup<T>(a: seq<T>, b: seq<T>, c: seq<T>)
    ensures a + (b + c) == (a + b) + c
  {
  }

  // ---------------------------------------------------------------- the argument list

  lemma {:induction false} NoAbiArg(g: Signature, i: nat)
    requires i <= |g.params|
    ensures forall a :: a in Args(g, i) ==> !a.AbiParam?
    decreases |g.params| - i
  {
    if i < |g.params| { NoAbiArg(g, i + 1); }
  }

  /** The routine hands over arrays that the implementation may go on reading after it has returned. */
  predicate Lends(g: Signature) {
    HandleOut(REQUEST) in g.params
    && exists i :: 0 <= i < |g.params| && (g.params[i].StageIn? || g.params[i].StageNarrow?)
  }

  /** A statement that is a call passes no parameter of the ABI's; a body that lends has no temporary of its own to
    * allocate or release, and no other has a block. */
  predicate Innocent(st: Stmt, lends: bool) {
    && (st.Call? ==> forall a :: a in st.args ==> !a.AbiParam?)
    && (lends ==> !st.Alloc? && !st.Unstage?) && (st.Own? ==> lends)
  }

  predicate AllInnocent(body: seq<Stmt>, lends: bool) {
    forall st :: st in body ==> Innocent(st, lends)
  }

  lemma {:induction false} InnocentRows(g: Signature, lo: nat, hi: nat, lends: bool)
    requires lo <= hi <= |g.params|
    ensures AllInnocent(AllRows(g, lo, hi), lends)
    decreases hi - lo
  {
    if lo < hi { InnocentRows(g, lo + 1, hi, lends); }
  }

  lemma {:induction false} InnocentChecks(g: Signature, w: World, i: nat, seen: set<nat>, asked: set<nat>, lends: bool)
    requires i <= |g.params|
    ensures AllInnocent(Checks(g, w, i, seen), lends) && AllInnocent(Probes(g, w, i, asked), lends)
    decreases |g.params| - i
  {
    if i < |g.params| {
      var c := g.params[i];
      InnocentChecks(g, w, i + 1, Seen(g, i, seen),
                     if Sized(c) && c.ext.alloc.OfProbe? && c.ext.alloc.id !in asked
                      then asked + {c.ext.alloc.id} else asked, lends);
    }
  }

  lemma Both(a: seq<Stmt>, b: seq<Stmt>, lends: bool)
    requires AllInnocent(a, lends) && AllInnocent(b, lends)
    ensures AllInnocent(a + b, lends)
  {
  }

  lemma {:induction false} InnocentTemps(g: Signature, i: nat, lends: bool)
    requires i <= |g.params|
    ensures AllInnocent(Keeps(g, i), lends) && AllInnocent(NullTemps(g, i), lends)
    ensures AllInnocent(Allocs(g, i), false) && AllInnocent(Unstages(g, i), false) && AllInnocent(Carves(g, i), true)
    decreases |g.params| - i
  {
    if i < |g.params| { InnocentTemps(g, i + 1, lends); }
  }

  lemma {:induction false} InnocentFills(g: Signature, w: World, i: nat, lends: bool)
    requires i <= |g.params|
    ensures AllInnocent(Fills(g, w, i), false) && AllInnocent(BlockFills(g, w, i), true)
    ensures AllInnocent(OutLocals(g, w, i), lends)
    decreases |g.params| - i
  {
    if i < |g.params| { InnocentFills(g, w, i + 1, lends); }
  }

  lemma {:induction false} InnocentPosts(g: Signature, i: nat)
    requires i <= |g.params|
    ensures AllInnocent(Posts(g, i), false) && AllInnocent(CopyBacks(g, i), false)
    decreases |g.params| - i
  {
    if i < |g.params| { InnocentPosts(g, i + 1); }
  }

  lemma {:induction false} InnocentReleases(g: Signature, i: nat)
    requires i <= |g.params|
    ensures AllInnocent(ArrayReleases(g, i), false) && AllInnocent(ScalarReleases(g, i), false)
    ensures AllInnocent(Maps(g, i), false)
    decreases |g.params| - i
  {
    if i < |g.params| { InnocentReleases(g, i + 1); }
  }

  lemma InnocentDeclarations(g: Signature, w: World, lends: bool)
    requires Cut(g, |g.params|) <= |g.params|
    ensures AllInnocent(Declarations(g, w), lends)
  {
    var n, m := |g.params|, Cut(g, |g.params|);
    InnocentRows(g, 0, m, lends);
    InnocentRows(g, m, n, lends);
    InnocentChecks(g, w, 0, {}, {}, lends);
    InnocentTemps(g, 0, lends);
    Both(Keeps(g, 0), Probes(g, w, 0, {}), lends);
    Both(AllRows(g, m, n), Keeps(g, 0) + Probes(g, w, 0, {}), lends);
    Both(Checks(g, w, 0, {}), AllRows(g, m, n) + (Keeps(g, 0) + Probes(g, w, 0, {})), lends);
    Both(AllRows(g, 0, m), Checks(g, w, 0, {}) + (AllRows(g, m, n) + (Keeps(g, 0) + Probes(g, w, 0, {}))), lends);
  }

  lemma InnocentStaging(g: Signature, w: World)
    ensures AllInnocent(Staging(g, w), false)
  {
    InnocentTemps(g, 0, false);
    InnocentFills(g, w, 0, false);
    var define, fill := Defines(OutDefined(g, w)), Allocs(g, 0) + Fills(g, w, 0);
    Both(Allocs(g, 0), Fills(g, w, 0), false);
    Both(define, fill, false);
    Both([InternByDefault], define + fill, false);
    Both(NullTemps(g, 0), [InternByDefault] + (define + fill), false);
  }

  lemma InnocentCalling(g: Signature, w: World)
    ensures AllInnocent(Calling(g, w), false)
  {
    InnocentFills(g, w, 0, false);
    InnocentPosts(g, 0);
    InnocentReleases(g, 0);
    NoAbiArg(g, 0);
    var call := [Call(Args(g, 0))];
    var release, copy := ArrayReleases(g, 0) + ScalarReleases(g, 0), CopyBacks(g, 0) + Maps(g, 0);
    Both(CopyBacks(g, 0), Maps(g, 0), false);
    Both(ArrayReleases(g, 0), ScalarReleases(g, 0), false);
    Both(release, copy, false);
    Both(Posts(g, 0), release + copy, false);
    Both(call, Posts(g, 0) + (release + copy), false);
    Both(OutLocals(g, w, 0), call + (Posts(g, 0) + (release + copy)), false);
  }

  lemma InnocentEnding(g: Signature, handles: set<Family>)
    ensures AllInnocent(Ending(g, handles), false)
  {
    var check := if HandleOuts(g, handles) then [CheckHandles] else [];
    var exits := if AnyStaged(g) then [Done] + Unstages(g, 0) else [];
    InnocentTemps(g, 0, false);
    Both([Done], Unstages(g, 0), false);
    Both(exits, [ReturnResult], false);
    Both(check, exits + [ReturnResult], false);
    Both([SetResult], check + (exits + [ReturnResult]), false);
  }

  lemma InnocentOwning(g: Signature, w: World)
    ensures AllInnocent(Owning(g, w), true)
  {
    InnocentTemps(g, 0, true);
    InnocentFills(g, w, 0, true);
    NoAbiArg(g, 0);
    var call := [Call(Args(g, 0))];
    assert AllInnocent(BlockEnd(g, w), true) && AllInnocent(BlockAlloc(g, w), true);
    Both(call, BlockEnd(g, w), true);
    Both(OutLocals(g, w, 0), call + BlockEnd(g, w), true);
    Both(BlockFills(g, w, 0), OutLocals(g, w, 0) + (call + BlockEnd(g, w)), true);
    Both(Carves(g, 0), BlockFills(g, w, 0) + (OutLocals(g, w, 0) + (call + BlockEnd(g, w))), true);
    Both(BlockAlloc(g, w), Carves(g, 0) + (BlockFills(g, w, 0) + (OutLocals(g, w, 0) + (call + BlockEnd(g, w)))), true);
  }

  /** In the whole of an emitted body no parameter of the ABI's is in the argument list of a call.  A routine that lends
    * its arrays gets a body without temporaries of its own, and every other one a body without a block. */
  lemma NoAbiArgument(g: Signature, w: World, handles: set<Family>)
    requires Cut(g, |g.params|) <= |g.params|
    ensures AllInnocent(Emit(g, w, handles), Lends(g))
  {
    InnocentDeclarations(g, w, Lends(g));
    if Lends(g) {
      InnocentOwning(g, w);
      Both(Declarations(g, w), Owning(g, w), true);
    } else {
      InnocentStaging(g, w);
      InnocentCalling(g, w);
      InnocentEnding(g, handles);
      Both(Calling(g, w), Ending(g, handles), false);
      Both(Staging(g, w), Calling(g, w) + Ending(g, handles), false);
      Both(Declarations(g, w), Staging(g, w) + (Calling(g, w) + Ending(g, handles)), false);
    }
  }

  lemma {:induction false} ReleasedOrCarved(g: Signature, lo: nat, i: nat)
    requires lo <= i < |g.params| && Staged(g.params[i])
    ensures Unstage(i) in Unstages(g, lo) && Own(CarveOut(i, Rank(g, i))) in Carves(g, lo)
    decreases i - lo
  {
    if lo < i { ReleasedOrCarved(g, lo + 1, i); }
  }

  /** The temporary of an array is released when the body returns exactly where the routine does not lend it, and carved
    * out of the block exactly where it does. */
  lemma LentIsNotReleased(g: Signature, w: World, handles: set<Family>, i: nat)
    requires Cut(g, |g.params|) <= |g.params| && i < |g.params| && Staged(g.params[i])
    ensures Unstage(i) in Emit(g, w, handles) <==> !Lends(g)
    ensures Own(CarveOut(i, Rank(g, i))) in Emit(g, w, handles) <==> Lends(g)
  {
    NoAbiArgument(g, w, handles);
    ReleasedOrCarved(g, 0, i);
    if Lends(g) {
      assert Own(CarveOut(i, Rank(g, i))) in Owning(g, w);
    } else {
      assert Unstage(i) in Ending(g, handles);
    }
  }
}
