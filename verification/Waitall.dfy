/** The hand-written `MPI_Waitall` (dev/s1-reference/wrappers.c:230-302), the staging it rests on
  * (src/mpiwrapper/staging.c:31-44), and its agreement with the body the generator emits.
  *
  * `Simulated` says what the call leaves.  The method is proved against it over the caller's two arrays, and the
  * execution of the generated body on the same arguments is shown to leave the same.
  */
module Waitall {
  import opened Powers
  import opened GenIR
  import opened GenEmit
  import opened GenSpec
  import opened GenMeaning
  import opened GenTheorems

  // ---------------------------------------------------------------- staging

  const SIZE_MAX: nat := 0xFFFF_FFFF_FFFF_FFFF

  /** Where a temporary lives: the stack buffer, a heap block of so many bytes, or nowhere. */
  datatype Room = Stack | Heap(bytes: nat) | Null

  /** mpiwrapper_stage: wherever it answers with room, the room holds the whole array, for every count; it never
    * answers null for an empty one, and no size it asks for has wrapped around. */
  method Stage(stackBytes: nat, n: nat, size: nat, granted: bool) returns (room: Room)
    requires size > 0 && n <= SIZE_MAX && size <= SIZE_MAX
    ensures room.Stack? ==> n * size <= stackBytes
    ensures room.Heap? ==> room.bytes == n * size <= SIZE_MAX
    ensures room.Null? <==> n * size > stackBytes && (n * size > SIZE_MAX || !granted)
  {
    if n == 0 {
      assert n * size == 0;
      return Stack;
    }
    FitsByDivision(n, size, stackBytes);
    FitsByDivision(n, size, SIZE_MAX);
    if n <= stackBytes / size { return Stack; }
    if n > SIZE_MAX / size { return Room.Null; }
    return if granted then Heap(n * size) else Room.Null;
  }

  // ---------------------------------------------------------------- the hand-written body

  /** What the call does to the caller: its answer, what the implementation saw, and the blocks released. */
  datatype Result = Result(code: int, seen: seq<seq<Val>>, released: seq<int>)

  /** The values the implementation is given. */
  function Seen(w: World, count: int, requests: seq<int>, wanted: bool): seq<Val>
    requires 0 <= count <= |requests|
  {
    [I(count), A(FromAll(w, REQUEST, requests[..count])), if wanted then A(seq(count, _ => 0)) else Absent]
  }

  predicate Usable(w: World, vals: seq<Val>, count: int, wanted: bool) {
    var r := w.impl(vals);
    |r.out| == 3 && r.out[1].A? && |r.out[1].a| == count && (wanted ==> r.out[2].A? && |r.out[2].a| == count)
  }

  const STAGE_BYTES: nat := 1024

  /** The sizes of the implementation's request and status, and whether the heap grants a block for each. */
  datatype Memory = Memory(request: Size, status: Size, requests: bool, statuses: bool)

  predicate HasRoom(n: int, size: Size, granted: bool) {
    n * size <= STAGE_BYTES || (n * size <= SIZE_MAX && granted)
  }

  predicate Staged2(m: Memory, count: int, wanted: bool) {
    HasRoom(count, m.request, m.requests) && (wanted ==> HasRoom(count, m.status, m.statuses))
  }

  /** What the call leaves: its answer, and the caller's two arrays.  Every request is converted in and, whatever the
    * call answered, converted out; ignored statuses are neither staged nor written; and a call that is not made leaves
    * both arrays alone. */
  function Simulated(w: World, m: Memory, count: int, requests: seq<int>, statuses: Val, stale: bool)
    : (Result, seq<int>, Val)
    requires count >= 0 ==> count <= |requests| && (statuses.A? ==> count <= |statuses.a|)
    requires count >= 0 ==> Usable(w, Seen(w, count, requests, statuses.A?), count, statuses.A?)
  {
    if count < 0 then (Result(ERR_COUNT, [], []), requests, statuses)
    else if !Staged2(m, count, statuses.A?) then (Result(ERR_INTERN, [], []), requests, statuses)
    else
      var seen := Seen(w, count, requests, statuses.A?);
      var reply := w.impl(seen);
      var out := reply.out[1].a;
      var code := if stale || ClashIn(w, REQUEST, out) then ERR_INTERN else w.errorToAbi(reply.ierror);
      (Result(code, [seen], if w.anyStaged then Nulled(w, requests, out) else []),
       ToAll(w, REQUEST, out) + requests[count..],
       if statuses.A? then A(StatusAll(w, reply.out[2].a) + statuses.a[count..]) else statuses)
  }

  ghost function Statuses(statuses: array?<int>): Val
    reads if statuses == null then {} else {statuses}
  {
    if statuses == null then Absent else A(statuses[..])
  }

  /** The body, over the caller's arrays, does that. */
  method Waitall(w: World, m: Memory, count: int, requests: array<int>, statuses: array?<int>, stale: bool)
      returns (r: Result)
    requires count <= SIZE_MAX && m.request <= SIZE_MAX && m.status <= SIZE_MAX
    requires count >= 0 ==> count <= requests.Length && (statuses != null ==> count <= statuses.Length)
    requires statuses != requests
    requires count >= 0 ==> Usable(w, Seen(w, count, requests[..], statuses != null), count, statuses != null)
    modifies requests, statuses
    ensures (r, requests[..], Statuses(statuses)) ==
            Simulated(w, m, count, old(requests[..]), old(Statuses(statuses)), stale)
  {
    if count < 0 { return Result(ERR_COUNT, [], []); }
    var room := Stage(STAGE_BYTES, count, m.request, m.requests);
    if room.Null? { return Result(ERR_INTERN, [], []); }
    if statuses != null {
      room := Stage(STAGE_BYTES, count, m.status, m.statuses);
      if room.Null? { return Result(ERR_INTERN, [], []); }
    }
    assert Staged2(m, count, statuses != null);
    ghost var before := requests[..];
    var staged := FromCaller(w, requests, count);
    var vals := [I(count), A(staged), if statuses != null then A(seq(count, _ => 0)) else Absent];
    assert vals == Seen(w, count, before, statuses != null);
    var reply := w.impl(vals);
    var out := reply.out[1].a;
    // Before the write-back: the caller's array still holds the handles as they were.
    var released := [];
    if w.anyStaged { released := Release(w, requests, out); }
    var clashed := ToCaller(w, requests, out);
    if statuses != null { StatusesToCaller(w, statuses, reply.out[2].a); }
    var code := w.errorToAbi(reply.ierror);
    if stale || clashed { code := ERR_INTERN; }
    return Result(code, [vals], released);
  }

  method FromCaller(w: World, requests: array<int>, count: nat) returns (staged: seq<int>)
    requires count <= requests.Length
    ensures staged == FromAll(w, REQUEST, requests[..count])
  {
    staged := [];
    for i := 0 to count
      invariant staged == FromAll(w, REQUEST, requests[..i])
    {
      staged := staged + [From(w, REQUEST, requests[i])];
      assert requests[..i + 1] == requests[..i] + [requests[i]];
    }
  }

  method Release(w: World, requests: array<int>, out: seq<int>) returns (released: seq<int>)
    requires |out| <= requests.Length
    ensures released == Nulled(w, requests[..], out)
  {
    released := [];
    for i := 0 to |out|
      invariant released == Nulled(w, requests[..], out[..i])
    {
      assert out[..i + 1][..i] == out[..i];
      if out[i] == w.implNull(REQUEST) {
        var before := From(w, REQUEST, requests[i]);
        if before != w.implNull(REQUEST) { released := released + [before]; }
      }
    }
    assert out[..|out|] == out;
  }

  method ToCaller(w: World, requests: array<int>, out: seq<int>) returns (clashed: bool)
    requires |out| <= requests.Length
    modifies requests
    ensures requests[..] == ToAll(w, REQUEST, out) + old(requests[..])[|out|..]
    ensures clashed == ClashIn(w, REQUEST, out)
  {
    clashed := false;
    for i := 0 to |out|
      invariant forall p :: 0 <= p < i ==> requests[p] == To(w, REQUEST, out[p])
      invariant forall p :: i <= p < requests.Length ==> requests[p] == old(requests[p])
      invariant clashed == ClashIn(w, REQUEST, out[..i])
    {
      requests[i] := To(w, REQUEST, out[i]);
      ClashMore(w, out, i);
      if Clash(w, REQUEST, out[i]) { clashed := true; }
    }
    assert out[..|out|] == out;
  }

  lemma ClashMore(w: World, out: seq<int>, i: nat)
    requires i < |out|
    ensures ClashIn(w, REQUEST, out[..i + 1]) <==> ClashIn(w, REQUEST, out[..i]) || Clash(w, REQUEST, out[i])
  {
    assert forall k :: 0 <= k < i ==> out[..i + 1][k] == out[..i][k];
    assert out[..i + 1][i] == out[i];
  }

  method StatusesToCaller(w: World, statuses: array<int>, out: seq<int>)
    requires |out| <= statuses.Length
    modifies statuses
    ensures statuses[..] == StatusAll(w, out) + old(statuses[..])[|out|..]
  {
    for i := 0 to |out|
      invariant forall p :: 0 <= p < i ==> statuses[p] == w.statusToAbi(out[p])
      invariant forall p :: i <= p < statuses.Length ==> statuses[p] == old(statuses[p])
    {
      statuses[i] := w.statusToAbi(out[i]);
    }
  }

  // ---------------------------------------------------------------- the same, as the generator emits it

  function Sig(m: Memory): Signature {
    var requests := Extent(OfParam(0), false, m.request, false, 0);
    var statuses := Extent(OfParam(0), false, m.status, false, 0);
    Signature([In(IDENTITY), StageInout(requests), StageStatus(statuses)], false)
  }

  /** A call of the generated body, in a heap that grants a temporary where there is room for it. */
  predicate CallOf(t: Site, m: Memory, count: int, requests: seq<int>, statuses: Val) {
    t.g == Sig(m) && t.args == [I(count), A(requests), statuses] && (statuses == Absent || statuses.A?)
    && t.w.sizeMax == SIZE_MAX
    && (count >= 0 ==> (t.w.allocFails(1) <==> !HasRoom(count, m.request, m.requests))
                       && (t.w.allocFails(2) <==> !HasRoom(count, m.status, m.statuses)))
  }

  lemma SigArgs(t: Site, m: Memory, count: int, requests: seq<int>, statuses: Val)
    requires CallOf(t, m, count, requests, statuses) && Given(t) && count >= 0
    ensures count <= |requests| && (statuses.A? ==> count <= |statuses.a|)
  {
    assert ArgOk(t, 1) && ArgOk(t, 2);
  }

  lemma SigImages(t: Site, m: Memory, count: int, requests: seq<int>, statuses: Val)
    requires CallOf(t, m, count, requests, statuses) && 0 <= count <= |requests|
    ensures Images(t, 0) == Seen(t.w, count, requests, statuses.A?)
    ensures OutOf(t, 1) == if |Answer(t).out| > 1 then Answer(t).out[1] else Undeclared
    ensures OutOf(t, 2) == if |Answer(t).out| > 2 then Answer(t).out[2] else Undeclared
  {
    assert Images(t, 3) == [];
    assert Images(t, 2) == Image(t, 2) + [];
    assert Images(t, 1) == Image(t, 1) + Images(t, 2);
    assert Images(t, 0) == Image(t, 0) + Images(t, 1);
    assert Image(t, 1) == [A(FromAll(t.w, REQUEST, requests[..count]))];
    if statuses != Absent {
      assert Blank(t, 2, count, true) == seq(count, _ => 0);
    }
  }

  /** What an implementation that respects its arguments leaves can be used. */
  lemma SigUsable(t: Site, m: Memory, count: int, requests: seq<int>, statuses: Val)
    requires CallOf(t, m, count, requests, statuses) && Given(t) && count >= 0
    ensures count <= |requests| && (statuses.A? ==> count <= |statuses.a|)
    ensures Usable(t.w, Seen(t.w, count, requests, statuses.A?), count, statuses.A?)
  {
    SigArgs(t, m, count, requests, statuses);
    assert Answers(t.w, Seen(t.w, count, requests, statuses.A?));
  }

  /** When the generated body refuses. */
  lemma SigRefusal(t: Site, m: Memory, count: int, requests: seq<int>, statuses: Val)
    requires CallOf(t, m, count, requests, statuses)
    ensures !Outlives(t.g) && !Faults(t)
    ensures Refusal(t) ==
      if count < 0 then [ERR_COUNT] else if !Staged2(m, count, statuses.A?) then [ERR_INTERN] else []
  {
    assert forall k :: 0 <= k < 3 ==> t.g.params[k] != HandleOut(REQUEST);
    assert SeenBefore(t.g, 0) == {} && SeenBefore(t.g, 1) == {};
    assert SeenBefore(t.g, 2) == {0};
    assert CheckRefusal(t, 3) == [] && CheckRefusal(t, 2) == OwnRefusal(t, 2) == [];
    assert CheckRefusal(t, 1) == OwnRefusal(t, 1) == if count < 0 then [ERR_COUNT] else [];
    assert ProbeRefusal(t, 3) == ProbeRefusal(t, 2) == ProbeRefusal(t, 1) == ProbeRefusal(t, 0) == [];
    if count >= 0 {
      FitsByDivision(count, m.request, SIZE_MAX);
      FitsByDivision(count, m.status, SIZE_MAX);
      assert Fails(t, 1) <==> !HasRoom(count, m.request, m.requests);
      assert Fails(t, 2) <==> statuses.A? && !HasRoom(count, m.status, m.statuses);
    }
  }

  /** The generated body does what the hand-written one does, on every call: it refuses alike, the implementation sees
    * the same, and the caller gets the same answer and finds the same requests, statuses and released blocks. */
  lemma GeneratedAgrees(t: Site, m: Memory, count: int, requests: seq<int>, statuses: Val)
    requires Called(t) && CallOf(t, m, count, requests, statuses)
    ensures count >= 0 ==> count <= |requests| && (statuses.A? ==> count <= |statuses.a|)
                           && Usable(t.w, Seen(t.w, count, requests, statuses.A?), count, statuses.A?)
    ensures CutWithin(t.g) && Perform(t).Ret? && |Perform(t).s.slots| == 3
    ensures var (r, after, filled) := Simulated(t.w, m, count, requests, statuses, t.stale);
      && Perform(t).code == r.code && Perform(t).s.calls == r.seen && Perform(t).s.released == r.released
      && Perform(t).s.slots[1].abi == A(after) && Perform(t).s.slots[2].abi == filled
  {
    WrapperMeaning(t);
    SigRefusal(t, m, count, requests, statuses);
    assert Leaves(t, Perform(t).s, 1) && Leaves(t, Perform(t).s, 2);
    if count >= 0 {
      SigUsable(t, m, count, requests, statuses);
      if Refusal(t) == [] { SigAnswers(t, m, count, requests, statuses); }
    }
  }

  lemma SigAnswers(t: Site, m: Memory, count: int, requests: seq<int>, statuses: Val)
    requires CallOf(t, m, count, requests, statuses) && 0 <= count <= |requests|
      && (statuses.A? ==> count <= |statuses.a|)
    requires Usable(t.w, Seen(t.w, count, requests, statuses.A?), count, statuses.A?)
    requires Staged2(m, count, statuses.A?) && !Outlives(t.g)
    ensures var (r, after, filled) := Simulated(t.w, m, count, requests, statuses, t.stale);
      && Code(t) == r.code && [Images(t, 0)] == r.seen && Released(t) == r.released
      && After(t, 1) == A(after) && After(t, 2) == filled
  {
    SigImages(t, m, count, requests, statuses);
    SigAfter(t, m, count, requests, statuses);
    SigReleased(t, m, count, requests, statuses);
    SigClash(t, m, count, requests, statuses);
  }

  lemma SigAfter(t: Site, m: Memory, count: int, requests: seq<int>, statuses: Val)
    requires CallOf(t, m, count, requests, statuses) && 0 <= count <= |requests|
      && (statuses.A? ==> count <= |statuses.a|)
    requires OutOf(t, 1).A? && |OutOf(t, 1).a| == count && (statuses.A? ==> OutOf(t, 2).A? && |OutOf(t, 2).a| == count)
    ensures After(t, 1) == A(ToAll(t.w, REQUEST, OutOf(t, 1).a) + requests[count..])
    ensures After(t, 2) == if statuses.A? then A(StatusAll(t.w, OutOf(t, 2).a) + statuses.a[count..]) else statuses
  {
    assert OutOf(t, 1).a[..count] == OutOf(t, 1).a;
    if statuses != Absent { assert OutOf(t, 2).a[..count] == OutOf(t, 2).a; }
  }

  lemma SigReleased(t: Site, m: Memory, count: int, requests: seq<int>, statuses: Val)
    requires CallOf(t, m, count, requests, statuses) && 0 <= count <= |requests| && !Outlives(t.g)
    requires OutOf(t, 1).A? && |OutOf(t, 1).a| == count
    ensures Released(t) == if t.w.anyStaged then Nulled(t.w, requests, OutOf(t, 1).a) else []
  {
    var n := Nulled(t.w, requests, OutOf(t, 1).a);
    assert ArrayReleased(t, 3) == [] && ScalarReleased(t, 3) == [];
    assert ArrayReleased(t, 2) == [] && ScalarReleased(t, 2) == [];
    assert ArrayReleased(t, 1) == n + [] && ScalarReleased(t, 1) == [];
    assert ArrayReleased(t, 0) == [] + ArrayReleased(t, 1) && ScalarReleased(t, 0) == [];
    assert [] + (n + []) == n && n + [] == n;
  }

  lemma SigClash(t: Site, m: Memory, count: int, requests: seq<int>, statuses: Val)
    requires CallOf(t, m, count, requests, statuses) && 0 <= count <= |requests|
    requires OutOf(t, 1).A? && |OutOf(t, 1).a| == count
    ensures AnyClash(t) <==> ClashIn(t.w, REQUEST, OutOf(t, 1).a)
    ensures HandleOuts(t.g, t.handles)
  {
    assert HandleOutClass(t.g.params[1], t.handles);
    assert Elements(OutOf(t, 1), count) == OutOf(t, 1).a;
    assert ClashAt(t, 1) == ClashIn(t.w, REQUEST, OutOf(t, 1).a);
    assert !ClashAt(t, 0) && !ClashAt(t, 2);
  }

  /** The signature meets every demand the generator makes of its tables. */
  lemma SigWellFormed(m: Memory, handles: set<Family>)
    requires REQUEST in handles && IDENTITY !in handles
    ensures WellFormed(Sig(m), handles)
  {
    assert forall k :: 0 <= k < 3 ==> Sig(m).params[k] != HandleOut(REQUEST);
  }
}
