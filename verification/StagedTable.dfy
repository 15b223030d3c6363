/** The request-keyed table as one thread at a time sees it: `mpiwrapper_staged_attach` and
  * `mpiwrapper_staged_release` (src/mpiwrapper/staging.c:92-132, 255-282) as whole calls. */
module StagedTable {
  import opened Common
  import opened StagedKeys

  type Block = nat

  datatype AttachFate = Stored | Duplicate | Full

  /** The probe at which an attach stops: the first slot that is free or already carries the key. */
  function AttachAt(key: seq<Word>, home: nat, h: Word, i: nat := 0): (d: nat)
    requires home < |key| && i <= |key|
    ensures i <= d <= |key|
    ensures forall j | i <= j < d :: !Free(At(key, home, j)) && At(key, home, j) != h
    ensures d < |key| ==> Free(At(key, home, d)) || At(key, home, d) == h
    decreases |key| - i
  {
    if i == |key| || Free(At(key, home, i)) || At(key, home, i) == h then i else AttachAt(key, home, h, i + 1)
  }

  /** The probe at which a release stops: the first slot never used, or carrying the key. */
  function ReleaseAt(key: seq<Word>, home: nat, h: Word, i: nat := 0): (d: nat)
    requires home < |key| && i <= |key|
    ensures i <= d <= |key|
    ensures forall j | i <= j < d :: At(key, home, j) != KEY_EMPTY && At(key, home, j) != h
    ensures d < |key| ==> At(key, home, d) == KEY_EMPTY || At(key, home, d) == h
    decreases |key| - i
  {
    if i == |key| || At(key, home, i) == KEY_EMPTY || At(key, home, i) == h then i else ReleaseAt(key, home, h, i + 1)
  }

  function At(key: seq<Word>, home: nat, i: nat): Word
    requires home < |key| && i < |key|
  {
    key[Slot(home, |key|, i)]
  }

  /** A release of `h` finds an entry: the slot it finds. */
  function Found(key: seq<Word>, home: nat, h: Word): (r: Option<nat>)
    requires home < |key|
    ensures r.Some? ==> r.value < |key| && key[r.value] == h
  {
    var d := ReleaseAt(key, home, h);
    if d < |key| && At(key, home, d) == h && h != KEY_EMPTY then Some(Slot(home, |key|, d)) else None
  }

  /** What an attach answers. */
  function Fate(key: seq<Word>, request: Word): AttachFate
    requires |key| > 0
  {
    var home := Home(request, |key|);
    var d := AttachAt(key, home, request);
    if Reserved(request) then Duplicate
    else if d == |key| then Full
    else if At(key, home, d) == request then Duplicate
    else Stored
  }

  /** The slot an attach that stores takes. */
  function Taken(key: seq<Word>, request: Word): (p: nat)
    requires |key| > 0 && Fate(key, request) == Stored
    ensures p < |key| && Free(key[p])
  {
    var home := Home(request, |key|);
    Slot(home, |key|, AttachAt(key, home, request))
  }

  /** The key words an attach leaves. */
  function Attached(key: seq<Word>, request: Word): (r: seq<Word>)
    requires |key| > 0
    ensures |r| == |key|
  {
    if Fate(key, request) == Stored then key[Taken(key, request) := request] else key
  }

  /** How many entries carry a request. */
  function Entries(key: seq<Word>): nat {
    if key == [] then 0 else (if Reserved(key[0]) then 0 else 1) + Entries(key[1..])
  }

  lemma {:induction false} EntriesUpdate(key: seq<Word>, p: nat, k: Word)
    requires p < |key|
    ensures Entries(key[p := k]) ==
            Entries(key) + (if Reserved(k) then 0 else 1) - (if Reserved(key[p]) then 0 else 1)
  {
    if p == 0 {
      assert key[0 := k][1..] == key[1..];
    } else {
      assert key[p := k][1..] == key[1..][p - 1 := k];
      EntriesUpdate(key[1..], p - 1, k);
    }
  }

  lemma {:induction false} NoEntries(key: seq<Word>, p: nat)
    requires p < |key| && Entries(key) == 0
    ensures Reserved(key[p])
  {
    if p > 0 { NoEntries(key[1..], p - 1); }
  }

  class RequestTable {
    const key: array<Word>
    const block: array<Option<Block>>
    var live: int

    ghost predicate Shaped() {
      key.Length > 0 && block.Length == key.Length && key as object != block as object
    }

    ghost predicate Valid()
      reads this, key
    {
      Shaped() && live == Entries(key[..])
    }

    constructor (slots: nat)
      requires slots > 0
      ensures Valid() && fresh(key) && fresh(block) && key.Length == slots
      ensures forall p | 0 <= p < slots :: key[p] == KEY_EMPTY && block[p] == None
    {
      key := new Word[slots](_ => KEY_EMPTY);
      block := new Option<Block>[slots](_ => None);
      live := 0;
      new;
      AllEmpty(key[..]);
    }

    method Attach(request: Word, b: Block) returns (fate: AttachFate)
      requires Valid()
      modifies this`live, key, block
      ensures Valid() && fate == Fate(old(key[..]), request) && key[..] == Attached(old(key[..]), request)
      ensures block[..] ==
        if fate == Stored then old(block[..])[Taken(old(key[..]), request) := Some(b)] else old(block[..])
    {
      if request == KEY_EMPTY || request == KEY_LOCKED || request == KEY_TOMB {
        return Duplicate;
      }
      var n := key.Length;
      var home := Home(request, n);
      var slot, probe := home, 0;
      while probe < n
        invariant 0 <= probe <= n
        invariant probe < n ==> slot == Slot(home, n, probe)
        invariant AttachAt(key[..], home, request) == AttachAt(key[..], home, request, probe)
        invariant key[..] == old(key[..]) && block[..] == old(block[..]) && live == old(live)
      {
        var k := key[slot];
        if k == KEY_EMPTY || k == KEY_TOMB {
          EntriesUpdate(key[..], slot, request);
          key[slot] := request;
          block[slot] := Some(b);
          live := live + 1;
          return Stored;
        }
        if k == request { return Duplicate; }
        probe := probe + 1;
        slot := if slot + 1 == n then 0 else slot + 1;
      }
      return Full;
    }

    /** Claim the entry, clear its block, and only then leave the tombstone. */
    method Bury(slot: nat) returns (freed: Option<Block>)
      requires Valid() && slot < key.Length
      modifies this`live, key, block
      ensures Shaped() && freed == old(block[slot]) && live == old(live) - 1
      ensures key[..] == old(key[..])[slot := KEY_TOMB] && block[..] == old(block[..])[slot := None]
      ensures !Reserved(old(key[slot])) ==> Valid()
    {
      EntriesUpdate(key[..], slot, KEY_TOMB);
      key[slot] := KEY_LOCKED;
      freed := block[slot];
      block[slot] := None;
      live := live - 1;
      key[slot] := KEY_TOMB;
      assert key[..] == old(key[..])[slot := KEY_TOMB];
    }

    /** A request with one of the table's own key values would make the live count drift; none has one. */
    method Release(request: Word) returns (freed: Option<Block>)
      requires Valid()
      modifies this`live, key, block
      ensures Shaped() && (!Reserved(request) || live == old(live) ==> Valid())
      ensures var f := if old(live) == 0 then None else Found(old(key[..]), Home(request, key.Length), request);
        if f == None then
          freed == None && key[..] == old(key[..]) && block[..] == old(block[..]) && live == old(live)
        else
          freed == old(block[..])[f.value]
          && key[..] == old(key[..])[f.value := KEY_TOMB] && block[..] == old(block[..])[f.value := None]
      ensures !Reserved(request) && old(live) == 0 ==> Found(old(key[..]), Home(request, key.Length), request) == None
    {
      var n := key.Length;
      var home := Home(request, n);
      var slot, probe := home, 0;
      if live == 0 {
        if Found(key[..], home, request).Some? { NoEntries(key[..], Found(key[..], home, request).value); }
        return None;
      }
      while probe < n
        invariant 0 <= probe <= n
        invariant probe < n ==> slot == Slot(home, n, probe)
        invariant ReleaseAt(key[..], home, request) == ReleaseAt(key[..], home, request, probe)
        invariant key[..] == old(key[..]) && block[..] == old(block[..]) && live == old(live)
      {
        var k := key[slot];
        if k == KEY_EMPTY { return None; }
        if k == request {
          freed := Bury(slot);
          return;
        }
        probe := probe + 1;
        slot := if slot + 1 == n then 0 else slot + 1;
      }
      return None;
    }
  }

  lemma {:induction false} AllEmpty(key: seq<Word>)
    requires forall p | 0 <= p < |key| :: key[p] == KEY_EMPTY
    ensures Entries(key) == 0
  {
    if key != [] { AllEmpty(key[1..]); }
  }

  // ---------------------------------------------------------------- what the two calls mean together
  // Here `hash` is any function giving every request value its home slot.

  type Hash = Word -> nat

  ghost predicate Hashes(key: seq<Word>, hash: Hash) {
    |key| > 0 && forall h: Word :: hash(h) < |key|
  }

  /** Nothing before slot `p` on its key's probe sequence was never used. */
  predicate Probed(key: seq<Word>, home: nat, p: nat)
    requires home < |key| && p < |key|
  {
    exists d :: 0 <= d < |key| && Slot(home, |key|, d) == p && forall j | 0 <= j < d :: At(key, home, j) != KEY_EMPTY
  }

  /** Every entry can be reached from its home. */
  ghost predicate Reachable(key: seq<Word>, hash: Hash) {
    Hashes(key, hash) && forall p | 0 <= p < |key| && !Reserved(key[p]) :: Probed(key, hash(key[p]), p)
  }

  /** A release looks its key up exactly: it finds an entry if and only if the table carries the key. */
  lemma FoundIffPresent(key: seq<Word>, hash: Hash, h: Word)
    requires Reachable(key, hash) && !Reserved(h)
    ensures Found(key, hash(h), h).Some? <==> h in key
  {
    if h in key {
      var p :| 0 <= p < |key| && key[p] == h;
      assert Probed(key, hash(h), p);
      var home := hash(h);
      var d :| 0 <= d < |key| && Slot(home, |key|, d) == p && forall j | 0 <= j < d :: At(key, home, j) != KEY_EMPTY;
      assert At(key, home, d) == h;
      assert ReleaseAt(key, home, h) <= d;
    }
  }

  /** Tombstones and new entries do not truncate or redirect the probe sequence of any other key. */
  lemma OthersUndisturbed(key: seq<Word>, hash: Hash, p: nat, k: Word, g: Word)
    requires Reachable(key, hash) && p < |key| && !Reserved(g) && key[p] != g && k != g && k != KEY_EMPTY
    ensures Found(key[p := k], hash(g), g) == Found(key, hash(g), g)
  {
    var key', home := key[p := k], hash(g);
    var d, d' := ReleaseAt(key, home, g), ReleaseAt(key', home, g);
    assert forall j | 0 <= j < |key| :: At(key', home, j) == if Slot(home, |key|, j) == p then k else At(key, home, j);
    FoundIffPresent(key, hash, g);
    if Found(key, home, g).Some? {
      assert d' == d;
    } else {
      assert g !in key';
    }
  }

  /** Both calls keep every entry reachable. */
  lemma StaysReachable(key: seq<Word>, hash: Hash, p: nat, k: Word)
    requires Reachable(key, hash) && p < |key| && k != KEY_EMPTY
    requires !Reserved(k) ==>
             AttachAt(key, hash(k), k) < |key| && p == Slot(hash(k), |key|, AttachAt(key, hash(k), k))
    ensures Reachable(key[p := k], hash)
  {
    var key' := key[p := k];
    forall r | 0 <= r < |key'| && !Reserved(key'[r]) ensures Probed(key', hash(key'[r]), r) {
      var home := hash(key'[r]);
      assert forall j | 0 <= j < |key| ::
        At(key', home, j) == if Slot(home, |key|, j) == p then k else At(key, home, j);
      if r == p {
        var d := AttachAt(key, home, k);
        assert Slot(home, |key|, d) == r && forall j | 0 <= j < d :: At(key', home, j) != KEY_EMPTY;
      } else {
        assert Probed(key, home, r);
        var d :| 0 <= d < |key| && Slot(home, |key|, d) == r && forall j | 0 <= j < d :: At(key, home, j) != KEY_EMPTY;
        assert Slot(home, |key'|, d) == r && forall j | 0 <= j < d :: At(key', home, j) != KEY_EMPTY;
      }
    }
  }

  /** A block just stored is the one a release of its request finds, even where the table already carried the key. */
  lemma AttachThenRelease(key: seq<Word>, h: Word)
    requires |key| > 0 && Fate(key, h) == Stored
    ensures Found(Attached(key, h), Home(h, |key|), h) == Some(Taken(key, h))
  {
    var home := Home(h, |key|);
    var d, key' := AttachAt(key, home, h), Attached(key, h);
    forall j | 0 <= j < d ensures At(key', home, j) == At(key, home, j) {
      ProbesDiffer(home, |key|, j, d);
    }
    assert At(key', home, d) == h;
    assert ReleaseAt(key', home, h) == d;
  }

  /** An attach is answered Full exactly when no slot is free and the key is not there. */
  lemma FullIffNoRoom(key: seq<Word>, home: nat, h: Word)
    requires home < |key| && !Reserved(h)
    ensures AttachAt(key, home, h) == |key| <==> h !in key && forall p | 0 <= p < |key| :: !Free(key[p])
  {
    var n := |key|;
    if AttachAt(key, home, h) == n {
      forall p | 0 <= p < n ensures !Free(key[p]) && key[p] != h {
        var i := if p >= home then p - home else p - home + n;
        assert At(key, home, i) == key[p];
      }
    }
  }

  /** Probe `d` is where a release of `h` would stop, and it holds `h`. */
  predicate HeldAt(key: seq<Word>, home: nat, h: Word, d: nat) {
    && home < |key| && d < |key| && At(key, home, d) == h && !Reserved(h)
    && forall j | 0 <= j < d :: At(key, home, j) != KEY_EMPTY && At(key, home, j) != h
  }

  predicate TombBefore(key: seq<Word>, home: nat, d: nat)
    requires home < |key| && d < |key|
  {
    exists j :: 0 <= j < d && At(key, home, j) == KEY_TOMB
  }

  /** The table declines a second block for a key it already holds if and only if no tombstone precedes the
    * entry on its probe sequence; otherwise it stores a second entry in front of the first. */
  lemma DeclinesHeldKey(key: seq<Word>, home: nat, h: Word, d: nat)
    requires HeldAt(key, home, h, d)
    ensures AttachAt(key, home, h) < |key|
    ensures At(key, home, AttachAt(key, home, h)) == h <==> !TombBefore(key, home, d)
    ensures TombBefore(key, home, d) ==> AttachAt(key, home, h) < d
  {
    if TombBefore(key, home, d) {
      var j :| 0 <= j < d && At(key, home, j) == KEY_TOMB;
      assert AttachAt(key, home, h) <= j;
    } else {
      assert forall j | 0 <= j < d :: !Free(At(key, home, j));
      assert AttachAt(key, home, h) == d;
    }
  }

  /** A request value reissued before its old entry is released: an attach under `h` while `h` is still held at
    * probe `d`, then the pending release of the old holder.  The release reaches the old entry if and only if no
    * tombstone precedes it; otherwise it reaches the entry just stored, whose operation is still running. */
  lemma ReissueRelease(key: seq<Word>, h: Word, d: nat)
    requires |key| > 0 && HeldAt(key, Home(h, |key|), h, d)
    ensures var home := Home(h, |key|);
      && (Found(Attached(key, h), home, h) == Some(Slot(home, |key|, d)) <==> !TombBefore(key, home, d))
      && (TombBefore(key, home, d) ==>
            Fate(key, h) == Stored && Found(Attached(key, h), home, h) == Some(Taken(key, h)))
  {
    var home := Home(h, |key|);
    DeclinesHeldKey(key, home, h, d);
    if TombBefore(key, home, d) {
      AttachThenRelease(key, h);
      ProbesDiffer(home, |key|, AttachAt(key, home, h), d);
    } else {
      assert ReleaseAt(key, home, h) == d;
    }
  }
}
