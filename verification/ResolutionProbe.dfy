/** The load-time probe for MPI calls that come back into libmpi_abi (src/mpi_abi/bootstrap.c:198-234). */
module ResolutionProbe {
  /** What one call made by the implementation does: it is an entry point of so many, it either reaches the
    * implementation or is captured by libmpi_abi, and in the first case makes further calls of its own. */
  datatype Call = Call(entry: nat, captured: bool, calls: seq<Call>)

  /** The calls that are actually made: a captured one returns from the decoy without making any. */
  predicate Lands(c: Call) {
    c.captured || exists k :: 0 <= k < |c.calls| && Lands(c.calls[k])
  }

  predicate Entries(c: Call, n: nat) {
    c.entry < n && forall k :: 0 <= k < |c.calls| ==> Entries(c.calls[k], n)
  }

  datatype Slot = Null | Decoy

  /** libmpi_abi's globals: the flag, and the vtable its forwarders jump through. */
  class Library {
    var reentered: bool
    var vtable: array?<Slot>

    constructor ()
      ensures vtable == null && !reentered
    {
      reentered, vtable := false, null;
    }

    predicate Filled()
      reads this, vtable
    {
      vtable != null && forall i :: 0 <= i < vtable.Length ==> vtable[i] == Decoy
    }

    /** probe_decoy_any, in every slot: whichever entry point a captured call lands on, it comes back. */
    method Forward(entry: nat)
      requires Filled() && entry < vtable.Length
      modifies this`reentered
      ensures reentered
    {
      assert vtable[entry] == Decoy;
      reentered := true;
    }

    /** One call of the implementation, run to its end. */
    method Make(c: Call)
      requires Filled() && Entries(c, vtable.Length)
      modifies this`reentered
      ensures reentered == (old(reentered) || Lands(c))
      decreases c
    {
      if c.captured {
        Forward(c.entry);
        return;
      }
      for k := 0 to |c.calls|
        invariant reentered == (old(reentered) || exists j :: 0 <= j < k && Lands(c.calls[j]))
      {
        Make(c.calls[k]);
      }
    }

    /** resolution_probe_passed: for any finite tree of calls the probe ends, refuses exactly when some call of the
      * tree is captured, and leaves no decoy behind. */
    method Passed(version: Call, nslots: nat) returns (ok: bool)
      requires Entries(version, nslots)
      modifies this
      ensures ok <==> !Lands(version)
      ensures vtable == null
    {
      var decoy := new Slot[nslots](_ => Null);
      for i := 0 to nslots
        invariant fresh(decoy) && forall j :: 0 <= j < i ==> decoy[j] == Decoy
      {
        decoy[i] := Decoy;
      }
      reentered := false;
      vtable := decoy;
      Make(version);
      vtable := null;
      ok := !reentered;
    }
  }
}
