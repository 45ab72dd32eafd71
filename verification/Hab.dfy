/** The Hab of app/habbing.py as an object over its Manager. */
module HabObject {
  import opened Collections
  import opened Results
  import opened Keeping
  import opened Habbing
  import opened HabbingLaws
  import opened ManagerObject

  class Hab {
    const mgr: Manager
    var pre: Pub
    var kel: seq<Event>

    /** The store of the Manager, the prefix and the log as one value. */
    function Abs(): State
      reads this, mgr
    {
      State(mgr.Abs(), pre, kel)
    }

    constructor (mgr: Manager, pre: Pub, kel: seq<Event>)
      ensures this.mgr == mgr && this.pre == pre && this.kel == kel
    {
      this.mgr, this.pre, this.kel := mgr, pre, kel;
    }

    /** The positions of the prior next digests that the new keys meet. */
    method FindIndices(ndigs: seq<Dig>, verfers: seq<Pub>) returns (indices: seq<nat>)
      ensures indices == Indices(ndigs, verfers)
      ensures ndigs == Digests(verfers) ==> indices == UpTo(|ndigs|)
    {
      indices := [];
      for idx := 0 to |ndigs|
        invariant indices == Indices(ndigs[..idx], verfers)
      {
        assert ndigs[..idx + 1][..idx] == ndigs[..idx];
        var pdigs := Digests(verfers);
        if ndigs[idx] in pdigs { indices := indices + [idx]; }
      }
      assert ndigs[..|ndigs|] == ndigs;
      if ndigs == Digests(verfers) { IndicesComplete(verfers); }
    }

    /** Hab.rotate: advance, make and submit the event, then roll the situation back
        or erase the stale keys. */
    method Rotate(ncount: Option<int>, quorums: set<set<nat>>, verdict: Verdict) returns (r: Outcome)
      requires kel != []
      modifies this, mgr
      ensures pre == old(pre)
      ensures (Abs(), r) == RotateHab(old(Abs()), ncount, quorums, verdict)
      ensures old(InStep(Abs()) && Committed(kel)) && verdict != Swallowed ==> InStep(Abs()) && Committed(kel)
    {
      hide Keeping.Replay;
      hide Keeping.Rotate;
      hide ToSet;
      hide InStep;
      hide Committed;
      hide Satisfied;
      hide Indices;
      if InStep(Abs()) && Committed(kel) && verdict != Swallowed {
        CallKeepsStep(Abs(), Call(ncount, quorums, verdict));
      }
      ghost var h := Abs();
      var kever := kel[|kel| - 1];
      var count := if ncount.None? then |kever.ndigs| else ncount.value;
      if pre !in mgr.sits {
        assert Advance(h.st, h.pre, count) == (h.st, Err(ValueError)) by { NoSituation(h.st, h.pre, count); }
        return Fail(ValueError);
      }
      var before := mgr.sits[pre];
      var keys := mgr.Replay(pre, true, false);
      if keys == Err(IndexError) {
        keys := mgr.Rotate(pre, count, false);
      }
      if keys.Err? { return Fail(keys.error); }
      var (verfers, digers) := keys.value;
      var indices := FindIndices(kever.ndigs, verfers);
      if verdict == Refused || !Satisfied(kever.quorums, indices) {
        mgr.sits := mgr.sits[pre := before];
        return Fail(ValidationError);
      }
      if verdict == Accepted { kel := kel + [Event(verfers, digers, quorums)]; }
      mgr.EraseKeys(before.was.pubs);
      return Pass;
    }
  }

  lemma NoSituation(st: Store, pre: Pub, ncount: int)
    requires pre !in st.sits
    ensures Advance(st, pre, ncount) == (st, Err(ValueError))
  {
  }
}
