/** The Anchorer of app/delegating.py as an object that moves events between its
    escrows one by one. */
module AnchorerObject {
  import opened Results
  import opened Delegating
  import opened DelegatingLaws
  import opened DelegatingSteps

  class Anchorer {
    var dpwe: set<Ev>
    var dune: set<Ev>
    var dpub: set<Ev>
    var cdel: map<(Pre, nat), Ev>
    var aess: map<(Pre, Ev), Ev>
    var publishers: set<Pre>
    var proxied: bool
    var sent: seq<Ev>

    function Abs(): State
      reads this
    {
      State(dpwe, dune, dpub, cdel, aess, publishers, proxied, sent)
    }

    constructor ()
      ensures Abs() == State({}, {}, {}, map[], map[], {}, false, [])
    {
      dpwe, dune, dpub, cdel, aess, publishers, proxied, sent := {}, {}, {}, map[], map[], {}, false, [];
    }

    method Delegation(w: World, pre: Pre, sn: Option<nat>, proxy: bool) returns (r: Outcome)
      modifies this
      ensures (Abs(), r) == Delegating.Delegation(old(Abs()), w, pre, sn, proxy)
    {
      if pre !in w.habs { return Fail(ValidationError); }
      proxied := proxied || proxy;
      publishers := publishers + {pre};
      if pre !in w.kevers { return Fail(AttributeError); }
      var delpre := w.kevers[pre].delpre;
      if delpre.None? || delpre.value !in w.kevers { return Fail(ValidationError); }
      var evt := GetLast(w, pre, if sn.Some? then sn.value else w.kevers[pre].last.sn);
      if evt.None? { return Fail(MissingEntryError); }
      dpwe := dpwe + {evt.value};
      return Pass;
    }

    /** True only of an event that was logged, receipted and sealed in this order, in
        every course of the world that can have led here. */
    method Complete(pre: Pre, sn: nat, diger: Option<Ev>) returns (r: Result<bool>)
      ensures r == Delegating.Complete(Abs(), pre, sn, diger)
      ensures forall seen | Justified(Abs(), seen) && r == Ok(true) ::
        (pre, sn) in cdel && Approved(seen, cdel[(pre, sn)]) && (diger.Some? ==> Approved(seen, diger.value))
    {
      forall seen | Justified(Abs(), seen) && (pre, sn) in cdel ensures Approved(seen, cdel[(pre, sn)]) {
        DoneIsApproved(Abs(), seen, cdel[(pre, sn)]);
      }
      if (pre, sn) !in cdel { return Ok(false); }
      if diger.Some? && diger.value != cdel[(pre, sn)] { return Err(ValidationError); }
      return Ok(true);
    }

    method ProcessPartialWitnessEscrow(w: World, order: seq<Ev>) returns (r: Outcome)
      modifies this
      ensures (Abs(), r) == Sweep(Witness, old(Abs()), w, order, |order|)
      ensures var s := old(Abs());
        && Abs() == Sent(s, Going(Witness, s, w, order, Clean(Witness, s, w, order, |order|)))
        && r == Ending(Witness, s, w, order, |order|)
    {
      WitnessPass(Abs(), w, order, |order|);
      hide Clean;
      hide Going;
      hide Sent;
      hide Ending;
      hide WitnessItem;
      for i := 0 to |order|
        invariant (Abs(), Pass) == Sweep(Witness, old(Abs()), w, order, i)
      {
        r := WitnessOne(w, order[i]);
        if r.Fail? {
          SweepStops(Witness, old(Abs()), w, order, i + 1, |order|);
          return;
        }
      }
      return Pass;
    }

    method WitnessOne(w: World, e: Ev) returns (r: Outcome)
      modifies this
      ensures (Abs(), r) == WitnessItem(old(Abs()), w, e)
    {
      hide Wigs;
      if e.pre !in w.kevers { return Fail(KeyError); }
      var kever := w.kevers[e.pre];
      if |Wigs(w, e)| == kever.wits {
        if kever.wits > 0 {
          var witnessed := (e.pre, e.sn) in w.cues;
          if !witnessed { return Pass; }
        }
        if e.pre !in w.habs { return Pass; }
        if kever.delpre.None? || kever.delpre.value !in w.kevers { return Fail(KeyError); }
        if !w.habs[e.pre].group && !proxied { return Fail(ValidationError); }
        sent := sent + [e];
        dpwe := dpwe - {e};
        dune := dune + {e};
      }
      return Pass;
    }

    method ProcessUnanchoredEscrow(w: World, order: seq<Ev>) returns (r: Outcome)
      modifies this
      ensures (Abs(), r) == Sweep(Unanchored, old(Abs()), w, order, |order|)
      ensures PassesUnanchored(old(Abs()), w, order, |order|, Abs(), r)
    {
      hide PassesUnanchored;
      UnanchoredPass(Abs(), w, order, |order|);
      hide UnanchoredItem;
      for i := 0 to |order|
        invariant (Abs(), Pass) == Sweep(Unanchored, old(Abs()), w, order, i)
      {
        r := UnanchoredOne(w, order[i]);
        if r.Fail? {
          SweepStops(Unanchored, old(Abs()), w, order, i + 1, |order|);
          return;
        }
      }
      return Pass;
    }

    method UnanchoredOne(w: World, e: Ev) returns (r: Outcome)
      modifies this
      ensures (Abs(), r) == UnanchoredItem(old(Abs()), w, e)
    {
      if e.pre !in w.kevers { return Fail(KeyError); }
      var kever := w.kevers[e.pre];
      if kever.delpre.None? || kever.delpre.value !in w.kevers { return Fail(KeyError); }
      var anchor := FindSealing(w, kever.delpre.value, e);
      if anchor.Some? {
        aess := aess[(e.pre, kever.last) := anchor.value];
        if e.pre in publishers && e.pre !in w.habs { return Fail(KeyError); }
        dpub := dpub + {e};
        dune := dune - {e};
      }
      return Pass;
    }

    /** Searches the log forward for the first fully witnessed event with the seal. */
    method FindSealing(w: World, pre: Pre, e: Ev) returns (r: Option<Ev>)
      ensures r == Sealing(w, pre, e)
    {
      if pre !in w.kels { return None; }
      for sn := 0 to |w.kels[pre]|
        invariant FetchSealing(w, pre, e, sn) == FetchSealing(w, pre, e, 0)
      {
        var entry := w.kels[pre][sn];
        var srdr := Ev(pre, sn, entry.body, entry.delegated);
        if e in entry.seals && FullyWitnessed(w, srdr) { return Some(srdr); }
      }
      return None;
    }

    method ProcessWitnessPublication(w: World, order: seq<Ev>) returns (r: Outcome)
      modifies this
      ensures (Abs(), r) == Sweep(Publication, old(Abs()), w, order, |order|)
      ensures r == Pass && forall e :: e in dpub <==>
        e in old(dpub) && forall i | 0 <= i < |order| && order[i] == e :: !Published(old(Abs()), w, order, i)
    {
      PublicationPass(Abs(), w, order, |order|);
      hide Published;
      for i := 0 to |order|
        invariant (Abs(), Pass) == Sweep(Publication, old(Abs()), w, order, i)
      {
        var e := order[i];
        if e.pre !in publishers { continue; }
        if e.pre !in w.idle { continue; }
        publishers := publishers - {e.pre};
        dpub := dpub - {e};
        if (e.pre, e.sn) !in cdel { cdel := cdel[(e.pre, e.sn) := e]; }
      }
      return Pass;
    }
  }

  /** A sweep that has failed has ended. */
  lemma {:induction false} SweepStops(phase: Phase, s: State, w: World, order: seq<Ev>, n: nat, m: nat)
    requires n <= m <= |order| && Sweep(phase, s, w, order, n).1.Fail?
    ensures Sweep(phase, s, w, order, m) == Sweep(phase, s, w, order, n)
  {
    hide Item;
    if n >= m {
    } else {
      SweepStops(phase, s, w, order, n, m - 1);
    }
  }
}
