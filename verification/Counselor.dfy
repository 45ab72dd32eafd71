/** The Counselor of app/grouping.py as an object over its Anchorer. */
module CounselorObject {
  import opened Results
  import opened Delegating
  import opened Grouping
  import opened GroupingLaws
  import opened AnchorerObject

  class Counselor {
    var gpse: Escrow
    var gdee: Escrow
    var gpwe: Escrow
    var cgms: map<(Pre, nat), Ev>
    const swain: Anchorer
    var msgs: seq<(Pre, nat)>
    var gets: seq<(Pre, nat)>

    function Abs(): Group
      reads this, swain
    {
      Group(gpse, gdee, gpwe, cgms, swain.Abs(), msgs, gets)
    }

    constructor (swain: Anchorer)
      ensures this.swain == swain && gpse == gdee == gpwe == map[] && cgms == map[] && msgs == gets == []
    {
      gpse, gdee, gpwe, cgms, msgs, gets := map[], map[], map[], map[], [], [];
      this.swain := swain;
    }

    method Start(w: World, pre: Pre, pend: Pend)
      modifies this
      ensures Abs() == DoGroup(old(Abs()), w, Call.Start(pre, pend))
    {
      gpse := Add(gpse, pre, pend);
    }

    /** True only of an event that was logged, receipted and, if it needs it, sealed,
        in every course of the world that can have led here. */
    method Complete(pre: Pre, sn: nat, diger: Option<Ev>) returns (r: Result<bool>)
      ensures r == GroupComplete(Abs(), pre, sn, diger)
      ensures forall seen | Warranted(Abs(), seen) && r == Ok(true) ::
        && (pre, sn) in cgms && Cleared(seen, cgms[(pre, sn)]) && WasReceipted(seen, cgms[(pre, sn)])
        && (diger.Some? ==> Cleared(seen, diger.value) && WasReceipted(seen, diger.value))
    {
      if (pre, sn) !in cgms { return Ok(false); }
      if diger.Some? && diger.value != cgms[(pre, sn)] { return Err(ValidationError); }
      return Ok(true);
    }

    /** One of the three loops, each entry handled by its method. */
    method Process(round: Round, w: World, order: seq<(Pre, Pend)>) returns (r: Outcome)
      modifies this, swain
      ensures (Abs(), r) == GroupSweep(round, old(Abs()), w, order, |order|)
    {
      for i := 0 to |order|
        invariant (Abs(), Pass) == GroupSweep(round, old(Abs()), w, order, i)
      {
        var (pre, p) := order[i];
        match round {
          case Sign => r := SignOne(w, pre, p);
          case Approve => r := ApproveOne(w, pre, p);
          case Receipt => r := ReceiptOne(w, pre, p);
        }
        if r.Fail? {
          GroupSweepStops(round, old(Abs()), w, order, i + 1, |order|);
          return;
        }
      }
      return Pass;
    }

    method SignOne(w: World, pre: Pre, p: Pend) returns (r: Outcome)
      modifies this, swain
      ensures (Abs(), r) == SignItem(old(Abs()), w, pre, p)
    {
      hide Delegation;
      hide GetLast;
      hide Add;
      hide Least;
      var sdig := GetLast(w, pre, p.sn);
      if sdig.None? { return Pass; }
      gpse := gpse - {pre};
      if pre !in w.habs { return Fail(KeyError); }
      if pre !in w.kevers { return Fail(AttributeError); }
      var kever := w.kevers[pre];
      var sigers := if sdig.value in w.sigs then w.sigs[sdig.value] else [];
      if sigers == [] { return Pass; }
      var windex := Least(sigers);
      if windex >= |kever.keys| { return Fail(IndexError); }
      var witered := w.habs[pre].mkey == kever.keys[windex];
      if MustDelegate(kever) {
        if witered {
          r := swain.Delegation(w, pre, Some(p.sn), false);
          if r.Fail? { return; }
        }
        gdee := Add(gdee, pre, p);
      } else {
        if witered { msgs := msgs + [(pre, p.sn)]; }
        gpwe := Add(gpwe, pre, p);
      }
      return Pass;
    }

    method ApproveOne(w: World, pre: Pre, p: Pend) returns (r: Outcome)
      modifies this, swain
      ensures (Abs(), r) == ApproveItem(old(Abs()), w, pre, p)
    {
      hide Sealing;
      hide Add;
      hide Put;
      if pre !in w.habs || pre !in w.kevers { return Fail(KeyError); }
      var kever := w.kevers[pre];
      if kever.keys == [] { return Fail(IndexError); }
      var witer := w.habs[pre].mkey == kever.keys[0];
      if witer {
        var done := swain.Complete(pre, kever.last.sn, None);
        if done == Ok(true) {
          gdee := gdee - {pre};
          cgms := Put(cgms, pre, p);
        }
      } else if kever.delpre.Some? {
        var anchor := swain.FindSealing(w, kever.delpre.value, p.diger);
        if anchor.Some? {
          swain.aess := swain.aess[(pre, p.diger) := anchor.value];
          gdee := gdee - {pre};
          gpwe := Add(gpwe, pre, p);
        }
      }
      return Pass;
    }

    method ReceiptOne(w: World, pre: Pre, p: Pend) returns (r: Outcome)
      modifies this
      ensures (Abs(), r) == ReceiptItem(old(Abs()), w, pre, p)
    {
      hide Wigs;
      hide Put;
      if pre !in w.kevers { return Fail(KeyError); }
      var kever := w.kevers[pre];
      if pre !in w.habs { return Fail(KeyError); }
      if kever.keys == [] { return Fail(IndexError); }
      var wigers := if p.diger.pre == pre then Wigs(w, p.diger) else {};
      var witer := w.habs[pre].mkey == kever.keys[0];
      if |wigers| == kever.wits {
        if witer && kever.wits > 0 {
          var witnessed := (pre, p.sn) in w.gcues;
          if !witnessed { return Pass; }
        }
        gpwe := gpwe - {pre};
        cgms := Put(cgms, pre, p);
      } else if !witer {
        gets := gets + [(pre, p.sn)];
      }
      return Pass;
    }
  }

  lemma {:induction false} GroupSweepStops(round: Round, s: Group, w: World, order: seq<(Pre, Pend)>, n: nat, m: nat)
    requires n <= m <= |order| && GroupSweep(round, s, w, order, n).1.Fail?
    ensures GroupSweep(round, s, w, order, m) == GroupSweep(round, s, w, order, n)
  {
    hide GroupItem;
    if n >= m {
    } else {
      GroupSweepStops(round, s, w, order, n, m - 1);
    }
  }
}
