/** What the escrows of app/delegating.py promise over every run, whatever the
    world is at each call: an event goes through them in order, each time for
    its reason, and is never in two of them nor lost. */
module DelegatingLaws {
  import opened Results
  import opened Delegating

  /** Event e is at stage k: waiting for receipts, for the seal, for publication,
      or done. */
  predicate At(s: State, k: nat, e: Ev) {
    if k == 0 then e in s.dpwe
    else if k == 1 then e in s.dune
    else if k == 2 then e in s.dpub
    else k == 3 && (e.pre, e.sn) in s.cdel && s.cdel[(e.pre, e.sn)] == e
  }

  /** The entries of cdel are where their event says. */
  ghost predicate Tidy(s: State) {
    forall k | k in s.cdel :: k == (s.cdel[k].pre, s.cdel[k].sn)
  }

  /** What lets an event into stage k: it is in its log; all its witnesses have
      receipted it; its delegator has sealed it; its publisher is idle. */
  predicate Reason(k: nat, w: World, e: Ev) {
    if k == 0 then GetLast(w, e.pre, e.sn) == Some(e)
    else if k == 1 then FullyReceipted(w, e)
    else if k == 2 then SealedBy(w, e)
    else e.pre in w.idle
  }

  /** The worlds seen so far gave the reasons for stages 0 to k in this order, each
      at an earlier call than the next. */
  ghost predicate Reached(k: nat, seen: seq<World>, e: Ev) {
    exists b | 0 <= b < |seen| :: Reason(k, seen[b], e) && (k == 0 || Reached(k - 1, seen[..b], e))
  }

  ghost predicate Justified(s: State, seen: seq<World>) {
    && Tidy(s)
    && (forall k: nat, e | At(s, k, e) :: Reached(k, seen, e))
    && (forall e | e in s.sent :: Reached(1, seen, e))
  }

  /** The positions 0 to n - 1. */
  function Positions(n: nat): (s: set<nat>)
    ensures |s| == n && forall i: nat :: i in s <==> i < n
  {
    if n == 0 then {} else Positions(n - 1) + {n - 1}
  }

  /** As many receipts as witnesses, each at the position of a witness, are the
      receipts of all of them. */
  lemma AllWitnesses(w: World, e: Ev)
    requires e.pre in w.kevers && forall i | i in Wigs(w, e) :: i < w.kevers[e.pre].wits
    ensures FullyReceipted(w, e) <==> forall i: nat | i < w.kevers[e.pre].wits :: i in Wigs(w, e)
  {
    var n, wigs := w.kevers[e.pre].wits, Wigs(w, e);
    assert wigs <= Positions(n);
    assert Positions(n) == wigs + (Positions(n) - wigs);
    if forall i: nat | i < n :: i in wigs {
      assert wigs == Positions(n);
    }
  }

  /** Entry sn of the log of pre seals the event and is witnessed well enough. */
  predicate Seals(w: World, pre: Pre, sn: nat, e: Ev) {
    && pre in w.kels && sn < |w.kels[pre]| && e in w.kels[pre][sn].seals
    && pre in w.kevers
    && var srdr := Ev(pre, sn, w.kels[pre][sn].body, w.kels[pre][sn].delegated);
    (if srdr in w.wigs then |w.wigs[srdr]| else 0) >= w.kevers[pre].toad
  }

  /** The search finds the first sealing event of the log, or there is none. */
  lemma {:induction false} FetchSealingFinds(w: World, pre: Pre, e: Ev, sn: nat)
    requires pre in w.kels && sn <= |w.kels[pre]|
    ensures match FetchSealing(w, pre, e, sn)
      case Some(x) => GetLast(w, pre, x.sn) == Some(x) && sn <= x.sn && Seals(w, pre, x.sn, e)
        && forall j | sn <= j < x.sn :: !Seals(w, pre, j, e)
      case None => forall j: nat | sn <= j :: !Seals(w, pre, j, e)
    decreases |w.kels[pre]| - sn
  {
    if sn >= |w.kels[pre]| {
    } else {
      FetchSealingFinds(w, pre, e, sn + 1);
    }
  }

  /** An event counts as sealed just when some last event of its delegator's log, at
      whatever number, seals it. */
  lemma SealedMeans(w: World, e: Ev)
    requires e.pre in w.kevers && w.kevers[e.pre].delpre.Some?
    ensures SealedBy(w, e) <==> exists sn: nat :: Seals(w, w.kevers[e.pre].delpre.value, sn, e)
  {
    var pre := w.kevers[e.pre].delpre.value;
    if pre in w.kels {
      FetchSealingFinds(w, pre, e, 0);
    }
  }

  lemma ItemSeals(s: State, w: World, x: Ev, e: Ev)
    ensures var s' := UnanchoredItem(s, w, x).0;
      && ((e.pre, e) in s.aess ==> (e.pre, e) in s'.aess)
      && ((e.pre, e) in s'.aess && (e.pre, e) !in s.aess ==> e.pre in w.kevers && w.kevers[e.pre].last == e)
      && (e in s'.dune ==> e in s.dune)
      && (e in s.dune && e !in s'.dune ==>
            x == e && e.pre in w.kevers && (w.kevers[e.pre].last == e ==> (e.pre, e) in s'.aess))
  {
    hide Sealing;
  }

  lemma {:induction false} SweepSeals(s: State, w: World, order: seq<Ev>, n: nat, e: Ev)
    requires n <= |order| && e in s.dune && (e.pre, e) !in s.aess
    ensures var s' := Sweep(Unanchored, s, w, order, n).0;
      && ((e.pre, e) in s'.aess ==> e.pre in w.kevers && w.kevers[e.pre].last == e)
      && (e !in s'.dune ==> e.pre in w.kevers && (w.kevers[e.pre].last == e ==> (e.pre, e) in s'.aess))
  {
    hide UnanchoredItem;
    if n == 0 {
    } else {
      SweepSeals(s, w, order, n - 1, e);
      ItemSeals(Sweep(Unanchored, s, w, order, n - 1).0, w, order[n - 1], e);
    }
  }

  function Stage(phase: Phase): (k: nat)
    ensures k < 3
  {
    match phase case Witness => 0 case Unanchored => 1 case Publication => 2
  }

  ghost predicate Same(s: State, s': State, x: Ev) {
    forall k: nat :: At(s', k, x) <==> At(s, k, x)
  }

  /** Another event has been recorded at the place of x. */
  predicate Rival(s: State, x: Ev) {
    (x.pre, x.sn) in s.cdel && s.cdel[(x.pre, x.sn)] != x
  }

  /** x has gone from the stage of the phase to the next, unless it is recorded and
      a rival has its place: then it is gone. */
  ghost predicate Moved(phase: Phase, s: State, s': State, x: Ev) {
    var p := Stage(phase);
    && At(s, p, x) && !At(s', p, x)
    && (forall k: nat | k != p && k != p + 1 :: At(s', k, x) <==> At(s, k, x))
    && (At(s', p + 1, x) || (phase == Publication && Rival(s', x)))
  }

  /** Nothing is taken out of cdel or replaced there. */
  ghost predicate Kept(s: State, s': State) {
    forall k | k in s.cdel :: k in s'.cdel && s'.cdel[k] == s.cdel[k]
  }

  lemma WitnessItemMoves(s: State, w: World, e: Ev, x: Ev)
    requires e in s.dpwe && Tidy(s)
    ensures var s' := WitnessItem(s, w, e).0;
      && Tidy(s') && Kept(s, s')
      && (Same(s, s', x) || (x == e && Moved(Witness, s, s', x) && Reason(1, w, x)))
  {
    hide Wigs;
  }

  /** What one item of the seal round can do: nothing but record a seal, or also take the
      event on. */
  lemma UnanchoredItemIs(s: State, w: World, e: Ev)
    ensures var s' := UnanchoredItem(s, w, e).0;
      || s' == s.(aess := s'.aess)
      || (s' == s.(aess := s'.aess, dpub := s.dpub + {e}, dune := s.dune - {e}) && SealedBy(w, e))
  {
    hide Sealing;
  }

  lemma SameAt(s: State, s': State, x: Ev)
    requires s' == s.(aess := s'.aess)
    ensures Tidy(s) ==> Tidy(s')
    ensures Kept(s, s') && Same(s, s', x)
  {
  }

  lemma UnanchoredItemMoves(s: State, w: World, e: Ev, x: Ev)
    requires e in s.dune && Tidy(s)
    ensures var s' := UnanchoredItem(s, w, e).0;
      && Tidy(s') && Kept(s, s')
      && (Same(s, s', x) || (x == e && Moved(Unanchored, s, s', x) && Reason(2, w, x)))
  {
    hide UnanchoredItem;
    hide SealedBy;
    UnanchoredItemIs(s, w, e);
    var s' := UnanchoredItem(s, w, e).0;
    if s' == s.(aess := s'.aess) {
      hide At;
      SameAt(s, s', x);
    } else if x != e {
      assert forall k: nat :: At(s', k, x) <==> At(s, k, x);
    } else {
      assert At(s, 1, x) && !At(s', 1, x) && At(s', 2, x);
    }
  }

  lemma PublicationItemMoves(s: State, w: World, e: Ev, x: Ev)
    requires e in s.dpub && Tidy(s)
    ensures var s' := PublicationItem(s, w, e).0;
      && Tidy(s') && Kept(s, s')
      && (Same(s, s', x) || (x == e && Moved(Publication, s, s', x) && Reason(3, w, x)))
  {
  }

  lemma ItemMoves(phase: Phase, s: State, w: World, e: Ev, x: Ev)
    requires e in Table(s, phase) && Tidy(s)
    ensures var s' := Item(phase, s, w, e).0;
      && Tidy(s') && Kept(s, s')
      && (Same(s, s', x) || (x == e && Moved(phase, s, s', x) && Reason(Stage(phase) + 1, w, x)))
  {
    hide Same;
    hide Moved;
    hide Reason;
    hide Tidy;
    hide Kept;
    match phase
    case Witness => WitnessItemMoves(s, w, e, x);
    case Unanchored => UnanchoredItemMoves(s, w, e, x);
    case Publication => PublicationItemMoves(s, w, e, x);
  }

  /** A sweep takes each event of its escrow one stage on or leaves it, and does
      nothing to the others. */
  lemma {:induction false} SweepMoves(phase: Phase, s: State, w: World, order: seq<Ev>, n: nat, x: Ev)
    requires n <= |order| && Lists(order, Table(s, phase)) && Tidy(s)
    ensures var s' := Sweep(phase, s, w, order, n).0;
      && Tidy(s') && Kept(s, s')
      && (Same(s, s', x) || (x in order[..n] && Moved(phase, s, s', x) && Reason(Stage(phase) + 1, w, x)))
    ensures forall y | y in order[n..] :: y in Table(Sweep(phase, s, w, order, n).0, phase)
  {
    hide At;
    hide Reason;
    hide Item;
    hide Moved;
    hide Same;
    hide Tidy;
    if n == 0 {
      SameSelf(s, x);
    } else {
      SweepMoves(phase, s, w, order, n - 1, x);
      var s1 := Sweep(phase, s, w, order, n - 1).0;
      var e := order[n - 1];
      assert e in order[n - 1..];
      ItemMoves(phase, s1, w, e, x);
      SweepJoins(phase, s, s1, Item(phase, s1, w, e).0, w, order, n, x);
      forall y | y in order[n..] ensures y in Table(Sweep(phase, s, w, order, n).0, phase) {
        assert y in order[n - 1..] && y != e;
        ItemMoves(phase, s1, w, e, y);
        SameTable(phase, s1, Item(phase, s1, w, e).0, y);
      }
    }
  }

  lemma SameSelf(s: State, x: Ev)
    ensures Same(s, s, x)
  {
  }

  lemma SameTable(phase: Phase, s: State, s': State, y: Ev)
    requires Same(s, s', y)
    ensures y in Table(s, phase) <==> y in Table(s', phase)
  {
    assert At(s', Stage(phase), y) <==> At(s, Stage(phase), y);
  }

  lemma SweepJoins(phase: Phase, s: State, s1: State, s2: State, w: World, order: seq<Ev>, n: nat, x: Ev)
    requires 0 < n <= |order| && forall i, j | 0 <= i < j < |order| :: order[i] != order[j]
    requires Same(s, s1, x) || (x in order[..n - 1] && Moved(phase, s, s1, x) && Reason(Stage(phase) + 1, w, x))
    requires Same(s1, s2, x) || (x == order[n - 1] && Moved(phase, s1, s2, x) && Reason(Stage(phase) + 1, w, x))
    requires Kept(s1, s2)
    ensures Same(s, s2, x) || (x in order[..n] && Moved(phase, s, s2, x) && Reason(Stage(phase) + 1, w, x))
  {
    hide At;
    assert order[..n] == order[..n - 1] + [order[n - 1]];
    if Same(s, s1, x) {
    } else {
      assert Same(s1, s2, x);
    }
  }

  lemma {:induction false} SweepSends(phase: Phase, s: State, w: World, order: seq<Ev>, n: nat, x: Ev)
    requires n <= |order| && x in Sweep(phase, s, w, order, n).0.sent && x !in s.sent
    ensures x in order[..n] && phase == Witness && FullyReceipted(w, x)
  {
    if n == 0 {
    } else {
      var (s1, r) := Sweep(phase, s, w, order, n - 1);
      assert order[..n] == order[..n - 1] + [order[n - 1]];
      if x in s1.sent {
        SweepSends(phase, s, w, order, n - 1, x);
      } else {
        hide Sealing;
        var e := order[n - 1];
        assert Sweep(phase, s, w, order, n).0.sent == s1.sent + [e];
      }
    }
  }

  lemma {:induction false} ReachedLater(k: nat, seen: seq<World>, w: World, e: Ev)
    requires Reached(k, seen, e)
    ensures Reached(k, seen + [w], e)
  {
    var b :| 0 <= b < |seen| && Reason(k, seen[b], e) && (k == 0 || Reached(k - 1, seen[..b], e));
    assert (seen + [w])[..b] == seen[..b] && (seen + [w])[b] == seen[b];
  }

  lemma ReachedNow(k: nat, seen: seq<World>, w: World, e: Ev)
    requires Reason(k, w, e) && (k == 0 || Reached(k - 1, seen, e))
    ensures Reached(k, seen + [w], e)
  {
    assert (seen + [w])[..|seen|] == seen && (seen + [w])[|seen|] == w;
  }

  lemma DoJustified(s: State, w: World, op: Op, seen: seq<World>)
    requires Justified(s, seen)
    requires op.Process? ==> Lists(op.order, Table(s, op.phase))
    ensures Justified(Do(s, w, op).0, seen + [w])
  {
    hide Reason;
    var s' := Do(s, w, op).0;
    match op
    case Submit(pre, sn, proxy) =>
      hide Reached;
      SubmitMoves(s, w, pre, sn, proxy);
      forall k: nat, e | At(s', k, e) ensures Reached(k, seen + [w], e) {
        if At(s, k, e) { ReachedLater(k, seen, w, e); } else { ReachedNow(0, seen, w, e); }
      }
      forall e | e in s'.sent ensures Reached(1, seen + [w], e) { ReachedLater(1, seen, w, e); }
    case Process(phase, order) =>
      hide Sweep;
      hide Reached;
      SweepMoves(phase, s, w, order, |order|, Ev(0, 0, 0, false));
      forall k: nat, e | At(s', k, e) ensures Reached(k, seen + [w], e) {
        SweepMoves(phase, s, w, order, |order|, e);
        if At(s, k, e) { ReachedLater(k, seen, w, e); } else {
          assert k == Stage(phase) + 1 && At(s, k - 1, e);
          ReachedNow(k, seen, w, e);
        }
      }
      forall e | e in s'.sent ensures Reached(1, seen + [w], e) {
        if e in s.sent { ReachedLater(1, seen, w, e); } else {
          SweepSends(phase, s, w, order, |order|, e);
          assert At(s, 0, e);
          ReasonReceipted(w, e);
          ReachedNow(1, seen, w, e);
        }
      }
  }

  lemma ReasonReceipted(w: World, e: Ev)
    requires FullyReceipted(w, e)
    ensures Reason(1, w, e)
  {
  }

  lemma SubmitMoves(s: State, w: World, pre: Pre, sn: Option<nat>, proxy: bool)
    ensures var (s', r) := Delegation(s, w, pre, sn, proxy);
      && s' == s.(dpwe := s'.dpwe, publishers := s'.publishers, proxied := s'.proxied)
      && (r.Fail? ==> s'.dpwe == s.dpwe)
      && (forall e | e in s'.dpwe :: e in s.dpwe || Reason(0, w, e))
  {
  }

  /** In every run an event is at a stage only when the reasons for the stages up to
      there were seen before, in order. */
  lemma {:induction false} RunsJustified(states: seq<State>, ops: seq<Op>, worlds: seq<World>, i: nat)
    requires IsRun(states, ops, worlds) && i <= |ops|
    ensures Justified(states[i], worlds[..i])
  {
    hide Reached;
    hide At;
    if i == 0 {
      NothingYet(states[0]);
    } else {
      RunsJustified(states, ops, worlds, i - 1);
      DoJustified(states[i - 1], worlds[i - 1], ops[i - 1], worlds[..i - 1]);
      assert worlds[..i] == worlds[..i - 1] + [worlds[i - 1]];
    }
  }

  /** In every run, when the seal of a delegated event is found it is recorded under
      that event just when the event is the latest of its prefix; otherwise the event
      goes on and its seal stands under another. */
  lemma SealUnderLatest(states: seq<State>, ops: seq<Op>, worlds: seq<World>, i: nat, e: Ev)
    requires IsRun(states, ops, worlds) && i < |ops|
    requires e in states[i].dune && e !in states[i + 1].dune && (e.pre, e) !in states[i].aess
    ensures e.pre in worlds[i].kevers
    ensures (e.pre, e) in states[i + 1].aess <==> worlds[i].kevers[e.pre].last == e
    ensures SealedBy(worlds[i], e)
  {
    hide Sealing;
    hide Sweep;
    hide Lists;
    hide At;
    var s, w, op := states[i], worlds[i], ops[i];
    assert states[i + 1] == Do(s, w, op).0;
    RunsJustified(states, ops, worlds, i);
    DoMoves(s, w, op, e);
    DuneMoves(s, states[i + 1], op, e);
    SweepMoves(op.phase, s, w, op.order, |op.order|, e);
    SweepSeals(s, w, op.order, |op.order|, e);
    ReasonSealed(s, states[i + 1], w, e);
  }

  lemma DuneMoves(s: State, s': State, op: Op, e: Ev)
    requires e in s.dune && e !in s'.dune
    requires Same(s, s', e) || (op.Process? && Moved(op.phase, s, s', e))
    ensures op.Process? && op.phase == Unanchored
  {
    assert At(s, 1, e) && !At(s', 1, e);
  }

  lemma ReasonSealed(s: State, s': State, w: World, e: Ev)
    requires e in s.dune && e !in s'.dune
    requires Same(s, s', e) || Reason(2, w, e)
    ensures SealedBy(w, e)
  {
    assert At(s, 1, e) && !At(s', 1, e);
  }

  lemma NothingYet(s: State)
    requires s == State({}, {}, {}, map[], map[], {}, false, [])
    ensures Justified(s, []) && forall k: nat, e :: !At(s, k, e)
  {
  }

  /** An event that counts as completely delegated was in its log, then had the
      receipts of all its witnesses, then was sealed by its delegator. */
  lemma CompleteMeans(states: seq<State>, ops: seq<Op>, worlds: seq<World>, i: nat, pre: Pre, sn: nat)
    requires IsRun(states, ops, worlds) && i <= |ops| && (pre, sn) in states[i].cdel
    ensures var e := states[i].cdel[(pre, sn)];
      && e.pre == pre && e.sn == sn
      && exists a, b, c | 0 <= a < b < c < i ::
           GetLast(worlds[a], pre, sn) == Some(e) && FullyReceipted(worlds[b], e) && SealedBy(worlds[c], e)
  {
    hide SealedBy;
    hide FullyReceipted;
    hide GetLast;
    hide Approved;
    hide At;
    RunsJustified(states, ops, worlds, i);
    TidyAt(states[i], pre, sn);
    hide Justified;
    DoneIsApproved(states[i], worlds[..i], states[i].cdel[(pre, sn)]);
    ApprovedBefore(worlds, i, states[i].cdel[(pre, sn)]);
  }

  lemma ApprovedBefore(worlds: seq<World>, i: nat, e: Ev)
    requires i <= |worlds| && Approved(worlds[..i], e)
    ensures exists a, b, c | 0 <= a < b < c < i ::
      GetLast(worlds[a], e.pre, e.sn) == Some(e) && FullyReceipted(worlds[b], e) && SealedBy(worlds[c], e)
  {
    hide SealedBy;
    hide FullyReceipted;
    hide GetLast;
    var seen := worlds[..i];
    var a, b, c :| 0 <= a < b < c < |seen| && GetLast(seen[a], e.pre, e.sn) == Some(e)
      && FullyReceipted(seen[b], e) && SealedBy(seen[c], e);
    assert GetLast(worlds[a], e.pre, e.sn) == Some(e) && FullyReceipted(worlds[b], e) && SealedBy(worlds[c], e);
  }

  lemma TidyAt(s: State, pre: Pre, sn: nat)
    requires Tidy(s) && (pre, sn) in s.cdel
    ensures var e := s.cdel[(pre, sn)]; e.pre == pre && e.sn == sn && At(s, 3, e)
  {
  }

  /** What an answer of complete for a digest means: true, that this event was in its
      log, then receipted by all its witnesses, then sealed; an error, that another
      event has its place and so it is not done; false, that none has. */
  lemma CompleteAnswers(states: seq<State>, ops: seq<Op>, worlds: seq<World>, i: nat, e: Ev)
    requires IsRun(states, ops, worlds) && i <= |ops|
    ensures match Complete(states[i], e.pre, e.sn, Some(e))
      case Ok(true) =>
        At(states[i], 3, e) && exists a, b, c | 0 <= a < b < c < i ::
          GetLast(worlds[a], e.pre, e.sn) == Some(e) && FullyReceipted(worlds[b], e) && SealedBy(worlds[c], e)
      case Ok(false) => forall x: Ev | x.pre == e.pre && x.sn == e.sn :: !At(states[i], 3, x)
      case Err(_) =>
        !At(states[i], 3, e) && exists x: Ev :: x != e && x.pre == e.pre && x.sn == e.sn && At(states[i], 3, x)
  {
    hide SealedBy;
    hide FullyReceipted;
    hide GetLast;
    if (e.pre, e.sn) in states[i].cdel {
      CompleteMeans(states, ops, worlds, i, e.pre, e.sn);
      assert At(states[i], 3, states[i].cdel[(e.pre, e.sn)]);
    }
  }

  /** The event was in its log, then receipted, then sealed. */
  ghost predicate Approved(seen: seq<World>, e: Ev) {
    exists a, b, c | 0 <= a < b < c < |seen| ::
      GetLast(seen[a], e.pre, e.sn) == Some(e) && FullyReceipted(seen[b], e) && SealedBy(seen[c], e)
  }

  lemma DoneIsApproved(s: State, seen: seq<World>, e: Ev)
    requires Justified(s, seen) && At(s, 3, e)
    ensures Approved(seen, e)
  {
    hide SealedBy;
    hide FullyReceipted;
    hide GetLast;
    assert seen[..|seen|] == seen;
    var d := Peel(3, seen, |seen|, e);
    var c := Peel(2, seen, d, e);
    var b := Peel(1, seen, c, e);
    var a := Peel(0, seen, b, e);
    assert GetLast(seen[a], e.pre, e.sn) == Some(e) && FullyReceipted(seen[b], e) && SealedBy(seen[c], e);
  }

  lemma Peel(k: nat, worlds: seq<World>, i: nat, e: Ev) returns (b: nat)
    requires i <= |worlds| && Reached(k, worlds[..i], e)
    ensures b < i && Reason(k, worlds[b], e) && (k > 0 ==> Reached(k - 1, worlds[..b], e))
  {
    hide Reason;
    b :| 0 <= b < i && Reason(k, worlds[..i][b], e) && (k == 0 || Reached(k - 1, worlds[..i][..b], e));
    assert worlds[..i][..b] == worlds[..b];
  }

  /** The event a call puts into the first escrow. */
  function Submitted(s: State, w: World, op: Op): Option<Ev> {
    if op.Submit? && Delegation(s, w, op.pre, op.sn, op.proxy).1 == Pass
    then GetLast(w, op.pre, if op.sn.Some? then op.sn.value else w.kevers[op.pre].last.sn) else None
  }

  /** e was submitted before call i. */
  ghost predicate WasSubmitted(states: seq<State>, ops: seq<Op>, worlds: seq<World>, i: nat, e: Ev)
    requires IsRun(states, ops, worlds) && i <= |ops|
  {
    exists j | 0 <= j < i :: Submitted(states[j], worlds[j], ops[j]) == Some(e)
  }

  /** Each event is submitted once, and one event at each number of a prefix. */
  ghost predicate OneEach(states: seq<State>, ops: seq<Op>, worlds: seq<World>)
    requires IsRun(states, ops, worlds)
  {
    forall j, l | 0 <= j < l < |ops| ::
      var e, f := Submitted(states[j], worlds[j], ops[j]), Submitted(states[l], worlds[l], ops[l]);
      e.Some? && f.Some? ==> (e.value.pre, e.value.sn) != (f.value.pre, f.value.sn)
  }

  /** The event is at stage k and at no other. */
  ghost predicate OnlyAt(s: State, k: nat, e: Ev) {
    k < 4 && At(s, k, e) && forall l: nat | l != k :: !At(s, l, e)
  }

  ghost predicate Nowhere(s: State, e: Ev) {
    forall l: nat :: !At(s, l, e)
  }

  lemma DoMoves(s: State, w: World, op: Op, x: Ev)
    requires Tidy(s) && (op.Process? ==> Lists(op.order, Table(s, op.phase)))
    ensures var s' := Do(s, w, op).0;
      || (Submitted(s, w, op) == Some(x) && At(s', 0, x) && forall k: nat | k != 0 :: At(s', k, x) <==> At(s, k, x))
      || (Submitted(s, w, op) != Some(x) && (Same(s, s', x) || (op.Process? && Moved(op.phase, s, s', x))))
  {
    match op
    case Submit(pre, sn, proxy) =>
      hide Tidy;
      hide GetLast;
    case Process(phase, order) =>
      hide Sweep;
      hide At;
      hide Kept;
      hide Reason;
      SweepMoves(phase, s, w, order, |order|, x);
  }

  /** What is at a stage was submitted. */
  lemma {:induction false} OnlySubmitted(states: seq<State>, ops: seq<Op>, worlds: seq<World>, i: nat, k: nat, e: Ev)
    requires IsRun(states, ops, worlds) && i <= |ops| && At(states[i], k, e)
    ensures WasSubmitted(states, ops, worlds, i, e)
  {
    hide At;
    hide Submitted;
    hide Do;
    hide Lists;
    if i == 0 {
      NothingYet(states[0]);
    } else {
      RunsJustified(states, ops, worlds, i - 1);
      DoMoves(states[i - 1], worlds[i - 1], ops[i - 1], e);
      if Submitted(states[i - 1], worlds[i - 1], ops[i - 1]) != Some(e) {
        var k': nat :| At(states[i - 1], k', e);
        OnlySubmitted(states, ops, worlds, i - 1, k', e);
      }
    }
  }

  lemma OnePerPlace(states: seq<State>, ops: seq<Op>, worlds: seq<World>, i: nat, e: Ev, x: Ev)
    requires IsRun(states, ops, worlds) && OneEach(states, ops, worlds) && i <= |ops|
    requires WasSubmitted(states, ops, worlds, i, e) && WasSubmitted(states, ops, worlds, i, x)
    requires e.pre == x.pre && e.sn == x.sn
    ensures e == x
  {
    hide Submitted;
    hide Do;
    hide Lists;
    var j :| 0 <= j < i && Submitted(states[j], worlds[j], ops[j]) == Some(e);
    var l :| 0 <= l < i && Submitted(states[l], worlds[l], ops[l]) == Some(x);
  }

  lemma NoRivals(states: seq<State>, ops: seq<Op>, worlds: seq<World>, i: nat, e: Ev)
    requires IsRun(states, ops, worlds) && OneEach(states, ops, worlds) && i <= |ops|
    requires WasSubmitted(states, ops, worlds, i, e)
    ensures !Rival(states[i], e)
  {
    hide Submitted;
    hide Do;
    hide Lists;
    if Rival(states[i], e) {
      var x := states[i].cdel[(e.pre, e.sn)];
      RunsJustified(states, ops, worlds, i);
      assert At(states[i], 3, x);
      OnlySubmitted(states, ops, worlds, i, 3, x);
      OnePerPlace(states, ops, worlds, i, e, x);
    }
  }

  /** A call leaves a submitted event where it is or takes it one stage on. */
  lemma StaysOrMoves(s: State, w: World, op: Op, k: nat, e: Ev)
    requires Tidy(s) && (op.Process? ==> Lists(op.order, Table(s, op.phase)))
    requires OnlyAt(s, k, e) && Submitted(s, w, op) != Some(e) && !Rival(Do(s, w, op).0, e)
    ensures OnlyAt(Do(s, w, op).0, k, e) || OnlyAt(Do(s, w, op).0, k + 1, e)
  {
    hide At;
    hide Submitted;
    hide Do;
    hide Lists;
    DoMoves(s, w, op, e);
  }

  lemma OnceOnly(states: seq<State>, ops: seq<Op>, worlds: seq<World>, i: nat, e: Ev)
    requires IsRun(states, ops, worlds) && OneEach(states, ops, worlds) && i < |ops|
    requires WasSubmitted(states, ops, worlds, i, e)
    ensures Submitted(states[i], worlds[i], ops[i]) != Some(e)
  {
    hide Submitted;
    hide Do;
    hide Lists;
  }

  /** With one submission each, every submitted event is at exactly one stage, and
      no other event is anywhere. */
  lemma {:induction false} ExactlyOne(states: seq<State>, ops: seq<Op>, worlds: seq<World>, i: nat, e: Ev)
    requires IsRun(states, ops, worlds) && OneEach(states, ops, worlds) && i <= |ops|
    ensures WasSubmitted(states, ops, worlds, i, e) ==> exists k: nat :: OnlyAt(states[i], k, e)
    ensures !WasSubmitted(states, ops, worlds, i, e) ==> Nowhere(states[i], e)
  {
    hide At;
    hide Submitted;
    hide Do;
    hide Lists;
    hide OneEach;
    hide Rival;
    if !WasSubmitted(states, ops, worlds, i, e) {
      forall k: nat ensures !At(states[i], k, e) {
        if At(states[i], k, e) { OnlySubmitted(states, ops, worlds, i, k, e); }
      }
    } else {
      var s, w, op := states[i - 1], worlds[i - 1], ops[i - 1];
      RunsJustified(states, ops, worlds, i - 1);
      if WasSubmitted(states, ops, worlds, i - 1, e) {
        ExactlyOne(states, ops, worlds, i - 1, e);
        var k: nat :| OnlyAt(s, k, e);
        NoRivals(states, ops, worlds, i, e);
        OnceOnly(states, ops, worlds, i - 1, e);
        StaysOrMoves(s, w, op, k, e);
      } else {
        forall k: nat ensures !At(s, k, e) {
          if At(s, k, e) { OnlySubmitted(states, ops, worlds, i - 1, k, e); }
        }
        DoMoves(s, w, op, e);
        assert OnlyAt(states[i], 0, e);
      }
    }
  }

  /** Call j publishes the event over another that is recorded at its place. */
  ghost predicate LostAt(states: seq<State>, j: nat, e: Ev)
    requires j + 1 < |states|
  {
    OnlyAt(states[j], 2, e) && e !in states[j + 1].dpub && Rival(states[j + 1], e)
  }

  /** The event is not submitted again from call j on and before call i. */
  ghost predicate NotAgain(states: seq<State>, ops: seq<Op>, worlds: seq<World>, j: nat, i: nat, e: Ev)
    requires IsRun(states, ops, worlds) && i <= |ops|
  {
    forall l | j <= l < i :: Submitted(states[l], worlds[l], ops[l]) != Some(e)
  }

  /** An event that is somewhere is nowhere after a call just when the call publishes it
      over another. */
  lemma LosesStep(states: seq<State>, ops: seq<Op>, worlds: seq<World>, i: nat, e: Ev)
    requires IsRun(states, ops, worlds) && i < |ops| && !Nowhere(states[i], e)
    ensures Nowhere(states[i + 1], e) <==> LostAt(states, i, e)
    ensures LostAt(states, i, e) ==> Submitted(states[i], worlds[i], ops[i]) != Some(e)
  {
    hide Submitted;
    hide Do;
    hide Lists;
    var s, s' := states[i], states[i + 1];
    RunsJustified(states, ops, worlds, i);
    hide Justified;
    DoMoves(s, worlds[i], ops[i], e);
    RecordsKept(s, worlds[i], ops[i]);
    assert At(s', 2, e) <==> e in s'.dpub;
    assert At(s, 3, e) ==> At(s', 3, e);
    assert Rival(s', e) ==> !At(s', 3, e);
  }

  lemma RecordsKept(s: State, w: World, op: Op)
    requires Tidy(s) && (op.Process? ==> Lists(op.order, Table(s, op.phase)))
    ensures Kept(s, Do(s, w, op).0)
  {
    match op
    case Submit(pre, sn, proxy) => SubmitMoves(s, w, pre, sn, proxy);
    case Process(phase, order) =>
      hide Sweep;
      SweepMoves(phase, s, w, order, |order|, Ev(0, 0, 0, false));
  }

  lemma {:induction false} LostWhen(states: seq<State>, ops: seq<Op>, worlds: seq<World>, i: nat, e: Ev)
    requires IsRun(states, ops, worlds) && i <= |ops| && WasSubmitted(states, ops, worlds, i, e)
    ensures Nowhere(states[i], e) <==>
      exists j | 0 <= j < i :: LostAt(states, j, e) && NotAgain(states, ops, worlds, j, i, e)
  {
    hide Submitted;
    hide Do;
    hide Lists;
    hide At;
    hide LostAt;
    hide Tidy;
    var s, w, op := states[i - 1], worlds[i - 1], ops[i - 1];
    RunsJustified(states, ops, worlds, i - 1);
    hide Reached;
    DoMoves(s, w, op, e);
    if Submitted(s, w, op) == Some(e) {
    } else {
      assert WasSubmitted(states, ops, worlds, i - 1, e);
      LostWhen(states, ops, worlds, i - 1, e);
      if !Nowhere(s, e) { LosesStep(states, ops, worlds, i - 1, e); }
    }
  }

  lemma {:induction false} LostToRival(states: seq<State>, ops: seq<Op>, worlds: seq<World>, i: nat, e: Ev)
    requires IsRun(states, ops, worlds) && i <= |ops| && WasSubmitted(states, ops, worlds, i, e)
    requires Nowhere(states[i], e)
    ensures Rival(states[i], e)
  {
    hide Submitted;
    hide Do;
    hide Lists;
    hide At;
    hide LostAt;
    hide Kept;
    hide Rival;
    var s, w, op := states[i - 1], worlds[i - 1], ops[i - 1];
    RunsJustified(states, ops, worlds, i - 1);
    hide Justified;
    if Submitted(s, w, op) == Some(e) {
      DoMoves(s, w, op, e);
    } else if Nowhere(s, e) {
      assert WasSubmitted(states, ops, worlds, i - 1, e);
      LostToRival(states, ops, worlds, i - 1, e);
      RecordsKept(s, w, op);
      RivalKept(s, states[i], e);
    } else {
      LosesStep(states, ops, worlds, i - 1, e);
      LostRival(states, i - 1, e);
    }
  }

  /** In every run, an event that was submitted is in no escrow and not recorded just
      when it was published over another event recorded at its place and has not been
      submitted again since; that other event was submitted too, and is recorded. */
  lemma PublicationLoses(states: seq<State>, ops: seq<Op>, worlds: seq<World>, i: nat, e: Ev)
    requires IsRun(states, ops, worlds) && i <= |ops| && WasSubmitted(states, ops, worlds, i, e)
    ensures Nowhere(states[i], e) <==>
      exists j | 0 <= j < i :: LostAt(states, j, e) && NotAgain(states, ops, worlds, j, i, e)
    ensures Nowhere(states[i], e) ==>
      Rival(states[i], e) && WasSubmitted(states, ops, worlds, i, states[i].cdel[(e.pre, e.sn)])
  {
    hide Submitted;
    hide Do;
    hide Lists;
    hide At;
    hide LostAt;
    LostWhen(states, ops, worlds, i, e);
    if Nowhere(states[i], e) {
      LostToRival(states, ops, worlds, i, e);
      RunsJustified(states, ops, worlds, i);
      TidyAt(states[i], e.pre, e.sn);
      OnlySubmitted(states, ops, worlds, i, 3, states[i].cdel[(e.pre, e.sn)]);
    }
  }

  lemma RivalKept(s: State, s': State, e: Ev)
    requires Kept(s, s') && Rival(s, e)
    ensures Rival(s', e)
  {
  }

  lemma LostRival(states: seq<State>, j: nat, e: Ev)
    requires j + 1 < |states| && LostAt(states, j, e)
    ensures Rival(states[j + 1], e)
  {
  }

  /** It only moves forward. */
  lemma {:induction false} OnlyForward(states: seq<State>, ops: seq<Op>, worlds: seq<World>,
                                       i: nat, j: nat, k: nat, l: nat, e: Ev)
    requires IsRun(states, ops, worlds) && OneEach(states, ops, worlds) && i <= j <= |ops|
    requires At(states[i], k, e) && At(states[j], l, e)
    ensures k <= l
  {
    hide At;
    hide Submitted;
    hide Do;
    hide Lists;
    hide OneEach;
    hide Rival;
    hide Tidy;
    OnlySubmitted(states, ops, worlds, i, k, e);
    ExactlyOne(states, ops, worlds, i, e);
    if i >= j {
    } else {
      assert WasSubmitted(states, ops, worlds, j - 1, e);
      assert WasSubmitted(states, ops, worlds, j, e);
      ExactlyOne(states, ops, worlds, j - 1, e);
      var m: nat :| OnlyAt(states[j - 1], m, e);
      OnlyForward(states, ops, worlds, i, j - 1, k, m, e);
      RunsJustified(states, ops, worlds, j - 1);
      NoRivals(states, ops, worlds, j, e);
      OnceOnly(states, ops, worlds, j - 1, e);
      StaysOrMoves(states[j - 1], worlds[j - 1], ops[j - 1], m, e);
    }
  }
}
