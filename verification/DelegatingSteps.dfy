/** Which events a pass of the escrows of app/delegating.py takes on, which exception
    ends it, and what a submission does: each in full. */
module DelegatingSteps {
  import opened Results
  import opened Delegating
  import opened DelegatingLaws

  /** The prefix has a key state, with a delegator that has one. */
  predicate HasDelegator(w: World, pre: Pre) {
    pre in w.kevers && w.kevers[pre].delpre.Some? && w.kevers[pre].delpre.value in w.kevers
  }

  /** The Hab is local, there are as many receipts as witnesses, and the Receiptor has
      reported the event if there are any. */
  predicate IsReceipted(w: World, e: Ev) {
    && e.pre in w.kevers && e.pre in w.habs
    && (if w.kevers[e.pre].wits == 0 then e in w.wigs ==> w.wigs[e] == {}
        else e in w.wigs && |w.wigs[e]| == w.kevers[e.pre].wits && (e.pre, e.sn) in w.cues)
  }

  /** Some entry of the delegator's log seals the event. */
  ghost predicate IsSealed(w: World, e: Ev) {
    HasDelegator(w, e.pre) && exists sn: nat :: Seals(w, w.kevers[e.pre].delpre.value, sn, e)
  }

  /** The event goes to the delegator: by the member of a group, or by a proxy. */
  predicate Sends(s: State, w: World, e: Ev) {
    IsReceipted(w, e) && HasDelegator(w, e.pre) && (w.habs[e.pre].group || s.proxied)
  }

  /** The event is taken on by the phase; a publication depends on the ones before it. */
  ghost predicate Goes(phase: Phase, s: State, w: World, e: Ev) {
    match phase
    case Witness => Sends(s, w, e)
    case Unanchored => IsSealed(w, e) && (e.pre in s.publishers ==> e.pre in w.habs)
    case Publication => e.pre in s.publishers && e.pre in w.idle
  }

  /** The exception the event raises, if any. */
  ghost function Raises(phase: Phase, s: State, w: World, e: Ev): Option<Error> {
    match phase
    case Witness =>
      if e.pre !in w.kevers then Some(KeyError)
      else if !IsReceipted(w, e) then None
      else if !HasDelegator(w, e.pre) then Some(KeyError)
      else if !w.habs[e.pre].group && !s.proxied then Some(ValidationError) else None
    case Unanchored =>
      if !HasDelegator(w, e.pre) || (IsSealed(w, e) && e.pre in s.publishers && e.pre !in w.habs)
      then Some(KeyError) else None
    case Publication => None
  }

  /** An event with the receipts of all its witnesses leaves the first escrow for the second
      and is sent to the delegator exactly when it can be sent; otherwise nothing
      changes. */
  lemma WitnessStep(s: State, w: World, e: Ev)
    ensures Item(Witness, s, w, e) ==
      if Sends(s, w, e)
      then (s.(sent := s.sent + [e], dpwe := s.dpwe - {e}, dune := s.dune + {e}), Pass)
      else (s, if Raises(Witness, s, w, e).None? then Pass else Fail(Raises(Witness, s, w, e).value))
  {
    if e.pre in w.kevers && w.kevers[e.pre].wits == 0 { NoneIsEmpty(Wigs(w, e)); }
  }

  lemma NoneIsEmpty(s: set<nat>)
    ensures |s| == 0 <==> s == {}
  {
  }

  /** A sealed event leaves the second escrow for the third exactly when its publisher is
      that of a local Hab or there is none; otherwise the escrows stay.  The seal is
      recorded under the latest event of the prefix in either case. */
  lemma UnanchoredStep(s: State, w: World, e: Ev)
    ensures var (s', r) := Item(Unanchored, s, w, e);
      && r == (if Raises(Unanchored, s, w, e).None? then Pass else Fail(Raises(Unanchored, s, w, e).value))
      && s' == (if Goes(Unanchored, s, w, e) then s.(dpub := s.dpub + {e}, dune := s.dune - {e}, aess := s'.aess)
                else s.(aess := s'.aess))
      && (if !IsSealed(w, e) then s'.aess == s.aess
          else var k := (e.pre, w.kevers[e.pre].last); k in s'.aess && s'.aess == s.aess[k := s'.aess[k]])
  {
    if HasDelegator(w, e.pre) { SealedMeans(w, e); }
    hide Seals;
    hide Sealing;
  }

  /** An event leaves the third escrow exactly when its publisher is there and idle: the
      publisher goes, and the event is recorded unless its place is taken. */
  lemma PublicationStep(s: State, w: World, e: Ev)
    ensures Item(Publication, s, w, e) ==
      (if Goes(Publication, s, w, e)
       then s.(publishers := s.publishers - {e.pre}, dpub := s.dpub - {e},
               cdel := map[(e.pre, e.sn) := e] + s.cdel)
       else s, Pass)
  {
    if (e.pre, e.sn) in s.cdel { assert map[(e.pre, e.sn) := e] + s.cdel == s.cdel; }
    assert (e.pre, e.sn) !in s.cdel ==> map[(e.pre, e.sn) := e] + s.cdel == s.cdel[(e.pre, e.sn) := e];
  }

  /** How many of the first n events come before the first that raises. */
  ghost function Clean(phase: Phase, s: State, w: World, order: seq<Ev>, n: nat): (k: nat)
    requires n <= |order|
    ensures k <= n && (forall i | 0 <= i < k :: Raises(phase, s, w, order[i]).None?)
    ensures k < n ==> Raises(phase, s, w, order[k]).Some?
  {
    if n == 0 then 0 else
    var k := Clean(phase, s, w, order, n - 1);
    if k == n - 1 && Raises(phase, s, w, order[n - 1]).None? then n else k
  }

  /** Those of the first n events that are taken on, in their order. */
  ghost function Going(phase: Phase, s: State, w: World, order: seq<Ev>, n: nat): (es: seq<Ev>)
    requires n <= |order|
    ensures forall e :: e in es <==> e in order[..n] && Goes(phase, s, w, e)
  {
    if n == 0 then [] else
    assert order[..n] == order[..n - 1] + [order[n - 1]];
    Going(phase, s, w, order, n - 1) + if Goes(phase, s, w, order[n - 1]) then [order[n - 1]] else []
  }

  lemma GoingNext(phase: Phase, s: State, w: World, order: seq<Ev>, n: nat)
    requires 0 < n <= |order|
    ensures var es, e := Going(phase, s, w, order, n - 1), order[n - 1];
      Going(phase, s, w, order, n) == if Goes(phase, s, w, e) then es + [e] else es
  {
    hide Goes;
    var es := Going(phase, s, w, order, n - 1);
    assert es + [] == es;
  }

  ghost function Whole(es: seq<Ev>): set<Ev> { set e | e in es }

  lemma WholeSnoc(es: seq<Ev>, e: Ev, a: set<Ev>)
    ensures a + Whole(es + [e]) == a + Whole(es) + {e}
    ensures a - Whole(es + [e]) == a - Whole(es) - {e}
  {
  }

  lemma NothingGoes(s: State)
    ensures s.sent + [] == s.sent && s.dpwe - Whole([]) == s.dpwe
    ensures s.dune + Whole([]) == s.dune && s.dune - Whole([]) == s.dune && s.dpub + Whole([]) == s.dpub
  {
  }

  lemma SameProxy(s: State, s1: State, w: World, e: Ev)
    requires s1.proxied == s.proxied && s1.publishers == s.publishers
    ensures Sends(s1, w, e) == Sends(s, w, e)
    ensures forall phase :: Goes(phase, s1, w, e) == Goes(phase, s, w, e)
    ensures forall phase :: Raises(phase, s, w, e).Some? ==> !Goes(phase, s, w, e)
    ensures forall phase :: Raises(phase, s1, w, e) == Raises(phase, s, w, e)
  {
    hide Seals;
  }

  /** The state after these events have been sent, and after they have been found sealed. */
  ghost function Sent(s: State, es: seq<Ev>): State {
    s.(dpwe := s.dpwe - Whole(es), dune := s.dune + Whole(es), sent := s.sent + es)
  }

  ghost function FoundSealed(s: State, es: seq<Ev>, aess: map<(Pre, Ev), Ev>): State {
    s.(dune := s.dune - Whole(es), dpub := s.dpub + Whole(es), aess := aess)
  }

  /** How a pass over the first n events ends: with the exception of the first that
      raises, if any. */
  ghost function Ending(phase: Phase, s: State, w: World, order: seq<Ev>, n: nat): Outcome
    requires n <= |order|
  {
    var k := Clean(phase, s, w, order, n);
    if k == n then Pass else Fail(Raises(phase, s, w, order[k]).value)
  }

  lemma WitnessOnward(s: State, es: seq<Ev>, w: World, e: Ev)
    ensures Item(Witness, Sent(s, es), w, e) ==
      if Raises(Witness, s, w, e).Some? then (Sent(s, es), Fail(Raises(Witness, s, w, e).value))
      else (Sent(s, if Goes(Witness, s, w, e) then es + [e] else es), Pass)
  {
    hide Item;
    hide Whole;
    WitnessStep(Sent(s, es), w, e);
    SameProxy(s, Sent(s, es), w, e);
    hide Raises;
    hide Sends;
    WholeSnoc(es, e, s.dune);
    WholeSnoc(es, e, s.dpwe);
    assert s.sent + (es + [e]) == s.sent + es + [e];
  }

  /** A pass over the first escrow: up to the first event that raises, exactly the events
      that can be sent are sent, in order, and wait for their seal; the exception of
      that event ends the pass. */
  lemma {:induction false} WitnessPass(s: State, w: World, order: seq<Ev>, n: nat)
    requires n <= |order|
    ensures Sweep(Witness, s, w, order, n) ==
      (Sent(s, Going(Witness, s, w, order, Clean(Witness, s, w, order, n))), Ending(Witness, s, w, order, n))
  {
    hide Goes;
    hide Raises;
    hide Item;
    hide Going;
    if n == 0 {
      hide Whole;
      GoingNone(Witness, s, w, order);
      NothingGoes(s);
    } else {
      hide Sent;
      WitnessPass(s, w, order, n - 1);
      if Clean(Witness, s, w, order, n - 1) == n - 1 {
        WitnessOnward(s, Going(Witness, s, w, order, n - 1), w, order[n - 1]);
        GoingNext(Witness, s, w, order, n);
      }
    }
  }

  lemma GoingNone(phase: Phase, s: State, w: World, order: seq<Ev>)
    ensures Going(phase, s, w, order, 0) == []
  {
  }

  lemma UnanchoredOnward(s: State, es: seq<Ev>, aess: map<(Pre, Ev), Ev>, w: World, e: Ev)
    ensures var (s', r) := Item(Unanchored, FoundSealed(s, es, aess), w, e);
      if Raises(Unanchored, s, w, e).Some? then
        s' == FoundSealed(s, es, s'.aess) && r == Fail(Raises(Unanchored, s, w, e).value)
      else
        s' == FoundSealed(s, if Goes(Unanchored, s, w, e) then es + [e] else es, s'.aess) && r == Pass
  {
    hide Item;
    hide Whole;
    hide IsSealed;
    UnanchoredStep(FoundSealed(s, es, aess), w, e);
    SameProxy(s, FoundSealed(s, es, aess), w, e);
    hide Raises;
    hide Goes;
    WholeSnoc(es, e, s.dpub);
    WholeSnoc(es, e, s.dune);
  }

  /** How a pass over the first n events of the second escrow leaves the state. */
  ghost predicate PassesUnanchored(s: State, w: World, order: seq<Ev>, n: nat, s': State, r: Outcome)
    requires n <= |order|
  {
    && s' == FoundSealed(s, Going(Unanchored, s, w, order, Clean(Unanchored, s, w, order, n)), s'.aess)
    && r == Ending(Unanchored, s, w, order, n)
  }

  /** A pass over the second escrow: up to the first event that raises, exactly the sealed
      events go on. */
  lemma {:induction false} UnanchoredPass(s: State, w: World, order: seq<Ev>, n: nat)
    requires n <= |order|
    ensures var (s', r) := Sweep(Unanchored, s, w, order, n); PassesUnanchored(s, w, order, n, s', r)
  {
    hide Goes;
    hide Raises;
    hide Item;
    hide Going;
    if n == 0 {
      hide Whole;
      GoingNone(Unanchored, s, w, order);
      NothingGoes(s);
    } else {
      hide FoundSealed;
      UnanchoredPass(s, w, order, n - 1);
      if Clean(Unanchored, s, w, order, n - 1) == n - 1 {
        var es := Going(Unanchored, s, w, order, n - 1);
        UnanchoredOnward(s, es, Sweep(Unanchored, s, w, order, n - 1).0.aess, w, order[n - 1]);
        GoingNext(Unanchored, s, w, order, n);
      }
    }
  }

  /** The event at i is published: its publisher is there and idle, and no earlier event
      of the prefix has taken it. */
  ghost predicate Published(s: State, w: World, order: seq<Ev>, i: nat)
    requires i < |order|
  {
    Goes(Publication, s, w, order[i]) && forall j | 0 <= j < i :: order[j].pre != order[i].pre
  }

  /** A publisher goes with the first event of its prefix, if it is idle. */
  lemma {:induction false} PublicationPublishers(s: State, w: World, order: seq<Ev>, n: nat)
    requires n <= |order|
    ensures var (s', r) := Sweep(Publication, s, w, order, n);
      && r == Pass
      && s' == s.(dpub := s'.dpub, cdel := s'.cdel, publishers := s'.publishers)
      && (forall pre :: pre in s'.publishers <==>
            pre in s.publishers && (pre in w.idle ==> forall i | 0 <= i < n :: order[i].pre != pre))
  {
    hide Item;
    if n == 0 {
    } else {
      PublicationPublishers(s, w, order, n - 1);
      PublicationStep(Sweep(Publication, s, w, order, n - 1).0, w, order[n - 1]);
    }
  }

  lemma PublicationNext(s: State, w: World, order: seq<Ev>, n: nat)
    requires 0 < n <= |order|
    ensures var s1, s' := Sweep(Publication, s, w, order, n - 1).0, Sweep(Publication, s, w, order, n).0;
      var e := order[n - 1];
      if Published(s, w, order, n - 1)
      then s'.dpub == s1.dpub - {e} && s'.cdel == map[(e.pre, e.sn) := e] + s1.cdel
      else s'.dpub == s1.dpub && s'.cdel == s1.cdel
  {
    hide Item;
    PublicationPublishers(s, w, order, n - 1);
    PublicationStep(Sweep(Publication, s, w, order, n - 1).0, w, order[n - 1]);
  }

  /** A pass over the third escrow never fails, and an event goes exactly when it is
      published. */
  lemma {:induction false} PublicationPass(s: State, w: World, order: seq<Ev>, n: nat)
    requires n <= |order|
    ensures var (s', r) := Sweep(Publication, s, w, order, n);
      && r == Pass
      && forall e :: e in s'.dpub <==>
           e in s.dpub && forall i | 0 <= i < n && order[i] == e :: !Published(s, w, order, i)
  {
    hide Sweep;
    hide Published;
    PublicationPublishers(s, w, order, n);
    if n == 0 {
      NoSweep(s, w, order);
    } else {
      PublicationPass(s, w, order, n - 1);
      PublicationNext(s, w, order, n);
    }
  }

  lemma OnePublished(s: State, w: World, order: seq<Ev>, i: nat, j: nat)
    requires i < j < |order| && Published(s, w, order, i) && Published(s, w, order, j)
    ensures order[i].pre != order[j].pre
  {
    hide Goes;
  }

  /** What it publishes is recorded at its number, if nothing was recorded there before; no
      other record is made and none is changed. */
  lemma {:induction false} PublicationRecords(s: State, w: World, order: seq<Ev>, n: nat)
    requires n <= |order|
    ensures var s' := Sweep(Publication, s, w, order, n).0;
      && (forall i | 0 <= i < n && Published(s, w, order, i) ::
            var k := (order[i].pre, order[i].sn);
            k in s'.cdel && s'.cdel[k] == if k in s.cdel then s.cdel[k] else order[i])
      && (forall k | k in s.cdel :: k in s'.cdel && s'.cdel[k] == s.cdel[k])
      && (forall k | k in s'.cdel && k !in s.cdel ::
            exists i | 0 <= i < n :: Published(s, w, order, i) && k == (order[i].pre, order[i].sn))
  {
    hide Sweep;
    hide Published;
    if n == 0 {
      NoSweep(s, w, order);
    } else {
      PublicationRecords(s, w, order, n - 1);
      PublicationNext(s, w, order, n);
      if Published(s, w, order, n - 1) {
        forall i | 0 <= i < n - 1 && Published(s, w, order, i) ensures order[i].pre != order[n - 1].pre {
          OnePublished(s, w, order, i, n - 1);
        }
      }
    }
  }

  lemma NoSweep(s: State, w: World, order: seq<Ev>)
    ensures Sweep(Publication, s, w, order, 0) == (s, Pass)
  {
  }

  /** A submission passes exactly when the prefix is a local Hab with a known delegator and
      an event at the number asked for, the latest by default: that event then waits
      for its receipts.  A publisher is made for a local Hab in any case, and a proxy
      kept. */
  lemma DelegationStep(s: State, w: World, pre: Pre, sn: Option<nat>, proxy: bool)
    ensures var (s', r) := Delegation(s, w, pre, sn, proxy);
      && (r == Pass <==>
            && pre in w.habs && HasDelegator(w, pre) && pre in w.kels
            && (if sn.Some? then sn.value else w.kevers[pre].last.sn) < |w.kels[pre]|)
      && (r == Pass ==>
            var n := if sn.Some? then sn.value else w.kevers[pre].last.sn;
            var e := Ev(pre, n, w.kels[pre][n].body, w.kels[pre][n].delegated);
            s' == s.(dpwe := s.dpwe + {e}, publishers := s.publishers + {pre}, proxied := s.proxied || proxy))
      && (r != Pass ==>
            s' == if pre in w.habs then s.(publishers := s.publishers + {pre}, proxied := s.proxied || proxy) else s)
      && (r != Pass ==>
            r == Fail(if pre in w.habs && pre !in w.kevers then AttributeError
                      else if pre in w.habs && HasDelegator(w, pre) then MissingEntryError else ValidationError))
  {
  }
}
