/** What Hab.rotate keeps: the key store in step with the key event log, over
    every run, whatever becomes of each event. */
module HabbingLaws {
  import opened Collections
  import opened Results
  import opened Keeping
  import opened KeepingLaws
  import opened KeepingRuns
  import opened Habbing

  /** The key store stands at the lot whose keys the last event of the log declares,
      that event commits to the next lot, every private key from the previous lot
      on is there and none before it. */
  ghost predicate InStepAt(h: State, prm: PrePrm, lots: seq<PubLot>, k: nat, n: nat) {
    && h.kel != [] && k <= |lots| && Chain(lots, prm, k) && StandsAt(h.st, h.pre, prm, lots, n)
    && NoneHeld(h.st, lots, n - 1)
    && h.kel[|h.kel| - 1].keys == lots[n].pubs
    && h.kel[|h.kel| - 1].ndigs == Digests(lots[n + 1].pubs)
  }

  ghost predicate InStep(h: State) {
    exists prm, lots, k, n :: InStepAt(h, prm, lots, k, n)
  }

  /** Every event of the log but the first reveals the keys the one before it
      committed to. */
  ghost predicate Committed(kel: seq<Event>) {
    forall i | 0 < i < |kel| :: kel[i - 1].ndigs == Digests(kel[i].keys)
  }

  /** The positions 0 to n - 1. */
  function UpTo(n: nat): seq<nat> { seq(n, i => i) }

  lemma {:induction false} IndicesOfPrefix(pubs: seq<Pub>, n: nat)
    requires n <= |pubs|
    ensures Indices(Digests(pubs)[..n], pubs) == UpTo(n)
  {
    if n == 0 {
    } else {
      IndicesOfPrefix(pubs, n - 1);
      assert Digests(pubs)[..n][..n - 1] == Digests(pubs)[..n - 1];
      assert Digests(pubs)[n - 1] in Digests(pubs);
    }
  }

  /** Keys that were committed to in full are found at every position. */
  lemma {:induction false} IndicesComplete(pubs: seq<Pub>)
    ensures Indices(Digests(pubs), pubs) == UpTo(|pubs|)
  {
    IndicesOfPrefix(pubs, |pubs|);
    assert Digests(pubs)[..|pubs|] == Digests(pubs);
  }

  /** Some set of positions below n meets the threshold. */
  predicate Reachable(quorums: set<set<nat>>, n: nat) {
    exists q | q in quorums :: forall i | i in q :: i < n
  }

  lemma CompleteSatisfies(quorums: set<set<nat>>, n: nat)
    ensures Satisfied(quorums, UpTo(n)) <==> Reachable(quorums, n)
  {
    assert forall i: nat :: i in UpTo(n) <==> i < n by {
      forall i: nat | i < n ensures i in UpTo(n) {
        assert UpTo(n)[i] == i;
      }
    }
  }

  /** The lots after an advance: a lot is made only at the end of the list. */
  function Grown(prm: PrePrm, lots: seq<PubLot>, n: nat, ncount: nat): seq<PubLot> {
    if n + 2 < |lots| then lots else lots + [NextLot(prm, lots, ncount)]
  }

  /** An advance can be made: there are keys to reveal, or a later lot. */
  predicate CanAdvance(lots: seq<PubLot>, n: nat, ncount: int) {
    n + 2 < |lots| || (n + 2 == |lots| && lots[n + 1].pubs != [] && ncount >= 0)
  }

  lemma {:induction false} GrownChain(prm: PrePrm, lots: seq<PubLot>, k: nat, n: nat, ncount: nat)
    requires Chain(lots, prm, k) && k <= |lots|
    ensures Chain(Grown(prm, lots, n, ncount), prm, k)
    ensures lots <= Grown(prm, lots, n, ncount)
  {
    hide Chain;
    hide NextLot;
    ChainExtends(lots, prm, k, ncount);
  }

  /** An advance answers the keys of the next lot and the digests of the one after
      it, or fails and changes nothing. */
  lemma AdvanceIs(st: Store, pre: Pub, prm: PrePrm, lots: seq<PubLot>, n: nat, k: nat, ncount: int)
    requires StandsAt(st, pre, prm, lots, n) && Chain(lots, prm, k)
    ensures Advance(st, pre, ncount) ==
      if CanAdvance(lots, n, ncount) then
        var lots' := Grown(prm, lots, n, if ncount < 0 then 0 else ncount);
        (Stepped(st, pre, lots', n, |lots|, false), Ok((lots'[n + 1].pubs, Digests(lots'[n + 2].pubs))))
      else (st, Err(ValueError))
  {
    hide AllHeld;
    hide Replay;
    hide NextLot;
    hide Stepped;
    hide Digests;
    ReplayIs(st, pre, prm, lots, n, k, false);
    if n + 2 == |lots| {
      if lots[n + 1].pubs != [] && ncount >= 0 {
        hide Rotate;
        RotateIs(st, pre, prm, lots, n, k, ncount, false);
      }
    }
  }

  /** Erasing the previous lot after the step is a step that erases. */
  lemma EraseAfter(st: Store, pre: Pub, lots: seq<PubLot>, n: nat, m: nat)
    requires n + 2 < |lots| && m <= |lots|
    ensures var st1 := Stepped(st, pre, lots, n, m, false);
      st1.(pris := st1.pris - ToSet(Before(lots, n).pubs)) == Stepped(st, pre, lots, n, m, true)
  {
  }

  /** Pinning the situation back leaves the store at the lot it was at, with the
      lot made meanwhile still on the list. */
  lemma {:induction false} RolledBack(st: Store, pre: Pub, prm: PrePrm, lots: seq<PubLot>, k: nat, n: nat, m: nat)
    requires Chain(lots, prm, k) && n + 2 < |lots| && m <= |lots| <= m + 1 && n + 1 < m
    requires StandsAt(st, pre, prm, lots[..m], n) && NoneHeld(st, lots[..m], n - 1)
    ensures var st1 := Stepped(st, pre, lots, n, m, false); var st' := st1.(sits := st1.sits[pre := st.sits[pre]]);
      && StandsAt(st', pre, prm, lots, n) && NoneHeld(st', lots, n - 1) && OthersKept(st, st', pre)
  {
    hide Chain;
    hide Listed;
    hide AllHeld;
    hide NoneHeld;
    hide OthersKept;
    hide ToSet;
    var st1 := Stepped(st, pre, lots, n, m, false);
    var st' := st1.(sits := st1.sits[pre := st.sits[pre]]);
    ListedAfterStep(st, st', pre, lots, m);
    KeysAfterRollback(st, st', lots, prm, k, n, m);
    OthersAfterStep(st, st', pre, m);
    if n > 0 {
      assert lots[..m][n - 1] == lots[n - 1];
    }
    assert lots[..m][n] == lots[n] && lots[..m][n + 1] == lots[n + 1];
  }

  lemma {:induction false} KeysAfterRollback(st: Store, st': Store, lots: seq<PubLot>, prm: PrePrm,
                                             k: nat, n: nat, m: nat)
    requires Chain(lots, prm, k) && n + 1 < m <= |lots| <= m + 1
    requires AllHeld(st, lots[..m], if n == 0 then 0 else n - 1) && NoneHeld(st, lots[..m], n - 1)
    requires st'.pris == st.pris + (if m < |lots| then ToSet(lots[m].pubs) else {}) - {}
    ensures AllHeld(st', lots, if n == 0 then 0 else n - 1) && NoneHeld(st', lots, n - 1)
  {
    hide Chain;
    if m < |lots| {
      LotsApart(lots, prm, k, m);
    }
    var from := if n == 0 then 0 else n - 1;
    forall j, i | from <= j < |lots| && 0 <= i < |lots[j].pubs| ensures lots[j].pubs[i] in st'.pris {
      assert j < m ==> lots[..m][j] == lots[j];
    }
    forall j, i | 0 <= j < n - 1 && 0 <= i < |lots[j].pubs| ensures lots[j].pubs[i] !in st'.pris {
      assert lots[..m][j] == lots[j];
    }
  }

  /** The number of next keys Hab.rotate asks for. */
  function Asked(h: State, ncount: Option<int>): int
    requires h.kel != []
  {
    if ncount.None? then |h.kel[|h.kel| - 1].ndigs| else ncount.value
  }

  /** What Hab.rotate does to a Hab in step.  When no event can be made it raises
      and changes nothing.  The check of the prior next keys always finds all of
      them.  When the event is refused the Hab is in step where it was; when it
      is accepted it is in step one lot on.  Other prefixes are left alone. */
  lemma {:induction false} RotateHabIs(h: State, prm: PrePrm, lots: seq<PubLot>, k: nat, n: nat,
                    ncount: Option<int>, quorums: set<set<nat>>, verdict: Verdict)
    requires InStepAt(h, prm, lots, k, n)
    ensures var (h', r) := RotateHab(h, ncount, quorums, verdict);
      var kever := h.kel[|h.kel| - 1]; var asked := Asked(h, ncount);
      if !CanAdvance(lots, n, asked) then
        h' == h && r == Fail(ValueError)
      else
        var lots' := Grown(prm, lots, n, if asked < 0 then 0 else asked);
        && Chain(lots', prm, k) && lots <= lots' && n + 2 < |lots'|
        && Indices(kever.ndigs, lots'[n + 1].pubs) == UpTo(|kever.ndigs|)
        && h'.pre == h.pre && OthersKept(h.st, h'.st, h.pre)
        && if verdict == Refused || !Reachable(kever.quorums, |kever.ndigs|) then
             r == Fail(ValidationError) && h'.kel == h.kel && InStepAt(h', prm, lots', k, n)
           else
             && r == Pass
             && h'.kel == h.kel + (if verdict == Accepted
                                   then [Event(lots'[n + 1].pubs, Digests(lots'[n + 2].pubs), quorums)] else [])
             && StandsAt(h'.st, h.pre, prm, lots', n + 1) && NoneHeld(h'.st, lots', n)
  {
    hide StandsAt;
    hide NoneHeld;
    hide OthersKept;
    hide Chain;
    hide Advance;
    hide Stepped;
    hide Digests;
    hide Indices;
    hide Satisfied;
    hide Reachable;
    hide NextLot;
    hide UpTo;
    var asked := Asked(h, ncount);
    var kever := h.kel[|h.kel| - 1];
    AdvanceIs(h.st, h.pre, prm, lots, n, k, asked);
    if CanAdvance(lots, n, asked) {
      var lots' := Grown(prm, lots, n, if asked < 0 then 0 else asked);
      GrownChain(prm, lots, k, n, if asked < 0 then 0 else asked);
      assert lots'[..|lots|] == lots;
      StandsSits(h.st, h.pre, prm, lots, n);
      DigestsSize(lots[n + 1].pubs);
      IndicesComplete(lots[n + 1].pubs);
      CompleteSatisfies(kever.quorums, |kever.ndigs|);
      RolledBack(h.st, h.pre, prm, lots', k, n, |lots|);
      EraseAfter(h.st, h.pre, lots', n, |lots|);
      StepForward(h.st, Stepped(h.st, h.pre, lots', n, |lots|, true), h.pre, prm, lots', n, k, |lots|, true);
    }
  }

  lemma StandsSits(st: Store, pre: Pub, prm: PrePrm, lots: seq<PubLot>, n: nat)
    requires StandsAt(st, pre, prm, lots, n)
    ensures n + 1 < |lots| && pre in st.sits && st.sits[pre] == PreSit(Before(lots, n), lots[n], lots[n + 1])
  {
  }

  lemma DigestsSize(pubs: seq<Pub>)
    ensures |Digests(pubs)| == |pubs|
  {
  }

  /** Hab.rotate keeps a Hab in step, unless the event is made, its prior next
      threshold is met and MissingSignatureError is dropped: then the key store
      has moved on and the log has not, and the Hab is not in step any more. */
  lemma RotateHabKeepsStep(h: State, prm: PrePrm, lots: seq<PubLot>, k: nat, n: nat,
                           ncount: Option<int>, quorums: set<set<nat>>, verdict: Verdict)
    requires InStepAt(h, prm, lots, k, n) && lots[n].pubs != []
    ensures var kever := h.kel[|h.kel| - 1];
      InStep(RotateHab(h, ncount, quorums, verdict).0) <==>
        !(verdict == Swallowed && CanAdvance(lots, n, Asked(h, ncount)) && Reachable(kever.quorums, |kever.ndigs|))
  {
    hide StandsAt;
    hide NoneHeld;
    hide OthersKept;
    hide Chain;
    hide RotateHab;
    hide Digests;
    hide Indices;
    hide Reachable;
    hide NextLot;
    hide UpTo;
    RotateHabIs(h, prm, lots, k, n, ncount, quorums, verdict);
    var h' := RotateHab(h, ncount, quorums, verdict).0;
    var asked := Asked(h, ncount);
    var kever := h.kel[|h.kel| - 1];
    if !CanAdvance(lots, n, asked) {
      assert InStepAt(h', prm, lots, k, n);
    } else {
      var lots' := Grown(prm, lots, n, if asked < 0 then 0 else asked);
      if verdict == Refused || !Reachable(kever.quorums, |kever.ndigs|) {
        assert InStepAt(h', prm, lots', k, n);
      } else if verdict == Accepted {
        assert InStepAt(h', prm, lots', k, n + 1);
      } else {
        OutOfStep(h', prm, lots', k, n);
      }
    }
  }

  /** A store one lot ahead of the log is out of step, whatever lots one takes. */
  lemma {:induction false} OutOfStep(h: State, prm: PrePrm, lots: seq<PubLot>, k: nat, n: nat)
    requires Chain(lots, prm, k) && n + 1 < |lots| && lots[n].pubs != [] && StandsAt(h.st, h.pre, prm, lots, n + 1)
    requires h.kel != [] && h.kel[|h.kel| - 1].keys == lots[n].pubs
    ensures !InStep(h)
  {
    if InStep(h) {
      var prm', lots', k': nat, n': nat :| InStepAt(h, prm', lots', k', n');
      StandsSits(h.st, h.pre, prm, lots, n + 1);
      StandsSits(h.st, h.pre, prm', lots', n');
      assert lots[n + 1].pubs == lots[n].pubs;
      KeysDistinct(lots, prm, k, n, 0, n + 1, 0);
    }
  }

  /** After a refused event a retry, whatever count it asks for, reveals the same
      keys and commits to the same digests: the lot made for the refused event. */
  lemma {:induction false} RetryReusesLot(h: State, prm: PrePrm, lots: seq<PubLot>, k: nat, n: nat,
                       ncount: Option<int>, quorums: set<set<nat>>, count': int)
    requires InStepAt(h, prm, lots, k, n) && CanAdvance(lots, n, Asked(h, ncount))
    ensures var (h', r) := RotateHab(h, ncount, quorums, Refused);
      && r == Fail(ValidationError)
      && Advance(h.st, h.pre, Asked(h, ncount)).1.Ok?
      && Advance(h'.st, h.pre, count').1 == Advance(h.st, h.pre, Asked(h, ncount)).1
      && Advance(h'.st, h.pre, count').0.pubs == h'.st.pubs
  {
    hide StandsAt;
    hide NoneHeld;
    hide OthersKept;
    hide Chain;
    hide RotateHab;
    hide Advance;
    hide Digests;
    hide Indices;
    hide Reachable;
    hide NextLot;
    hide UpTo;
    RotateHabIs(h, prm, lots, k, n, ncount, quorums, Refused);
    var asked := Asked(h, ncount);
    var lots' := Grown(prm, lots, n, if asked < 0 then 0 else asked);
    AdvanceIs(h.st, h.pre, prm, lots, n, k, asked);
    AdvanceIs(RotateHab(h, ncount, quorums, Refused).0.st, h.pre, prm, lots', n, k, count');
  }

  /** One call on a Hab. */
  datatype Call = Call(ncount: Option<int>, quorums: set<set<nat>>, verdict: Verdict)

  function RunHab(h: State, calls: seq<Call>): (h': State)
    requires h.kel != []
    ensures h'.kel != []
  {
    if calls == [] then h else
    var n := |calls| - 1;
    var c := calls[n];
    RotateHab(RunHab(h, calls[..n]), c.ncount, c.quorums, c.verdict).0
  }

  lemma {:induction false} StepHasLog(h: State)
    requires InStep(h)
    ensures h.kel != []
  {
  }

  /** Over every run whose events are each accepted or refused, the key store and
      the log stay in step, and the log reveals at each event exactly the keys
      that the event before it committed to. */
  lemma {:induction false} RunKeepsStep(h: State, calls: seq<Call>)
    requires InStep(h) && Committed(h.kel)
    requires forall i | 0 <= i < |calls| :: calls[i].verdict != Swallowed
    ensures InStep(RunHab(h, calls)) && Committed(RunHab(h, calls).kel) && RunHab(h, calls).pre == h.pre
    ensures h.kel <= RunHab(h, calls).kel
    ensures OthersKept(h.st, RunHab(h, calls).st, h.pre)
  {
    hide InStep;
    hide RotateHab;
    hide Committed;
    hide OthersKept;
    StepHasLog(h);
    if calls == [] {
      OthersKeptSelf(h.st, h.pre);
    } else {
      var n := |calls| - 1;
      RunKeepsStep(h, calls[..n]);
      CallKeepsStep(RunHab(h, calls[..n]), calls[n]);
      OthersKeptTwice(h.st, RunHab(h, calls[..n]).st, RunHab(h, calls).st, h.pre);
    }
  }

  lemma {:induction false} CallKeepsStep(h: State, c: Call)
    requires InStep(h) && Committed(h.kel) && c.verdict != Swallowed
    ensures var h' := RotateHab(h, c.ncount, c.quorums, c.verdict).0;
      InStep(h') && Committed(h'.kel) && h'.pre == h.pre && h.kel <= h'.kel && OthersKept(h.st, h'.st, h.pre)
  {
    hide StandsAt;
    hide NoneHeld;
    hide OthersKept;
    hide Chain;
    hide RotateHab;
    hide Digests;
    hide Indices;
    hide Reachable;
    hide NextLot;
    hide UpTo;
    var prm, lots, k: nat, n: nat :| InStepAt(h, prm, lots, k, n);
    RotateHabIs(h, prm, lots, k, n, c.ncount, c.quorums, c.verdict);
    var h' := RotateHab(h, c.ncount, c.quorums, c.verdict).0;
    var asked := Asked(h, c.ncount);
    var kever := h.kel[|h.kel| - 1];
    if !CanAdvance(lots, n, asked) {
      OthersKeptSelf(h.st, h.pre);
    } else {
      var lots' := Grown(prm, lots, n, if asked < 0 then 0 else asked);
      assert lots'[n + 1] == lots[n + 1];
      if c.verdict == Refused || !Reachable(kever.quorums, |kever.ndigs|) {
        assert InStepAt(h', prm, lots', k, n);
      } else {
        assert InStepAt(h', prm, lots', k, n + 1);
      }
    }
  }

  /** Moving what stands at the first lot of pre to the prefix of the event. */
  lemma MoveStarts(st: Store, prm: PrePrm, lots: seq<PubLot>, k: nat, said: Option<nat>, quorums: set<set<nat>>)
    requires |lots| >= 2 && lots[0].pubs != [] && !lots[0].pubs[0].Said? && k <= |lots|
    requires Sound(st) && Chain(lots, prm, k) && StandsAt(st, lots[0].pubs[0], prm, lots, 0)
    requires said.None? || Said(said.value) !in st.pres
    ensures var pre := if said.None? then lots[0].pubs[0] else Said(said.value);
      var (st', r) := Move(st, lots[0].pubs[0], pre);
      r == Pass && InStepAt(State(st', pre, [Event(lots[0].pubs, Digests(lots[1].pubs), quorums)]), prm, lots, k, 0)
  {
    hide StandsAt;
    hide Sound;
    hide Chain;
    hide Move;
    if said.Some? {
      MoveTransports(st, lots[0].pubs[0], Said(said.value), prm, lots, 0);
    } else {
      MoveToSelf(st, lots[0].pubs[0]);
    }
    NoneHeldBelow(Move(st, lots[0].pubs[0], if said.None? then lots[0].pubs[0] else Said(said.value)).0, lots);
  }

  lemma MoveToSelf(st: Store, pre: Pub)
    ensures Move(st, pre, pre) == (st, Pass)
  {
  }

  /** A Hab made from fresh keys starts in step. */
  lemma MakeFreshInStep(st: Store, icount: nat, ncount: nat, salt: string, stem: string, said: Option<nat>,
                        quorums: set<set<nat>>)
    requires Sound(st) && icount > 0 && Create(PrePrm(st.pidx, salt, stem), 0, 0, icount)[0] !in st.pres
    requires said.None? || Said(said.value) !in st.pres
    ensures var (_, r) := Make(st, Fresh(icount), ncount, salt, stem, said, quorums, Accepted);
      var lots := Salty(PrePrm(st.pidx, salt, stem), [icount, ncount]);
      && r.Ok? && InStep(r.value) && Committed(r.value.kel)
      && r.value.kel == [Event(lots[0].pubs, Digests(lots[1].pubs), quorums)]
  {
    hide StandsAt;
    hide Sound;
    hide Chain;
    hide Move;
    hide Incept;
    hide NextLot;
    hide Digests;
    hide OthersKept;
    var prm := PrePrm(st.pidx, salt, stem);
    var lots := Salty(prm, [icount, ncount]);
    InceptSound(st, salt, stem, icount, ncount);
    InceptStarts(st, salt, stem, icount, ncount);
    InceptReserves(st, salt, stem, icount, ncount);
    SaltyChain(prm, [icount, ncount]);
    var st1 := Incept(st, salt, stem, icount, ncount).0;
    FirstDerived(prm, [icount, ncount]);
    MoveStarts(st1, prm, lots, 0, said, quorums);
    var r := Make(st, Fresh(icount), ncount, salt, stem, said, quorums, Accepted).1;
    assert InStepAt(r.value, prm, lots, 0, 0);
  }

  lemma FirstDerived(prm: PrePrm, counts: seq<nat>)
    requires counts != [] && counts[0] > 0
    ensures |Salty(prm, counts)[0].pubs| > 0 && Salty(prm, counts)[0].pubs[0].Derived?
  {
    hide Path;
    FirstKey(prm, counts);
  }

  lemma InceptReserves(st: Store, salt: string, stem: string, icount: nat, ncount: nat)
    ensures forall q: Pub | q.Said? && q !in st.pres :: q !in Incept(st, salt, stem, icount, ncount).0.pres
  {
  }

  lemma IngestReserves(st: Store, lists: seq<seq<nat>>, iridx: nat, salt: string, stem: string, ncount: nat)
    requires Sound(st) && iridx <= |lists| && lists != [] && lists[0] != [] && Given(lists[0][0]) !in st.pres
    ensures var pre := Given(lists[0][0]); Ingest(st, lists, iridx, salt, stem, ncount).0.pres == st.pres[pre := pre]
  {
    hide IngestFrom;
    hide Ingest;
    hide Create;
    hide Sound;
    var pre := Given(lists[0][0]);
    var prm := PrePrm(st.pidx, salt, stem);
    var st2 := st.(pres := st.pres[pre := pre], prms := st.prms[pre := prm], pidx := st.pidx + 1);
    IngestIs(st, lists, iridx, salt, stem, ncount);
    StartSound(st, st2, pre);
    IngestFromSound(st2, pre, lists, iridx, 0, 0);
  }

  lemma StartSound(st: Store, st2: Store, pre: Pub)
    requires Sound(st) && st2.pres == st.pres[pre := pre] && st2.sits == st.sits && st2.pubs == st.pubs
    requires pre in st2.prms && st2.prms == st.prms[pre := st2.prms[pre]]
    ensures Sound(st2)
  {
  }

  lemma ReplayInPlace(st: Store, pre: Pub, prm: PrePrm, lots: seq<PubLot>, n: nat, erase: bool)
    requires StandsAt(st, pre, prm, lots, n)
    ensures Replay(st, pre, false, erase) == (st, Ok((lots[n].pubs, Digests(lots[n + 1].pubs))))
  {
  }

  /** The key store after the keys of a Hab are ingested and its first keys found. */
  lemma SecretKeys(st: Store, lists: seq<seq<nat>>, iridx: nat, ncount: nat, salt: string, stem: string)
    requires Sound(st) && iridx < |lists| && AllDistinct(lists) && lists[0] != [] && Given(lists[0][0]) !in st.pres
    ensures var prm := PrePrm(st.pidx, salt, stem); var lots := IngestLots(prm, lists, ncount);
      var pre := Given(lists[0][0]); var st1 := Ingest(st, lists, iridx, salt, stem, ncount).0;
      && MakeKeys(st, Secret(lists, iridx), ncount, salt, stem)
           == (st1, Ok((pre, (Secrets(lists[iridx]), Digests(lots[iridx + 1].pubs)))))
      && Sound(st1) && st1.pres == st.pres[pre := pre] && lots[iridx].pubs == Secrets(lists[iridx])
      && StandsAt(st1, pre, prm, lots, iridx) && Chain(lots, prm, |lists|) && OthersKept(st, st1, pre)
  {
    hide StandsAt;
    hide Sound;
    hide Chain;
    hide Ingest;
    hide Replay;
    hide NextLot;
    hide Digests;
    hide OthersKept;
    hide GivenLots;
    var prm := PrePrm(st.pidx, salt, stem);
    var lots := IngestLots(prm, lists, ncount);
    IngestStarts(st, lists, iridx, salt, stem, ncount);
    IngestReserves(st, lists, iridx, salt, stem, ncount);
    IngestSound(st, lists, iridx, salt, stem, ncount);
    ReplayInPlace(Ingest(st, lists, iridx, salt, stem, ncount).0, Given(lists[0][0]), prm, lots, iridx, true);
    GivenLotsAt(lists, iridx);
  }

  /** A Hab made from distinct secrets starts in step when it starts at the first
      list.  At a later list what is stored under the first key of list 0 is looked
      for under the first key of list iridx.  With a digest for its prefix the Hab is
      made exactly when that key has parameters and a situation of its own.  With that
      key for its prefix it is always made, and out of step if the key has no
      situation. */
  lemma MakeSecretInStep(st: Store, lists: seq<seq<nat>>, iridx: nat, ncount: nat, salt: string, stem: string,
                         said: Option<nat>, quorums: set<set<nat>>)
    requires Sound(st) && iridx < |lists| && AllDistinct(lists) && lists[0] != [] && lists[iridx] != []
    requires Given(lists[0][0]) !in st.pres && (said.None? || Said(said.value) !in st.pres)
    ensures var (_, r) := Make(st, Secret(lists, iridx), ncount, salt, stem, said, quorums, Accepted);
      var first, lots := Given(lists[iridx][0]), IngestLots(PrePrm(st.pidx, salt, stem), lists, ncount);
      && (r.Ok? ==> r.value.kel == [Event(Secrets(lists[iridx]), Digests(lots[iridx + 1].pubs), quorums)])
      && if iridx == 0 then r.Ok? && InStep(r.value) && Committed(r.value.kel)
      else if said.None? then r.Ok? && r.value.pre == first && (first !in st.sits ==> !InStep(r.value))
      else if first in st.prms && first in st.sits then r.Ok?
      else r == Err(ValueError)
  {
    hide StandsAt;
    hide MakeKeys;
    hide Chain;
    hide NextLot;
    hide Digests;
    hide GivenLots;
    hide Move;
    hide Sound;
    SecretKeys(st, lists, iridx, ncount, salt, stem);
    var prm := PrePrm(st.pidx, salt, stem);
    var lots := IngestLots(prm, lists, ncount);
    var st1 := MakeKeys(st, Secret(lists, iridx), ncount, salt, stem).0;
    var first := Given(lists[iridx][0]);
    var r := Make(st, Secret(lists, iridx), ncount, salt, stem, said, quorums, Accepted).1;
    if iridx == 0 {
      MoveStarts(st1, prm, lots, |lists|, said, quorums);
      assert InStepAt(r.value, prm, lots, |lists|, 0);
    } else {
      DistinctFirsts(lists, iridx);
      if said.None? {
        MoveToSelf(st1, first);
        if first !in st.sits { NoStandNoStep(r.value); }
      } else {
        MoveSound(st1, first, Said(said.value));
        MoveFails(st1, first, Said(said.value));
        if first in st.prms { ParametersReserved(st, first); }
      }
    }
  }

  lemma NoStandNoStep(h: State)
    requires h.pre !in h.st.sits
    ensures !InStep(h)
  {
    hide Chain;
    hide AllHeld;
    hide NoneHeld;
  }

  lemma MoveFails(st: Store, src: Pub, dst: Pub)
    ensures Move(st, src, dst).1.Fail? ==> Move(st, src, dst).1 == Fail(ValueError)
  {
    hide CopyPubs;
  }

  lemma ParametersReserved(st: Store, q: Pub)
    requires Sound(st) && q in st.prms
    ensures q in st.pres
  {
  }

  lemma IngestListHolds(st: Store, pre: Pub, secrets: seq<nat>, iridx: nat, j: nat, kidx: nat)
    ensures st.pris <= IngestList(st, pre, secrets, iridx, j, kidx).pris
  {
    hide Secrets;
    hide PutPubs;
  }

  lemma {:induction false} IngestFromHolds(st: Store, pre: Pub, lists: seq<seq<nat>>, iridx: nat, j: nat, kidx: nat)
    requires j <= |lists|
    ensures st.pris <= IngestFrom(st, pre, lists, iridx, j, kidx).0.pris
    decreases |lists| - j
  {
    hide IngestList;
    if j == |lists| {
    } else {
      var st1 := IngestList(st, pre, lists[j], iridx, j, kidx);
      IngestListHolds(st, pre, lists[j], iridx, j, kidx);
      IngestFromHolds(st1, pre, lists, iridx, j + 1, kidx + |lists[j]|);
    }
  }

  /** An ingest erases nothing. */
  lemma IngestHolds(st: Store, lists: seq<seq<nat>>, iridx: nat, salt: string, stem: string, ncount: nat)
    requires Sound(st) && iridx <= |lists| && lists != [] && lists[0] != [] && Given(lists[0][0]) !in st.pres
    ensures st.pris <= Ingest(st, lists, iridx, salt, stem, ncount).0.pris
  {
    hide IngestFrom;
    hide Ingest;
    hide Create;
    hide Sound;
    hide PutPubs;
    var pre := Given(lists[0][0]);
    var prm := PrePrm(st.pidx, salt, stem);
    var st2 := st.(pres := st.pres[pre := pre], prms := st.prms[pre := prm], pidx := st.pidx + 1);
    IngestIs(st, lists, iridx, salt, stem, ncount);
    IngestFromHolds(st2, pre, lists, iridx, 0, 0);
  }

  /** A sequence stands where it stood when its own entries are kept and no private key
      is lost. */
  lemma StillStands(st: Store, st': Store, pre: Pub, q: Pub, prm: PrePrm, lots: seq<PubLot>, n: nat)
    requires StandsAt(st, q, prm, lots, n) && OthersKept(st, st', pre) && q != pre && st.pris <= st'.pris
    ensures StandsAt(st', q, prm, lots, n)
  {
  }

  /** A store tells one place of a sequence: another account of it has the same keys at
      the same place. */
  lemma SameStand(st: Store, pre: Pub, prm: PrePrm, lots: seq<PubLot>, k: nat, n: nat,
                  prm': PrePrm, lots': seq<PubLot>, k': nat, n': nat)
    requires Chain(lots, prm, k) && StandsAt(st, pre, prm, lots, n)
    requires Chain(lots', prm', k') && StandsAt(st, pre, prm', lots', n')
    ensures n == n' && |lots| == |lots'| && forall j | 0 <= j < |lots| :: lots[j].pubs == lots'[j].pubs
    ensures forall m: int :: NoneHeld(st, lots, m) <==> NoneHeld(st, lots', m)
  {
    hide Total;
    hide AllHeld;
    assert lots[n] == lots'[n'];
    assert (pre, |lots|) !in st.pubs && (pre, |lots'|) !in st.pubs;
    assert |lots| < |lots'| ==> (pre, |lots|) in st.pubs;
    assert |lots'| < |lots| ==> (pre, |lots'|) in st.pubs;
    assert forall j | 0 <= j < |lots| :: st.pubs[(pre, j)] == lots[j].pubs == lots'[j].pubs;
  }

  lemma DigestsTell(a: seq<Pub>, b: seq<Pub>)
    requires Digests(a) == Digests(b)
    ensures a == b
  {
    assert |a| == |Digests(a)| == |b|;
    forall i | 0 <= i < |a| ensures a[i] == b[i] {
      assert Digests(a)[i] == Dig(a[i]) && Digests(b)[i] == Dig(b[i]);
    }
  }

  /** What stands under src stands under dst after a move, also one to itself. */
  lemma MoveStands(st: Store, src: Pub, dst: Pub, prm: PrePrm, lots: seq<PubLot>, n: nat)
    requires Sound(st) && (src == dst || dst !in st.pres) && StandsAt(st, src, prm, lots, n)
    ensures var (st', r) := Move(st, src, dst);
      && r == Pass && StandsAt(st', dst, prm, lots, n)
      && (src != dst ==> src !in st'.prms && src !in st'.sits)
      && forall q | q != src && q != dst && q in st.sits :: q in st'.sits
  {
    hide StandsAt;
    hide Sound;
    hide Move;
    if src == dst {
      MoveToSelf(st, src);
    } else {
      MoveTransports(st, src, dst, prm, lots, n);
    }
  }

  /** A log of one event is in step with what stands under its prefix exactly when the
      keys and the digests are those of the lot that stands there and no older private
      key is left. */
  lemma InStepWith(h: State, prm: PrePrm, lots: seq<PubLot>, k: nat, n: nat)
    requires |h.kel| == 1 && k <= |lots| && Chain(lots, prm, k) && StandsAt(h.st, h.pre, prm, lots, n)
    requires n + 1 < |lots|
    ensures InStep(h) <==>
      h.kel[0].keys == lots[n].pubs && h.kel[0].ndigs == Digests(lots[n + 1].pubs) && NoneHeld(h.st, lots, n - 1)
  {
    hide StandsAt;
    hide Chain;
    hide Digests;
    hide NoneHeld;
    if InStep(h) {
      var prm', lots', k': nat, n': nat :| InStepAt(h, prm', lots', k', n');
      SameStand(h.st, h.pre, prm, lots, k, n, prm', lots', k', n');
      StandsSits(h.st, h.pre, prm', lots', n');
    }
    if h.kel[0].keys == lots[n].pubs && h.kel[0].ndigs == Digests(lots[n + 1].pubs) && NoneHeld(h.st, lots, n - 1) {
      assert InStepAt(h, prm, lots, k, n);
    }
  }

  /** At a later list whose first key is the prefix of another sequence, the new Hab
      takes that sequence over: it stands under the prefix of the new Hab, and the
      keys that were ingested stay behind under their own.  The new Hab is in step
      only if the two sequences have the same current and next keys there. */
  lemma MakeSecretTakesOver(st: Store, lists: seq<seq<nat>>, iridx: nat, ncount: nat, salt: string, stem: string,
                            said: Option<nat>, quorums: set<set<nat>>, oprm: PrePrm, oth: seq<PubLot>, k: nat, m: nat)
    requires Sound(st) && 0 < iridx < |lists| && AllDistinct(lists) && lists[0] != [] && lists[iridx] != []
    requires Given(lists[0][0]) !in st.pres && (said.None? || Said(said.value) !in st.pres)
    requires StandsAt(st, Given(lists[iridx][0]), oprm, oth, m) && Chain(oth, oprm, k) && k <= |oth|
    ensures var (_, r) := Make(st, Secret(lists, iridx), ncount, salt, stem, said, quorums, Accepted);
      var first, lots := Given(lists[iridx][0]), IngestLots(PrePrm(st.pidx, salt, stem), lists, ncount);
      var pre := if said.None? then first else Said(said.value);
      && r.Ok? && r.value.pre == pre && StandsAt(r.value.st, pre, oprm, oth, m)
      && (said.Some? ==> first !in r.value.st.prms && first !in r.value.st.sits)
      && Given(lists[0][0]) in r.value.st.sits
      && r.value.kel == [Event(Secrets(lists[iridx]), Digests(lots[iridx + 1].pubs), quorums)]
      && (InStep(r.value) <==>
            && oth[m].pubs == Secrets(lists[iridx]) && oth[m + 1].pubs == lots[iridx + 1].pubs
            && NoneHeld(r.value.st, oth, m - 1))
  {
    hide StandsAt;
    hide MakeKeys;
    hide Chain;
    hide NextLot;
    hide Digests;
    hide GivenLots;
    hide Move;
    hide Sound;
    hide OthersKept;
    hide NoneHeld;
    hide Secrets;
    hide InStep;
    SecretKeys(st, lists, iridx, ncount, salt, stem);
    var first, own := Given(lists[iridx][0]), Given(lists[0][0]);
    var lots := IngestLots(PrePrm(st.pidx, salt, stem), lists, ncount);
    var pre := if said.None? then first else Said(said.value);
    var st1 := MakeKeys(st, Secret(lists, iridx), ncount, salt, stem).0;
    DistinctFirsts(lists, iridx);
    SecretsOf(lists[iridx]);
    IngestHolds(st, lists, iridx, salt, stem, ncount);
    StillStands(st, st1, own, first, oprm, oth, m);
    StandsSits(st1, own, PrePrm(st.pidx, salt, stem), lots, iridx);
    StandsSits(st1, first, oprm, oth, m);
    MoveStands(st1, first, pre, oprm, oth, m);
    var h := Make(st, Secret(lists, iridx), ncount, salt, stem, said, quorums, Accepted).1.value;
    InStepWith(h, oprm, oth, k, m);
    if Digests(lots[iridx + 1].pubs) == Digests(oth[m + 1].pubs) {
      DigestsTell(lots[iridx + 1].pubs, oth[m + 1].pubs);
    }
  }

  lemma SecretsOf(secrets: seq<nat>)
    requires secrets != []
    ensures Secrets(secrets) != [] && Secrets(secrets)[0] == Given(secrets[0])
  {
  }

  lemma DistinctFirsts(lists: seq<seq<nat>>, j: nat)
    requires AllDistinct(lists) && 0 < j < |lists| && lists[0] != [] && lists[j] != []
    ensures lists[0][0] != lists[j][0]
  {
    assert (0, 0) != (j, 0);
  }
}
