/** What Hab.make leaves in a store that other Habs use: a sequence of its own
    that stands at its first lot, and nothing else changed. */
module HabbingMaking {
  import opened Collections
  import opened Results
  import opened Keeping
  import opened KeepingLaws
  import opened KeepingRuns
  import opened Habbing
  import opened HabbingLaws

  ghost predicate Has(lots: seq<PubLot>, key: Pub) {
    exists j, i | 0 <= j < |lots| && 0 <= i < |lots[j].pubs| :: lots[j].pubs[i] == key
  }

  lemma NotIn(lots: seq<PubLot>, key: Pub, j: nat)
    requires !Has(lots, key)
    ensures j < |lots| ==> key !in ToSet(lots[j].pubs)
  {
  }

  lemma HasAt(lots: seq<PubLot>, j: nat, i: nat)
    requires j < |lots| && i < |lots[j].pubs|
    ensures Has(lots, lots[j].pubs[i])
  {
  }

  /** The private keys that come or go are keys of the lots. */
  ghost predicate TouchesOnly(st: Store, st': Store, lots: seq<PubLot>) {
    forall key | !Has(lots, key) :: key in st'.pris <==> key in st.pris
  }

  /** The parameters, situation and public keys of a prefix are kept. */
  ghost predicate KeptAt(st: Store, st': Store, q: Pub) {
    && (q in st'.prms <==> q in st.prms) && (q in st.prms ==> st'.prms[q] == st.prms[q])
    && (q in st'.sits <==> q in st.sits) && (q in st.sits ==> st'.sits[q] == st.sits[q])
    && (forall j :: (q, j) in st'.pubs <==> (q, j) in st.pubs)
    && (forall j | (q, j) in st.pubs :: st'.pubs[(q, j)] == st.pubs[(q, j)])
  }

  /** Fresh keys, or distinct secrets from the first list on. */
  ghost predicate FromStart(source: Source) {
    source.Secret? ==> source.iridx == 0 && source.lists != [] && AllDistinct(source.lists)
  }

  /** The key sequence a new Hab starts with. */
  ghost function StartLots(prm: PrePrm, source: Source, ncount: int): seq<PubLot> {
    match source
    case Fresh(icount) => if icount < 0 || ncount < 0 then [] else Salty(prm, [icount, ncount])
    case Secret(lists, _) => IngestLots(prm, lists, if ncount < 0 then 0 else ncount)
  }

  /** How many of its lots are handed in. */
  ghost function Handed(source: Source): nat { if source.Fresh? then 0 else |source.lists| }

  /** A sequence that was not there stands at its first lot, and the rest of the store
      is as it was. */
  ghost predicate Starts(st: Store, st1: Store, first: Pub, prm: PrePrm, lots: seq<PubLot>, k: nat) {
    && |lots| >= 2 && lots[0].pubs != [] && lots[0].pubs[0] == first && !first.Said?
    && k <= |lots| && Chain(lots, prm, k) && StandsAt(st1, first, prm, lots, 0)
    && first !in st.pres && st1.pres == st.pres[first := first]
    && OthersKept(st, st1, first) && TouchesOnly(st, st1, lots)
  }

  /** There are keys to make, under a first key that is no prefix yet. */
  predicate CanStart(st: Store, source: Source, ncount: int, salt: string, stem: string) {
    match source
    case Fresh(icount) =>
      icount > 0 && ncount >= 0 && Derived(salt, Path(PrePrm(st.pidx, salt, stem), 0, 0)) !in st.pres
    case Secret(lists, _) => lists != [] && lists[0] != [] && Given(lists[0][0]) !in st.pres
  }

  lemma InceptTouches(st: Store, salt: string, stem: string, icount: nat, ncount: nat)
    requires Sound(st) && Incept(st, salt, stem, icount, ncount).1.Ok?
    ensures var st1 := Incept(st, salt, stem, icount, ncount).0;
      var lots := Salty(PrePrm(st.pidx, salt, stem), [icount, ncount]);
      && TouchesOnly(st, st1, lots) && lots[0].pubs != []
      && lots[0].pubs[0] !in st.pres && st1.pres == st.pres[lots[0].pubs[0] := lots[0].pubs[0]]
  {
    hide Create;
    hide Incept;
    hide Salty;
    hide Sound;
    hide Has;
    hide Digests;
    var prm := PrePrm(st.pidx, salt, stem);
    var lots := Salty(prm, [icount, ncount]);
    FirstLots(prm, icount, ncount);
    InceptIs(st, salt, stem, icount, ncount);
    forall key | !Has(lots, key) ensures key in Incept(st, salt, stem, icount, ncount).0.pris <==> key in st.pris {
      NotIn(lots, key, 0);
      NotIn(lots, key, 1);
    }
  }

  lemma FreshStarts(st: Store, icount: int, ncount: int, salt: string, stem: string)
    requires Sound(st)
    ensures var (st1, r) := MakeKeys(st, Fresh(icount), ncount, salt, stem);
      var prm := PrePrm(st.pidx, salt, stem); var lots := StartLots(prm, Fresh(icount), ncount);
      && Sound(st1) && (r.Err? ==> st1 == st) && (r.Ok? <==> CanStart(st, Fresh(icount), ncount, salt, stem))
      && (r.Ok? ==> Starts(st, st1, r.value.0, prm, lots, 0) && r.value.1 == (lots[0].pubs, Digests(lots[1].pubs)))
  {
    hide StandsAt;
    hide Sound;
    hide Chain;
    hide Incept;
    hide Digests;
    hide OthersKept;
    hide TouchesOnly;
    hide Salty;
    InceptSound(st, salt, stem, icount, ncount);
    if Incept(st, salt, stem, icount, ncount).1.Ok? {
      var prm := PrePrm(st.pidx, salt, stem);
      InceptStarts(st, salt, stem, icount, ncount);
      InceptTouches(st, salt, stem, icount, ncount);
      SaltyChain(prm, [icount, ncount]);
      FirstDerived(prm, [icount, ncount]);
    }
  }

  /** The loop of ingest adds keys of its lists alone. */
  lemma {:induction false} IngestFromTouches(st: Store, pre: Pub, lists: seq<seq<nat>>, iridx: nat, j: nat, kidx: nat,
                                             key: Pub)
    requires j <= |lists| && forall i | j <= i < |lists| :: key !in ToSet(Secrets(lists[i]))
    ensures key in IngestFrom(st, pre, lists, iridx, j, kidx).0.pris <==> key in st.pris
    decreases |lists| - j
  {
    hide Secrets;
    hide ToSet;
    hide IngestList;
    if j == |lists| {
    } else {
      IngestListParts(st, pre, lists[j], iridx, j, kidx);
      var st1 := IngestList(st, pre, lists[j], iridx, j, kidx);
      IngestFromTouches(st1, pre, lists, iridx, j + 1, kidx + |lists[j]|, key);
    }
  }

  /** The key index the loop of ingest ends at. */
  lemma {:induction false} IngestFromKidx(st: Store, pre: Pub, lists: seq<seq<nat>>, iridx: nat, j: nat)
    requires j <= |lists|
    ensures IngestFrom(st, pre, lists, iridx, j, Total(GivenLots(lists)[..j])).1 == Total(GivenLots(lists))
    decreases |lists| - j
  {
    var lots := GivenLots(lists);
    hide IngestList;
    hide GivenLots;
    hide Secrets;
    if j == |lists| {
      assert lots[..j] == lots;
    } else {
      GivenLotsAt(lists, j);
      assert lots[..j + 1][..j] == lots[..j];
      IngestFromKidx(IngestList(st, pre, lists[j], iridx, j, lots[j].kidx), pre, lists, iridx, j + 1);
    }
  }

  lemma IngestTouches(st: Store, lists: seq<seq<nat>>, salt: string, stem: string, ncount: nat)
    requires Sound(st) && lists != [] && lists[0] != [] && Given(lists[0][0]) !in st.pres
    ensures TouchesOnly(st, Ingest(st, lists, 0, salt, stem, ncount).0,
                        IngestLots(PrePrm(st.pidx, salt, stem), lists, ncount))
  {
    hide Ingest;
    hide IngestFrom;
    hide Sound;
    hide Create;
    hide Has;
    hide GivenLots;
    hide Secrets;
    hide ToSet;
    var pre := Given(lists[0][0]);
    var prm := PrePrm(st.pidx, salt, stem);
    var lots := IngestLots(prm, lists, ncount);
    var st2 := st.(pres := st.pres[pre := pre], prms := st.prms[pre := prm], pidx := st.pidx + 1);
    IngestIs(st, lists, 0, salt, stem, ncount);
    assert Total(GivenLots(lists)[..0]) == 0;
    IngestFromKidx(st2, pre, lists, 0, 0);
    forall key | !Has(lots, key) ensures key in Ingest(st, lists, 0, salt, stem, ncount).0.pris <==> key in st.pris {
      forall i | 0 <= i < |lists| ensures key !in ToSet(Secrets(lists[i])) {
        GivenLotsAt(lists, i);
        NotIn(lots, key, i);
      }
      NotIn(lots, key, |lists|);
      IngestFromTouches(st2, pre, lists, 0, 0, 0, key);
    }
  }

  lemma NoIngest(st: Store, lists: seq<seq<nat>>, salt: string, stem: string, ncount: nat)
    requires lists != [] && (lists[0] == [] || Given(lists[0][0]) in st.pres)
    ensures var (st', r) := Ingest(st, lists, 0, salt, stem, ncount); st' == st && r.Err?
  {
    hide IngestFrom;
    hide Create;
  }

  lemma SecretStarts(st: Store, lists: seq<seq<nat>>, ncount: int, salt: string, stem: string)
    requires Sound(st) && lists != [] && AllDistinct(lists)
    ensures var (st1, r) := MakeKeys(st, Secret(lists, 0), ncount, salt, stem);
      var prm := PrePrm(st.pidx, salt, stem); var lots := StartLots(prm, Secret(lists, 0), ncount);
      && Sound(st1) && (r.Err? ==> st1 == st) && (r.Ok? <==> CanStart(st, Secret(lists, 0), ncount, salt, stem))
      && (r.Ok? ==>
            Starts(st, st1, r.value.0, prm, lots, |lists|) && r.value.1 == (lots[0].pubs, Digests(lots[1].pubs)))
  {
    hide StandsAt;
    hide Sound;
    hide Chain;
    hide Ingest;
    hide Replay;
    hide Digests;
    hide OthersKept;
    hide TouchesOnly;
    hide GivenLots;
    hide NextLot;
    hide AllDistinct;
    hide Secrets;
    var count := if ncount < 0 then 0 else ncount;
    if lists[0] == [] || Given(lists[0][0]) in st.pres {
      NoIngest(st, lists, salt, stem, count);
    } else {
      hide MakeKeys;
      SecretKeys(st, lists, 0, count, salt, stem);
      IngestTouches(st, lists, salt, stem, count);
      SecretsOf(lists[0]);
    }
  }

  lemma MakeKeysStarts(st: Store, source: Source, ncount: int, salt: string, stem: string)
    requires Sound(st) && FromStart(source)
    ensures var (st1, r) := MakeKeys(st, source, ncount, salt, stem);
      var prm := PrePrm(st.pidx, salt, stem); var lots := StartLots(prm, source, ncount);
      && Sound(st1) && (r.Err? ==> st1 == st) && (r.Ok? <==> CanStart(st, source, ncount, salt, stem))
      && (r.Ok? ==>
            Starts(st, st1, r.value.0, prm, lots, Handed(source)) && r.value.1 == (lots[0].pubs, Digests(lots[1].pubs)))
  {
    hide MakeKeys;
    hide StartLots;
    hide Starts;
    hide Digests;
    hide CanStart;
    match source
    case Fresh(icount) => FreshStarts(st, icount, ncount, salt, stem);
    case Secret(lists, _) => SecretStarts(st, lists, ncount, salt, stem);
  }

  /** Where the keys are after make, if they were made: under the digest of the
      inception event, or under the first key when that is the prefix or the digest is
      a prefix already. */
  ghost function Place(st: Store, source: Source, ncount: int, salt: string, stem: string, said: Option<nat>)
    : Option<Pub>
  {
    var r := MakeKeys(st, source, ncount, salt, stem).1;
    if r.Err? then None
    else if said.None? || Said(said.value) in st.pres then Some(r.value.0)
    else Some(Said(said.value))
  }

  /** Moving a sequence that starts leaves the other prefixes alone. */
  lemma MoveStarted(st: Store, st1: Store, first: Pub, prm: PrePrm, lots: seq<PubLot>, k: nat, said: Option<nat>,
                    quorums: set<set<nat>>)
    requires Sound(st1) && Starts(st, st1, first, prm, lots, k)
    ensures var pre := if said.None? then first else Said(said.value);
      var free := said.None? || Said(said.value) !in st.pres;
      var (st', r) := Move(st1, first, pre);
      && Sound(st') && (r == Pass <==> free) && (!free ==> st' == st1)
      && st'.pris == st1.pris && (if free then pre else first) in st'.pres && st.pres.Keys <= st'.pres.Keys
      && (free ==> InStepAt(State(st', pre, [Event(lots[0].pubs, Digests(lots[1].pubs), quorums)]), prm, lots, k, 0))
      && forall q | q in st.pres :: KeptAt(st, st', q)
  {
    hide StandsAt;
    hide Sound;
    hide Chain;
    hide Move;
    hide Digests;
    hide TouchesOnly;
    hide InStepAt;
    hide OthersKept;
    hide KeptAt;
    var pre := if said.None? then first else Said(said.value);
    var free := said.None? || Said(said.value) !in st.pres;
    MoveSound(st1, first, pre);
    StandsSits(st1, first, prm, lots, 0);
    if free {
      MoveStarts(st1, prm, lots, k, said, quorums);
      if said.None? {
        MoveToSelf(st1, first);
      } else {
        MoveTransports(st1, first, pre, prm, lots, 0);
        MoveKeeps(st1, first, pre);
      }
    }
    forall q | q in st.pres ensures KeptAt(st, Move(st1, first, pre).0, q) {
      KeptBut(st, st1, first, q);
      if free && said.Some? { KeptTwice(st, st1, Move(st1, first, pre).0, q); }
    }
  }

  lemma KeptBut(st: Store, st': Store, pre: Pub, q: Pub)
    requires OthersKept(st, st', pre) && q != pre
    ensures KeptAt(st, st', q)
  {
  }

  lemma KeptTwice(a: Store, b: Store, c: Store, q: Pub)
    requires KeptAt(a, b, q) && KeptAt(b, c, q)
    ensures KeptAt(a, c, q)
  {
  }

  lemma MoveKeeps(st: Store, src: Pub, dst: Pub)
    requires Sound(st) && dst !in st.pres && Move(st, src, dst).1 == Pass
    ensures forall q | q != src && q != dst :: KeptAt(st, Move(st, src, dst).0, q)
  {
    hide CopyPubs;
    if src != dst { CopyPubsKeys(st.pubs, src, dst, 0); }
  }

  /** Hab.make from the start of a sequence: nothing changes when no keys are made; when
      they are, they stand under a new prefix, which is that of the Hab if it is made,
      and all that was in the store is as it was.  An accepted inception event has those
      keys, commits to the next ones and declares the threshold asked for; one whose
      MissingSignatureError is swallowed is not in the log. */
  lemma MakeIs(st: Store, source: Source, ncount: int, salt: string, stem: string, said: Option<nat>,
               quorums: set<set<nat>>, verdict: Verdict)
    requires Sound(st) && FromStart(source)
    ensures var (st', r) := Make(st, source, ncount, salt, stem, said, quorums, verdict);
      var place := Place(st, source, ncount, salt, stem, said);
      var prm := PrePrm(st.pidx, salt, stem); var lots := StartLots(prm, source, ncount);
      && Sound(st') && (place.None? ==> st' == st) && (place.Some? <==> CanStart(st, source, ncount, salt, stem))
      && (r.Ok? <==> place.Some? && (said.None? || Said(said.value) !in st.pres) && verdict != Refused)
      && (place.Some? ==>
            && place.value !in st.pres && place.value in st'.pres && st.pres.Keys <= st'.pres.Keys
            && TouchesOnly(st, st', lots) && forall q | q in st.pres :: KeptAt(st, st', q))
      && (r.Ok? ==> r.value.st == st' && r.value.pre == place.value)
      && (r.Ok? && verdict == Swallowed ==> r.value.kel == [])
      && (r.Ok? && verdict == Accepted ==>
            && |lots| >= 2 && r.value.kel == [Event(lots[0].pubs, Digests(lots[1].pubs), quorums)]
            && InStepAt(r.value, prm, lots, Handed(source), 0))
  {
    hide StandsAt;
    hide Sound;
    hide Chain;
    hide Move;
    hide MakeKeys;
    hide StartLots;
    hide Digests;
    hide KeptAt;
    hide OthersKept;
    hide InStepAt;
    hide CanStart;
    MakeKeysStarts(st, source, ncount, salt, stem);
    var (st1, r) := MakeKeys(st, source, ncount, salt, stem);
    if r.Ok? {
      var prm := PrePrm(st.pidx, salt, stem); var lots := StartLots(prm, source, ncount);
      MoveStarted(st, st1, r.value.0, prm, lots, Handed(source), said, quorums);
    }
  }

  /** What comes of an accepted rotation of h, made with these lots and this threshold: it
      passes exactly if there are keys to reveal, no negative number of further ones is
      asked for where they run out, and some positions meet the threshold; the event then
      reveals the keys of lot 1 and declares its own threshold. */
  ghost predicate RotatesAsMade(h: State, h': State, r: Outcome, lots: seq<PubLot>, quorums: set<set<nat>>,
                                count: Option<int>, after: set<set<nat>>)
    requires |lots| >= 2 && h.kel != []
  {
    var asked := if count.None? then |lots[1].pubs| else count.value;
    && (r == Pass <==> (|lots| > 2 || (lots[1].pubs != [] && asked >= 0)) && Reachable(quorums, |lots[1].pubs|))
    && (r == Pass ==> |h'.kel| == 2 && h'.kel[0] == h.kel[0]
                      && h'.kel[1].keys == lots[1].pubs && h'.kel[1].quorums == after)
    && (r != Pass ==> h'.kel == h.kel)
  }

  /** A Hab that was made rotates by the next threshold and the next keys it was made with. */
  lemma MadeRotates(st: Store, source: Source, ncount: int, salt: string, stem: string, said: Option<nat>,
                    quorums: set<set<nat>>, count: Option<int>, after: set<set<nat>>, h: State, lots: seq<PubLot>)
    requires Sound(st) && FromStart(source) && lots == StartLots(PrePrm(st.pidx, salt, stem), source, ncount)
    requires Make(st, source, ncount, salt, stem, said, quorums, Accepted).1 == Ok(h)
    ensures |lots| >= 2 && h.kel != []
    ensures var (h', r) := RotateHab(h, count, after, Accepted); RotatesAsMade(h, h', r, lots, quorums, count, after)
  {
    hide Make;
    hide RotateHab;
    hide StandsAt;
    hide NoneHeld;
    hide Sound;
    hide Chain;
    hide StartLots;
    hide Digests;
    hide Indices;
    hide KeptAt;
    hide TouchesOnly;
    hide OthersKept;
    hide Reachable;
    hide NextLot;
    hide UpTo;
    hide CanStart;
    hide Place;
    MakeIs(st, source, ncount, salt, stem, said, quorums, Accepted);
    DigestsSize(lots[1].pubs);
    RotateHabIs(h, PrePrm(st.pidx, salt, stem), lots, Handed(source), 0, count, after, Accepted);
  }

  lemma FreshLots(prm: PrePrm, icount: nat, ncount: nat)
    ensures var lots := StartLots(prm, Fresh(icount), ncount); |lots| == 2 && |lots[1].pubs| == ncount
  {
    SaltyChain(prm, [icount, ncount]);
  }

  /** With fresh keys: there are next keys, no negative number of further ones is asked
      for, and some positions below their number meet the next threshold. */
  lemma FreshRotates(st: Store, icount: int, ncount: int, salt: string, stem: string, said: Option<nat>,
                     quorums: set<set<nat>>, count: Option<int>, after: set<set<nat>>, h: State)
    requires Sound(st) && Make(st, Fresh(icount), ncount, salt, stem, said, quorums, Accepted).1 == Ok(h)
    ensures ncount >= 0 && h.kel != []
    ensures RotateHab(h, count, after, Accepted).1 == Pass <==>
      && ncount > 0 && (count.None? || count.value >= 0)
      && exists q | q in quorums :: forall i | i in q :: i < ncount
  {
    hide Make;
    hide RotateHab;
    hide Sound;
    hide StartLots;
    hide InStepAt;
    hide KeptAt;
    hide TouchesOnly;
    hide Digests;
    hide Place;
    hide Path;
    var prm := PrePrm(st.pidx, salt, stem);
    MakeIs(st, Fresh(icount), ncount, salt, stem, said, quorums, Accepted);
    FreshLots(prm, icount, ncount);
    MadeRotates(st, Fresh(icount), ncount, salt, stem, said, quorums, count, after, h,
                StartLots(prm, Fresh(icount), ncount));
  }
}
