/** Runs of the Manager of app/keeping.py: incept and rotate, ingest and replay,
    and what a move to the prefix of the inception event carries along. */
module KeepingRuns {
  import opened Collections
  import opened Results
  import opened Keeping
  import opened KeepingLaws

  /** Everything a store holds belongs to a prefix that pres reserves. */
  ghost predicate Sound(st: Store) {
    && (forall k | k in st.pubs :: k.0 in st.pres)
    && (forall q | q in st.prms :: q in st.pres)
    && (forall q | q in st.sits :: q in st.pres)
  }

  /** One call on the Manager. */
  datatype Op =
    | DoIncept(salt: string, stem: string, icount: int, ncount: int)
    | DoRotate(pre: Pub, count: int, erase: bool)
    | DoReplay(pre: Pub, advance: bool, erase: bool)
    | DoMove(src: Pub, dst: Pub)
    | DoIngest(lists: seq<seq<nat>>, iridx: nat, salt: string, stem: string, extra: nat)

  function Step(st: Store, op: Op): Store {
    match op
    case DoIncept(salt, stem, icount, ncount) => Incept(st, salt, stem, icount, ncount).0
    case DoRotate(pre, count, erase) => Rotate(st, pre, count, erase).0
    case DoReplay(pre, advance, erase) => Replay(st, pre, advance, erase).0
    case DoMove(src, dst) => Move(st, src, dst).0
    case DoIngest(lists, iridx, salt, stem, ncount) => Ingest(st, lists, iridx, salt, stem, ncount).0
  }

  function Run(st: Store, ops: seq<Op>): Store {
    if ops == [] then st else Step(Run(st, ops[..|ops| - 1]), ops[|ops| - 1])
  }

  lemma IngestListSound(st: Store, pre: Pub, secrets: seq<nat>, iridx: nat, j: nat, kidx: nat)
    requires Sound(st) && pre in st.pres
    ensures Sound(IngestList(st, pre, secrets, iridx, j, kidx))
    ensures IngestList(st, pre, secrets, iridx, j, kidx).pres == st.pres
  {
    hide Secrets;
    hide ToSet;
    hide IngestSits;
    OneSit(st.sits, pre, PubLot(Secrets(secrets), j, kidx), iridx, j);
  }

  lemma {:induction false} IngestFromSound(st: Store, pre: Pub, lists: seq<seq<nat>>, iridx: nat, j: nat, kidx: nat)
    requires Sound(st) && pre in st.pres && j <= |lists|
    ensures var st' := IngestFrom(st, pre, lists, iridx, j, kidx).0; Sound(st') && st'.pres == st.pres
    decreases |lists| - j
  {
    hide IngestList;
    hide Sound;
    if j >= |lists| {
    } else {
      IngestListSound(st, pre, lists[j], iridx, j, kidx);
      IngestFromSound(IngestList(st, pre, lists[j], iridx, j, kidx), pre, lists, iridx, j + 1, kidx + |lists[j]|);
    }
  }

  lemma IngestSound(st: Store, lists: seq<seq<nat>>, iridx: nat, salt: string, stem: string, ncount: nat)
    requires Sound(st)
    ensures Sound(Ingest(st, lists, iridx, salt, stem, ncount).0)
  {
    hide IngestFrom;
    hide Create;
    if iridx <= |lists| && lists != [] && lists[0] != [] {
      var pre := Given(lists[0][0]);
      if pre !in st.pres {
        var prm := PrePrm(st.pidx, salt, stem);
        var st2 := st.(pres := st.pres[pre := pre], prms := st.prms[pre := prm], pidx := st.pidx + 1);
        IngestFromSound(st2, pre, lists, iridx, 0, 0);
      }
    }
  }

  /** The copy of the entries of src under dst, all of them or up to a clash. */
  lemma {:induction false} CopyPubsKeys(m: map<(Pub, nat), seq<Pub>>, src: Pub, dst: Pub, i: nat)
    requires src != dst
    ensures var (m', ok) := CopyPubs(m, src, dst, i);
      && (forall k | k in m :: k in m' && m'[k] == m[k])
      && (forall k | k in m' :: k in m || k.0 == dst)
      && ((forall j: nat | i <= j :: (dst, j) !in m) ==> ok)
    decreases Ahead(m, src, i)
  {
    if (src, i) in m && (dst, i) !in m {
      AheadShrinks(m, src, dst, i, m[(src, i)]);
      CopyPubsKeys(m[(dst, i) := m[(src, i)]], src, dst, i + 1);
    }
  }

  lemma MoveSound(st: Store, src: Pub, dst: Pub)
    requires Sound(st)
    ensures Sound(Move(st, src, dst).0)
    ensures Move(st, src, dst).1 == Pass || Move(st, src, dst).0 == st
    ensures Move(st, src, dst).1 == Pass
      <==> src == dst || (src in st.pres && dst !in st.pres && src in st.prms && src in st.sits)
  {
    hide CopyPubs;
    if src != dst {
      CopyPubsKeys(st.pubs, src, dst, 0);
    }
  }

  /** In a sound store an incept fails only on its counts or on a key that is
      reserved already, and a failed incept changes nothing. */
  lemma InceptSound(st: Store, salt: string, stem: string, icount: int, ncount: int)
    requires Sound(st)
    ensures var (st', r) := Incept(st, salt, stem, icount, ncount);
      && Sound(st')
      && (r.Ok? <==> icount > 0 && ncount >= 0 && Create(PrePrm(st.pidx, salt, stem), 0, 0, icount)[0] !in st.pres)
      && (!r.Ok? ==> st' == st)
  {
    hide Create;
  }

  lemma StepSound(st: Store, op: Op)
    requires Sound(st)
    ensures Sound(Step(st, op))
  {
    match op
    case DoIncept(salt, stem, icount, ncount) =>
      hide Incept;
      InceptSound(st, salt, stem, icount, ncount);
    case DoRotate(pre, count, erase) =>
      hide Create;
    case DoReplay(pre, advance, erase) =>
    case DoMove(src, dst) =>
      hide Move;
      MoveSound(st, src, dst);
    case DoIngest(lists, iridx, salt, stem, ncount) =>
      hide Ingest;
      IngestSound(st, lists, iridx, salt, stem, ncount);
  }

  /** Every store that calls on the Manager reach from a sound one is sound. */
  lemma {:induction false} RunsAreSound(st: Store, ops: seq<Op>)
    requires Sound(st)
    ensures Sound(Run(st, ops))
  {
    if ops == [] {
    } else {
      RunsAreSound(st, ops[..|ops| - 1]);
      StepSound(Run(st, ops[..|ops| - 1]), ops[|ops| - 1]);
    }
  }

  /** The key sequence a salty creator makes for a list of set sizes. */
  ghost function Salty(prm: PrePrm, counts: seq<nat>): (lots: seq<PubLot>)
    ensures |lots| == |counts|
  {
    if counts == [] then [] else
    var lots := Salty(prm, counts[..|counts| - 1]);
    lots + [NextLot(prm, lots, counts[|counts| - 1])]
  }

  lemma NoLots(prm: PrePrm)
    ensures Chain([], prm, 0)
  {
  }

  lemma NextLotSize(prm: PrePrm, lots: seq<PubLot>, ncount: nat)
    ensures |NextLot(prm, lots, ncount).pubs| == ncount
  {
  }

  lemma {:induction false} SaltyChain(prm: PrePrm, counts: seq<nat>)
    ensures Chain(Salty(prm, counts), prm, 0)
    ensures forall j | 0 <= j < |counts| :: |Salty(prm, counts)[j].pubs| == counts[j]
  {
    hide Chain;
    hide NextLot;
    if counts == [] {
      NoLots(prm);
    } else {
      var n := |counts| - 1;
      SaltyChain(prm, counts[..n]);
      NextLotSize(prm, Salty(prm, counts[..n]), counts[n]);
      ChainExtends(Salty(prm, counts[..n]), prm, 0, counts[n]);
    }
  }

  lemma SaltyPrefix(prm: PrePrm, counts: seq<nat>)
    requires counts != []
    ensures Salty(prm, counts) == Salty(prm, counts[..|counts| - 1])
      + [NextLot(prm, Salty(prm, counts[..|counts| - 1]), counts[|counts| - 1])]
  {
  }

  /** The store after a successful incept. */
  ghost function Incepted(st: Store, pre: Pub, prm: PrePrm, now: PubLot, nxt: PubLot): Store {
    Store(st.pres[pre := pre], st.prms[pre := prm], st.sits[pre := PreSit(NOLOT, now, nxt)],
          st.pubs[(pre, 0) := now.pubs][(pre, 1) := nxt.pubs], st.pris + ToSet(now.pubs) + ToSet(nxt.pubs), st.pidx + 1)
  }

  lemma InceptIs(st: Store, salt: string, stem: string, icount: nat, ncount: nat)
    requires Sound(st) && Incept(st, salt, stem, icount, ncount).1.Ok?
    ensures var prm := PrePrm(st.pidx, salt, stem);
      var now, nxt := PubLot(Create(prm, 0, 0, icount), 0, 0), PubLot(Create(prm, 1, icount, ncount), 1, icount);
      && icount > 0 && now.pubs[0] !in st.pres
      && Incept(st, salt, stem, icount, ncount)
        == (Incepted(st, now.pubs[0], prm, now, nxt), Ok((now.pubs, Digests(nxt.pubs))))
  {
    hide Create;
    hide ToSet;
    hide Digests;
  }

  lemma InceptedStands(st: Store, pre: Pub, prm: PrePrm, lots: seq<PubLot>)
    requires Sound(st) && pre !in st.pres && |lots| == 2
    ensures StandsAt(Incepted(st, pre, prm, lots[0], lots[1]), pre, prm, lots, 0)
    ensures OthersKept(st, Incepted(st, pre, prm, lots[0], lots[1]), pre)
  {
    hide AllHeld;
    hide Listed;
    InceptedListed(st, pre, prm, lots);
    InceptedHeld(st, pre, prm, lots);
    hide Sound;
  }

  lemma InceptedListed(st: Store, pre: Pub, prm: PrePrm, lots: seq<PubLot>)
    requires Sound(st) && pre !in st.pres && |lots| == 2
    ensures Listed(Incepted(st, pre, prm, lots[0], lots[1]), pre, lots)
  {
    hide ToSet;
  }

  lemma InceptedHeld(st: Store, pre: Pub, prm: PrePrm, lots: seq<PubLot>)
    requires |lots| == 2
    ensures AllHeld(Incepted(st, pre, prm, lots[0], lots[1]), lots, 0)
  {
    forall j, i | 0 <= j < 2 && 0 <= i < |lots[j].pubs|
      ensures lots[j].pubs[i] in Incepted(st, pre, prm, lots[0], lots[1]).pris
    {
      assert lots[j].pubs[i] in ToSet(lots[j].pubs);
    }
  }

  /** A successful incept stands at the first lot of its key sequence. */
  lemma InceptStarts(st: Store, salt: string, stem: string, icount: nat, ncount: nat)
    requires Sound(st)
    requires Incept(st, salt, stem, icount, ncount).1.Ok?
    ensures var prm := PrePrm(st.pidx, salt, stem); var lots := Salty(prm, [icount, ncount]);
      var (st', r) := Incept(st, salt, stem, icount, ncount);
      && icount > 0 && r == Ok((lots[0].pubs, Digests(lots[1].pubs)))
      && StandsAt(st', lots[0].pubs[0], prm, lots, 0) && OthersKept(st, st', lots[0].pubs[0])
  {
    hide Create;
    hide Incept;
    hide StandsAt;
    hide OthersKept;
    hide Salty;
    hide Sound;
    var prm := PrePrm(st.pidx, salt, stem);
    var lots := Salty(prm, [icount, ncount]);
    FirstLots(prm, icount, ncount);
    InceptIs(st, salt, stem, icount, ncount);
    InceptedStands(st, lots[0].pubs[0], prm, lots);
  }

  lemma FirstLots(prm: PrePrm, icount: nat, ncount: nat)
    ensures Salty(prm, [icount, ncount]) ==
      [PubLot(Create(prm, 0, 0, icount), 0, 0), PubLot(Create(prm, 1, icount, ncount), 1, icount)]
  {
    hide Create;
    assert [icount, ncount][..1] == [icount] && [icount][..0] == [];
    var one := Salty(prm, [icount]);
    assert one == [NextLot(prm, [], icount)];
    assert one[..0] == [] && Total(one) == Total([]) + icount;
  }

  /** An incept and then a rotate for every later set size; the last store and
      the answers in order. */
  ghost function SaltyRun(st: Store, salt: string, stem: string, counts: seq<nat>, erase: bool)
    : (Store, seq<Result<Keys>>)
    requires |counts| >= 2
  {
    if |counts| == 2 then
      var (st1, r) := Incept(st, salt, stem, counts[0], counts[1]); (st1, [r])
    else
      var n := |counts| - 1;
      var (st1, rs) := SaltyRun(st, salt, stem, counts[..n], erase);
      var pre := Create(PrePrm(st.pidx, salt, stem), 0, 0, counts[0] + 1)[0];
      var (st2, r) := Rotate(st1, pre, counts[n], erase);
      (st2, rs + [r])
  }

  lemma OthersKeptTwice(a: Store, b: Store, c: Store, pre: Pub)
    requires OthersKept(a, b, pre) && OthersKept(b, c, pre)
    ensures OthersKept(a, c, pre)
  {
  }

  lemma FirstKey(prm: PrePrm, counts: seq<nat>)
    requires counts != [] && counts[0] > 0
    ensures |Salty(prm, counts)[0].pubs| == counts[0]
    ensures Salty(prm, counts)[0].pubs[0] == Create(prm, 0, 0, counts[0] + 1)[0]
  {
    hide Path;
    SaltyChain(prm, counts);
    assert Salty(prm, counts)[..0] == [];
  }

  /** Every answer of the run gives the keys of one lot and the digests of the
      lot after it: what one step commits to is what the next step reveals.  The
      store ends at the last lot but one, holding the whole list of lots; with
      erase it holds the private keys of the last three and of no other. */
  lemma {:induction false} SaltyRunStands(st: Store, salt: string, stem: string, counts: seq<nat>, erase: bool)
    requires Sound(st) && |counts| >= 2
    requires forall i | 0 <= i < |counts| - 1 :: counts[i] > 0
    requires Create(PrePrm(st.pidx, salt, stem), 0, 0, counts[0])[0] !in st.pres
    ensures var prm := PrePrm(st.pidx, salt, stem); var lots := Salty(prm, counts);
      var (st', rs) := SaltyRun(st, salt, stem, counts, erase);
      && |rs| == |counts| - 1
      && (forall i | 0 <= i < |rs| :: rs[i] == Ok((lots[i].pubs, Digests(lots[i + 1].pubs))))
      && |lots[0].pubs| > 0 && Chain(lots, prm, 0)
      && StandsAt(st', lots[0].pubs[0], prm, lots, |counts| - 2)
      && OthersKept(st, st', lots[0].pubs[0])
      && (erase ==> NoneHeld(st', lots, |counts| - 3))
  {
    hide StandsAt;
    hide NoneHeld;
    hide OthersKept;
    hide Chain;
    hide Rotate;
    hide Incept;
    hide NextLot;
    hide Create;
    hide Digests;
    var prm := PrePrm(st.pidx, salt, stem);
    var lots := Salty(prm, counts);
    FirstKey(prm, counts);
    SaltyChain(prm, counts);
    var n := |counts| - 1;
    if n == 1 {
      assert counts == [counts[0], counts[1]];
      InceptSound(st, salt, stem, counts[0], counts[1]);
      InceptStarts(st, salt, stem, counts[0], counts[1]);
      assert NoneHeld(SaltyRun(st, salt, stem, counts, erase).0, lots, -1) by {
        NoneHeldBelow(SaltyRun(st, salt, stem, counts, erase).0, lots);
      }
    } else {
      var fore := counts[..n];
      var (st1, rs) := SaltyRun(st, salt, stem, fore, erase);
      SaltyRunStands(st, salt, stem, fore, erase);
      SaltyPrefix(prm, counts);
      SaltyChain(prm, fore);
      RotateSteps(st1, lots[0].pubs[0], prm, Salty(prm, fore), n - 2, 0, counts[n], erase);
      OthersKeptTwice(st, st1, SaltyRun(st, salt, stem, counts, erase).0, lots[0].pubs[0]);
    }
  }

  lemma NoneHeldBelow(st: Store, lots: seq<PubLot>)
    ensures NoneHeld(st, lots, -1)
  {
  }

  /** The lots of the lists of secrets handed to ingest. */
  ghost function GivenLots(lists: seq<seq<nat>>): (lots: seq<PubLot>)
    ensures |lots| == |lists|
  {
    if lists == [] then [] else
    var k := |lists| - 1;
    var lots := GivenLots(lists[..k]);
    lots + [PubLot(Secrets(lists[k]), k, Total(lots))]
  }

  ghost predicate AllDistinct(lists: seq<seq<nat>>) {
    forall j, i, j', i' | 0 <= j < |lists| && 0 <= i < |lists[j]| && 0 <= j' < |lists| && 0 <= i' < |lists[j']|
      && (j, i) != (j', i') :: lists[j][i] != lists[j'][i']
  }

  lemma {:induction false} GivenLotsAt(lists: seq<seq<nat>>, j: nat)
    requires j < |lists|
    ensures var lots := GivenLots(lists); lots[j] == PubLot(Secrets(lists[j]), j, Total(lots[..j]))
  {
    var k := |lists| - 1;
    hide Secrets;
    if j < k {
      GivenLotsAt(lists[..k], j);
    }
    assert GivenLots(lists)[..j] == GivenLots(lists[..k])[..j];
  }

  lemma GivenKey(lists: seq<seq<nat>>, j: nat, i: nat)
    requires j < |lists| && i < |GivenLots(lists)[j].pubs|
    ensures i < |lists[j]| && GivenLots(lists)[j].pubs[i] == Given(lists[j][i])
  {
    hide GivenLots;
    hide Total;
    GivenLotsAt(lists, j);
  }

  lemma {:induction false} GivenLotsChain(lists: seq<seq<nat>>, prm: PrePrm)
    requires AllDistinct(lists)
    ensures Chain(GivenLots(lists), prm, |lists|)
  {
    var lots := GivenLots(lists);
    hide GivenLots;
    hide Create;
    hide Total;
    hide Secrets;
    forall j | 0 <= j < |lots| ensures lots[j].ridx == j && lots[j].kidx == Total(lots[..j]) {
      GivenLotsAt(lists, j);
    }
    forall j, i | 0 <= j < |lots| && 0 <= i < |lots[j].pubs|
      ensures i < |lists[j]| && lots[j].pubs[i] == Given(lists[j][i])
    {
      GivenKey(lists, j, i);
    }
  }

  /** The situation ingest has written after j lists. */
  ghost function SitAfter(lots: seq<PubLot>, iridx: nat, j: nat): PreSit
    requires j <= |lots| && iridx <= j && (j == 0 ==> iridx == 0)
  {
    PreSit(Before(lots, iridx), if iridx < j then lots[iridx] else NOLOT,
           if iridx + 1 < j then lots[iridx + 1] else NOLOT)
  }

  /** After j lists: the lots so far are listed and held, and the situation is
      there from the list before iridx on. */
  ghost predicate Ingested(st0: Store, st: Store, pre: Pub, lots: seq<PubLot>, iridx: nat, j: nat) {
    && j <= |lots|
    && st.pres == st0.pres && st.prms == st0.prms && st.pidx == st0.pidx
    && Listed(st, pre, lots[..j]) && AllHeld(st, lots[..j], 0) && OthersKept(st0, st, pre)
    && (pre in st.sits <==> j > 0 && iridx <= j)
    && (pre in st.sits ==> st.sits[pre] == SitAfter(lots, iridx, j))
  }

  lemma NotListed(st: Store, pre: Pub, lots: seq<PubLot>)
    requires Listed(st, pre, lots)
    ensures (pre, |lots|) !in st.pubs
  {
  }

  lemma HeldAlso(st: Store, st': Store, lots: seq<PubLot>, j: nat)
    requires j < |lots| && AllHeld(st, lots[..j], 0) && st'.pris == st.pris + ToSet(lots[j].pubs)
    ensures AllHeld(st', lots[..j + 1], 0)
  {
    forall j', i | 0 <= j' < j + 1 && 0 <= i < |lots[j'].pubs| ensures lots[j'].pubs[i] in st'.pris {
      assert j' < j ==> lots[..j][j'] == lots[j'];
    }
  }

  lemma SitsOnly(st0: Store, st: Store, st': Store, pre: Pub, j: nat)
    requires OthersKept(st0, st, pre) && st'.prms == st.prms
    requires st'.sits == st.sits || (pre in st'.sits && st'.sits == st.sits[pre := st'.sits[pre]])
    requires (pre, j) in st'.pubs && st'.pubs == st.pubs[(pre, j) := st'.pubs[(pre, j)]]
    ensures OthersKept(st0, st', pre)
  {
  }

  lemma IngestListParts(st: Store, pre: Pub, secrets: seq<nat>, iridx: nat, j: nat, kidx: nat)
    ensures var st' := IngestList(st, pre, secrets, iridx, j, kidx);
      && st'.pres == st.pres && st'.prms == st.prms && st'.pidx == st.pidx
      && st'.pris == st.pris + ToSet(Secrets(secrets)) && st'.pubs == PutPubs(st.pubs, pre, j, Secrets(secrets))
      && (st'.sits == st.sits || (pre in st'.sits && st'.sits == st.sits[pre := st'.sits[pre]]))
  {
    hide Secrets;
    hide ToSet;
    hide PutPubs;
    hide IngestSits;
    OneSit(st.sits, pre, PubLot(Secrets(secrets), j, kidx), iridx, j);
  }

  lemma OneSit(sits: map<Pub, PreSit>, pre: Pub, lot: PubLot, iridx: nat, j: nat)
    ensures var sits' := IngestSits(sits, pre, lot, iridx, j);
      sits' == sits || (pre in sits' && sits' == sits[pre := sits'[pre]])
  {
    var sits' := IngestSits(sits, pre, lot, iridx, j);
    if pre in sits' { SameUpdate(sits, sits', pre); }
  }

  /** A map that was updated twice at one place. */
  lemma SameUpdate<K, V>(m: map<K, V>, m': map<K, V>, k: K)
    requires k in m' && m'.Keys == m.Keys + {k} && forall q | q in m && q != k :: m'[q] == m[q]
    ensures m' == m[k := m'[k]]
  {
  }

  lemma IngestListSits(st: Store, pre: Pub, lots: seq<PubLot>, secrets: seq<nat>, iridx: nat, j: nat)
    requires j < |lots| && lots[j].pubs == Secrets(secrets) && lots[j].ridx == j
    requires pre in st.sits <==> j > 0 && iridx <= j
    requires pre in st.sits ==> st.sits[pre] == SitAfter(lots, iridx, j)
    ensures var sits := IngestList(st, pre, secrets, iridx, j, lots[j].kidx).sits;
      && (pre in sits <==> iridx <= j + 1)
      && (pre in sits ==> sits[pre] == SitAfter(lots, iridx, j + 1))
  {
    hide Secrets;
    hide ToSet;
    hide PutPubs;
  }

  lemma {:induction false} IngestListStep(st0: Store, st: Store, pre: Pub, lots: seq<PubLot>,
                                          secrets: seq<nat>, iridx: nat, j: nat)
    requires Ingested(st0, st, pre, lots, iridx, j) && j < |lots|
    requires lots[j].pubs == Secrets(secrets) && lots[j].ridx == j
    ensures Ingested(st0, IngestList(st, pre, secrets, iridx, j, lots[j].kidx), pre, lots, iridx, j + 1)
  {
    hide Secrets;
    hide Listed;
    hide AllHeld;
    hide OthersKept;
    hide IngestList;
    hide ToSet;
    hide SitAfter;
    var st' := IngestList(st, pre, secrets, iridx, j, lots[j].kidx);
    IngestListParts(st, pre, secrets, iridx, j, lots[j].kidx);
    IngestListSits(st, pre, lots, secrets, iridx, j);
    NotListed(st, pre, lots[..j]);
    assert lots[..j + 1][..j] == lots[..j];
    assert st'.pubs == st.pubs[(pre, j) := lots[j].pubs];
    ListedAfterStep(st, st', pre, lots[..j + 1], j);
    HeldAlso(st, st', lots, j);
    SitsOnly(st0, st, st', pre, j);
  }

  lemma {:induction false} IngestFromSteps(st0: Store, st: Store, pre: Pub, lists: seq<seq<nat>>, iridx: nat, j: nat)
    requires j <= |lists| && Ingested(st0, st, pre, GivenLots(lists), iridx, j)
    ensures var (st', kidx) := IngestFrom(st, pre, lists, iridx, j, Total(GivenLots(lists)[..j]));
      && Ingested(st0, st', pre, GivenLots(lists), iridx, |lists|) && kidx == Total(GivenLots(lists))
    decreases |lists| - j
  {
    var lots := GivenLots(lists);
    hide IngestList;
    hide Ingested;
    hide GivenLots;
    hide Secrets;
    if j < |lists| {
      GivenLotsAt(lists, j);
      IngestListStep(st0, st, pre, lots, lists[j], iridx, j);
      assert Total(lots[..j + 1]) == Total(lots[..j]) + |lists[j]| by {
        assert lots[..j + 1][..j] == lots[..j];
      }
      IngestFromSteps(st0, IngestList(st, pre, lists[j], iridx, j, lots[j].kidx), pre, lists, iridx, j + 1);
    } else {
      assert lots[..j] == lots;
    }
  }

  /** The lots after ingest: those given and one more, made by the salty creator. */
  ghost function IngestLots(prm: PrePrm, lists: seq<seq<nat>>, ncount: nat): seq<PubLot> {
    GivenLots(lists) + [NextLot(prm, GivenLots(lists), ncount)]
  }

  lemma IngestedAtFirst(st: Store, st2: Store, pre: Pub, lots: seq<PubLot>, iridx: nat)
    requires Sound(st) && pre !in st.pres
    requires pre in st2.prms && st2.prms == st.prms[pre := st2.prms[pre]]
    requires st2.sits == st.sits && st2.pubs == st.pubs
    ensures Ingested(st2, st2, pre, lots, iridx, 0) && OthersKept(st, st2, pre)
  {
  }

  /** What ingest does after its loop. */
  ghost function Topped(st: Store, pre: Pub, made: PubLot, iridx: nat): Store {
    var st4 := st.(pris := st.pris + ToSet(made.pubs), pubs := PutPubs(st.pubs, pre, made.ridx, made.pubs));
    if made.ridx == iridx + 1 && pre in st4.sits
    then st4.(sits := st4.sits[pre := st4.sits[pre].(nxt := made)]) else st4
  }

  lemma IngestIs(st: Store, lists: seq<seq<nat>>, iridx: nat, salt: string, stem: string, ncount: nat)
    requires Sound(st) && iridx <= |lists| && lists != [] && lists[0] != [] && Given(lists[0][0]) !in st.pres
    ensures var prm := PrePrm(st.pidx, salt, stem); var pre := Given(lists[0][0]);
      var st2 := st.(pres := st.pres[pre := pre], prms := st.prms[pre := prm], pidx := st.pidx + 1);
      var (st3, kidx) := IngestFrom(st2, pre, lists, iridx, 0, 0);
      Ingest(st, lists, iridx, salt, stem, ncount)
        == (Topped(st3, pre, PubLot(Create(prm, |lists|, kidx, ncount), |lists|, kidx), iridx), Ok(pre))
  {
    hide Create;
    hide IngestFrom;
    hide PutPubs;
    hide ToSet;
  }

  lemma ToppedStands(st0: Store, st: Store, pre: Pub, prm: PrePrm, given: seq<PubLot>, made: PubLot, iridx: nat)
    requires Ingested(st0, st, pre, given, iridx, |given|) && made.ridx == |given| && iridx < |given|
    requires pre in st0.prms && st0.prms[pre] == prm
    ensures StandsAt(Topped(st, pre, made, iridx), pre, prm, given + [made], iridx)
    ensures OthersKept(st0, Topped(st, pre, made, iridx), pre)
  {
    hide Listed;
    hide AllHeld;
    hide OthersKept;
    hide ToSet;
    hide Total;
    var k := |given|;
    var lots := given + [made];
    var st' := Topped(st, pre, made, iridx);
    assert given[..k] == given == lots[..k] && lots[..k + 1] == lots;
    NotListed(st, pre, given);
    ListedAfterStep(st, st', pre, lots, k);
    HeldAlso(st, st', lots, k);
    HeldLater(st', lots, if iridx == 0 then 0 else iridx - 1);
    SitsOnly(st0, st, st', pre, k);
  }

  lemma HeldLater(st: Store, lots: seq<PubLot>, n: nat)
    requires AllHeld(st, lots, 0)
    ensures AllHeld(st, lots, n)
  {
  }

  /** An ingest of distinct keys that begins before the last of its lists stands
      at list iridx of a sequence whose lots are the lists and one made lot. */
  lemma IngestStarts(st: Store, lists: seq<seq<nat>>, iridx: nat, salt: string, stem: string, ncount: nat)
    requires Sound(st) && iridx < |lists| && lists[0] != [] && AllDistinct(lists)
    requires Given(lists[0][0]) !in st.pres
    ensures var prm := PrePrm(st.pidx, salt, stem); var lots := IngestLots(prm, lists, ncount);
      var (st', r) := Ingest(st, lists, iridx, salt, stem, ncount); var pre := Given(lists[0][0]);
      && r == Ok(pre) && Chain(lots, prm, |lists|) && StandsAt(st', pre, prm, lots, iridx) && OthersKept(st, st', pre)
  {
    hide AllDistinct;
    hide Chain;
    hide StandsAt;
    hide OthersKept;
    hide Ingested;
    hide Ingest;
    hide IngestFrom;
    hide Create;
    hide Topped;
    hide GivenLots;
    var prm := PrePrm(st.pidx, salt, stem);
    var pre := Given(lists[0][0]);
    var given := GivenLots(lists);
    var st2 := st.(pres := st.pres[pre := pre], prms := st.prms[pre := prm], pidx := st.pidx + 1);
    IngestIs(st, lists, iridx, salt, stem, ncount);
    IngestedAtFirst(st, st2, pre, given, iridx);
    assert Total(given[..0]) == 0;
    IngestFromSteps(st2, st2, pre, lists, iridx, 0);
    var (st3, kidx) := IngestFrom(st2, pre, lists, iridx, 0, 0);
    ToppedStands(st2, st3, pre, prm, given, NextLot(prm, given, ncount), iridx);
    OthersKeptTwice(st, st2, Topped(st3, pre, NextLot(prm, given, ncount), iridx), pre);
    GivenLotsChain(lists, prm);
    ChainExtends(given, prm, |lists|, ncount);
  }

  /** An ingest that begins after the last of its lists is accepted too, but has
      no current and no next lot: the first replay answers no keys at all, and
      the digests of lot 1. */
  lemma IngestPastEnd(st: Store, lists: seq<seq<nat>>, salt: string, stem: string, ncount: nat, erase: bool)
    requires Sound(st) && lists != [] && lists[0] != [] && Given(lists[0][0]) !in st.pres
    ensures var prm := PrePrm(st.pidx, salt, stem); var lots := IngestLots(prm, lists, ncount);
      var (st', r) := Ingest(st, lists, |lists|, salt, stem, ncount); var pre := Given(lists[0][0]);
      && r == Ok(pre) && pre in st'.sits && st'.sits[pre] == PreSit(lots[|lists| - 1], NOLOT, NOLOT)
      && Replay(st', pre, true, erase).1 == Ok(([], Digests(lots[1].pubs)))
  {
    hide Ingest;
    hide IngestFrom;
    hide Create;
    hide GivenLots;
    hide ToSet;
    hide AllHeld;
    hide OthersKept;
    var prm := PrePrm(st.pidx, salt, stem);
    var pre := Given(lists[0][0]);
    var given := GivenLots(lists);
    var st2 := st.(pres := st.pres[pre := pre], prms := st.prms[pre := prm], pidx := st.pidx + 1);
    IngestIs(st, lists, |lists|, salt, stem, ncount);
    IngestedAtFirst(st, st2, pre, given, |lists|);
    assert Total(given[..0]) == 0;
    IngestFromSteps(st2, st2, pre, lists, |lists|, 0);
    var (st3, kidx) := IngestFrom(st2, pre, lists, |lists|, 0, 0);
    assert given[..|lists|] == given;
    NotListed(st3, pre, given);
  }

  /** Replay, advancing, a number of times; the last store and the answers. */
  ghost function Replays(st: Store, pre: Pub, erase: bool, times: nat): (Store, seq<Result<Keys>>) {
    if times == 0 then (st, []) else
    var (st1, rs) := Replays(st, pre, erase, times - 1);
    var (st2, r) := Replay(st1, pre, true, erase);
    (st2, rs + [r])
  }

  /** Replay from lots[n] walks the rest of the lots in order, each with the
      digests of the one after it.  It advances exactly |lots| - 2 - n times; all
      later calls raise IndexError and change nothing. */
  lemma {:induction false} ReplaysWalk(st: Store, pre: Pub, prm: PrePrm, lots: seq<PubLot>, n: nat, k: nat,
                                       erase: bool, times: nat)
    requires StandsAt(st, pre, prm, lots, n) && Chain(lots, prm, k)
    ensures var (st', rs) := Replays(st, pre, erase, times); var left := |lots| - 2 - n;
      && |rs| == times
      && (forall i | 0 <= i < times ::
            rs[i] == if i < left then Ok((lots[n + 1 + i].pubs, Digests(lots[n + 2 + i].pubs))) else Err(IndexError))
      && StandsAt(st', pre, prm, lots, n + if times < left then times else left)
      && OthersKept(st, st', pre)
      && (times > left ==> st' == Replays(st, pre, erase, left).0)
      && (erase && NoneHeld(st, lots, n - 1) ==> NoneHeld(st', lots, n - 1 + if times < left then times else left))
  {
    hide StandsAt;
    hide Chain;
    hide Replay;
    hide OthersKept;
    hide NoneHeld;
    hide Digests;
    assert n + 2 <= |lots| by {
      StandsBound(st, pre, prm, lots, n);
    }
    if times == 0 {
      OthersKeptSelf(st, pre);
    } else {
      var left := |lots| - 2 - n;
      var (st1, rs) := Replays(st, pre, erase, times - 1);
      ReplaysWalk(st, pre, prm, lots, n, k, erase, times - 1);
      var m := n + if times - 1 < left then times - 1 else left;
      ReplaySteps(st1, pre, prm, lots, m, k, erase);
      if m + 2 < |lots| {
        OthersKeptTwice(st, st1, Replays(st, pre, erase, times).0, pre);
      }
    }
  }

  lemma StandsBound(st: Store, pre: Pub, prm: PrePrm, lots: seq<PubLot>, n: nat)
    requires StandsAt(st, pre, prm, lots, n)
    ensures n + 2 <= |lots|
  {
  }

  lemma OthersKeptSelf(st: Store, pre: Pub)
    ensures OthersKept(st, st, pre)
  {
  }

  /** From ingest on: of k distinct lists begun at iridx, exactly k - 1 - iridx
      replays advance, and the last one commits to the made keys. */
  lemma IngestReplays(st: Store, lists: seq<seq<nat>>, iridx: nat, salt: string, stem: string, ncount: nat,
                      erase: bool, times: nat)
    requires Sound(st) && iridx < |lists| && lists[0] != [] && AllDistinct(lists)
    requires Given(lists[0][0]) !in st.pres
    ensures var prm := PrePrm(st.pidx, salt, stem); var lots := IngestLots(prm, lists, ncount);
      var pre := Given(lists[0][0]); var st1 := Ingest(st, lists, iridx, salt, stem, ncount).0;
      var (st', rs) := Replays(st1, pre, erase, times); var left := |lists| - 1 - iridx;
      && |rs| == times
      && (forall i | 0 <= i < times && i < left ::
            rs[i] == Ok((Secrets(lists[iridx + 1 + i]), Digests(lots[iridx + 2 + i].pubs))))
      && (forall i | left <= i < times :: rs[i] == Err(IndexError))
      && (times > left ==> st' == Replays(st1, pre, erase, left).0)
  {
    hide Ingest;
    hide Replays;
    hide StandsAt;
    hide AllDistinct;
    hide Chain;
    hide OthersKept;
    hide NoneHeld;
    hide GivenLots;
    var prm := PrePrm(st.pidx, salt, stem);
    var lots := IngestLots(prm, lists, ncount);
    IngestStarts(st, lists, iridx, salt, stem, ncount);
    var st1 := Ingest(st, lists, iridx, salt, stem, ncount).0;
    ReplaysWalk(st1, Given(lists[0][0]), prm, lots, iridx, |lists|, erase, times);
    forall j | 0 <= j < |lists| ensures lots[j].pubs == Secrets(lists[j]) {
      GivenLotsAt(lists, j);
    }
  }

  lemma {:induction false} CopyPubsCopies(m: map<(Pub, nat), seq<Pub>>, src: Pub, dst: Pub, i: nat, lots: seq<PubLot>)
    requires src != dst && i <= |lots|
    requires forall j | 0 <= j < |lots| :: (src, j) in m && m[(src, j)] == lots[j].pubs
    requires forall j: nat | |lots| <= j :: (src, j) !in m
    requires forall j | 0 <= j < i :: (dst, j) in m && m[(dst, j)] == lots[j].pubs
    requires forall j: nat | i <= j :: (dst, j) !in m
    ensures var (m', ok) := CopyPubs(m, src, dst, i);
      && ok
      && (forall j | 0 <= j < |lots| :: (dst, j) in m' && m'[(dst, j)] == lots[j].pubs)
      && (forall j: nat | |lots| <= j :: (dst, j) !in m')
    decreases |lots| - i
  {
    if i >= |lots| {
    } else {
      CopyPubsCopies(m[(dst, i) := m[(src, i)]], src, dst, i + 1, lots);
    }
  }

  /** A move to a prefix that is not reserved carries the whole sequence: the store
      stands at the same lot under the new prefix, the old one keeps its list of
      keys but has no situation any more, and every other prefix keeps all. */
  lemma MoveTransports(st: Store, src: Pub, dst: Pub, prm: PrePrm, lots: seq<PubLot>, n: nat)
    requires Sound(st) && src != dst && dst !in st.pres && StandsAt(st, src, prm, lots, n)
    ensures var (st', r) := Move(st, src, dst);
      && r == Pass && StandsAt(st', dst, prm, lots, n) && Listed(st', src, lots)
      && src !in st'.prms && src !in st'.sits && st'.pris == st.pris
      && st'.pres == st.pres[src := dst][dst := dst]
      && (forall q | q != src && q != dst :: q in st.sits <==> q in st'.sits)
      && (forall q | q != src && q != dst && q in st.sits :: st'.sits[q] == st.sits[q])
      && (forall k | k in st.pubs :: k in st'.pubs && st'.pubs[k] == st.pubs[k])
  {
    hide CopyPubs;
    hide AllHeld;
    CopyPubsKeys(st.pubs, src, dst, 0);
    CopyPubsCopies(st.pubs, src, dst, 0, lots);
    assert AllHeld(Move(st, src, dst).0, lots, if n == 0 then 0 else n - 1) by {
      HeldSame(st, Move(st, src, dst).0, lots, if n == 0 then 0 else n - 1);
    }
  }

  lemma HeldSame(st: Store, st': Store, lots: seq<PubLot>, n: nat)
    requires AllHeld(st, lots, n) && st.pris == st'.pris
    ensures AllHeld(st', lots, n)
  {
  }
}
