/** What app/keeping.py promises of a key sequence: where each key set is, that
    no key is made twice, and what every operation does to it. */
module KeepingLaws {
  import opened Collections
  import opened Radix
  import opened Results
  import opened Versions
  import opened VersionsLaws
  import opened Keeping

  /** The number of keys in a list of lots. */
  function Total(lots: seq<PubLot>): nat {
    if lots == [] then 0 else Total(lots[..|lots| - 1]) + |lots[|lots| - 1].pubs|
  }

  /** A key sequence: lot j was made at rotation j from the key index where the
      lots before it end; the first k lots are given, the others derived. */
  ghost predicate Chain(lots: seq<PubLot>, prm: PrePrm, k: nat) {
    && (forall j | 0 <= j < |lots| :: lots[j].ridx == j && lots[j].kidx == Total(lots[..j]))
    && (forall j | k <= j < |lots| :: lots[j].pubs == Create(prm, j, lots[j].kidx, |lots[j].pubs|))
    && (forall j, i | 0 <= j < |lots| && j < k && 0 <= i < |lots[j].pubs| :: lots[j].pubs[i].Given?)
    && (forall j, i, j', i' | 0 <= j < |lots| && j < k && 0 <= j' < |lots| && j' < k
          && 0 <= i < |lots[j].pubs| && 0 <= i' < |lots[j'].pubs| && (j, i) != (j', i') ::
          lots[j].pubs[i] != lots[j'].pubs[i'])
  }

  /** The width of a hex number never falls. */
  lemma {:induction false} WidthMonotone(b: Base, m: nat, n: nat)
    requires m <= n
    ensures Width(b, m) <= Width(b, n)
  {
    WidthFits(b, n, Width(b, n));
    WidthFits(b, m, Width(b, n));
  }

  /** Though ridx and kidx are joined without a separator, a path is never made
      twice while ridx does not fall and kidx rises. */
  lemma PathsDiffer(prm: PrePrm, r: nat, k: nat, r': nat, k': nat)
    requires r <= r' && k < k'
    ensures Path(prm, r, k) != Path(prm, r', k')
  {
    hide HexStr;
    hide HexVal;
    WidthMonotone(B16, r, r');
    WidthMonotone(B16, k, k');
    var s, a, b, a', b' := if prm.stem != "" then prm.stem else HexStr(prm.pidx, 1),
      HexStr(r, 1), HexStr(k, 1), HexStr(r', 1), HexStr(k', 1);
    HexWidth(r);
    HexWidth(k);
    HexWidth(r');
    HexWidth(k');
    if s + a + b == s + a' + b' {
      assert |a| == |a'| && |b| == |b'|;
      assert b == (s + a + b)[|s| + |a|..] == (s + a' + b')[|s| + |a'|..] == b';
      HexRoundTrip(k, 1);
      HexRoundTrip(k', 1);
    }
  }

  lemma HexWidth(v: nat)
    ensures |HexStr(v, 1)| == Width(B16, v)
  {
  }

  /** Without the order the join is ambiguous: ridx 1 kidx 0x11 and ridx 0x11
      kidx 1 share a path. */
  lemma PathsCanMeet(prm: PrePrm)
    ensures Path(prm, 1, 17) == Path(prm, 17, 1)
  {
    assert HexStr(1, 1) == "1" by {
      assert Written(B16, 1, 1) == Digits(B16, 0, 0) + [1];
    }
    assert HexStr(17, 1) == "11" by {
      assert Width(B16, 1) == 1 && Width(B16, 17) == 2;
      assert Digits(B16, 17, 2) == Digits(B16, 1, 1) + [1];
      assert Digits(B16, 1, 1) == Digits(B16, 0, 0) + [1];
    }
    var s := if prm.stem != "" then prm.stem else HexStr(prm.pidx, 1);
    assert s + "1" + "11" == s + "11" + "1";
  }

  lemma {:induction false} TotalMonotone(lots: seq<PubLot>, i: nat, j: nat)
    requires i < j <= |lots|
    ensures Total(lots[..i]) + |lots[i].pubs| <= Total(lots[..j])
  {
    assert lots[..j][..j - 1] == lots[..j - 1];
    if i + 1 >= j {
    } else {
      TotalMonotone(lots, i, j - 1);
    }
  }

  /** No two places of a key sequence hold the same key. */
  lemma KeysDistinct(lots: seq<PubLot>, prm: PrePrm, k: nat, j: nat, i: nat, j': nat, i': nat)
    requires Chain(lots, prm, k) && j < |lots| && j' < |lots| && i < |lots[j].pubs| && i' < |lots[j'].pubs|
    requires (j, i) != (j', i')
    ensures lots[j].pubs[i] != lots[j'].pubs[i']
  {
    if j' < j || (j == j' && i' < i) {
      KeysDistinct'(lots, prm, k, j', i', j, i);
    } else {
      KeysDistinct'(lots, prm, k, j, i, j', i');
    }
  }

  lemma KeysDistinct'(lots: seq<PubLot>, prm: PrePrm, k: nat, j: nat, i: nat, j': nat, i': nat)
    requires Chain(lots, prm, k) && j < |lots| && j' < |lots| && i < |lots[j].pubs| && i' < |lots[j'].pubs|
    requires j < j' || (j == j' && i < i')
    ensures lots[j].pubs[i] != lots[j'].pubs[i']
  {
    hide Path;
    hide Chain;
    if k <= j {
      DerivedAt(lots, prm, k, j, i);
      DerivedAt(lots, prm, k, j', i');
      KidxRises(lots, prm, k, j, i, j', i');
      PathsDiffer(prm, j, lots[j].kidx + i, j', lots[j'].kidx + i');
    } else {
      if k <= j' { DerivedAt(lots, prm, k, j', i'); }
      GivenAt(lots, prm, k, j, i, j', i');
    }
  }

  lemma KidxRises(lots: seq<PubLot>, prm: PrePrm, k: nat, j: nat, i: nat, j': nat, i': nat)
    requires Chain(lots, prm, k) && j < |lots| && j' < |lots| && i < |lots[j].pubs| && i' < |lots[j'].pubs|
    requires j < j' || (j == j' && i < i')
    ensures lots[j].kidx + i < lots[j'].kidx + i'
  {
    hide Create;
    hide Total;
    if j < j' { TotalMonotone(lots, j, j'); }
  }

  lemma GivenAt(lots: seq<PubLot>, prm: PrePrm, k: nat, j: nat, i: nat, j': nat, i': nat)
    requires Chain(lots, prm, k) && j < |lots| && j' < |lots| && i < |lots[j].pubs| && i' < |lots[j'].pubs|
    requires j < k && (j, i) != (j', i')
    ensures lots[j].pubs[i].Given? && (j' < k ==> lots[j].pubs[i] != lots[j'].pubs[i'])
  {
    hide Create;
    hide Total;
  }

  lemma DerivedAt(lots: seq<PubLot>, prm: PrePrm, k: nat, j: nat, i: nat)
    requires Chain(lots, prm, k) && k <= j < |lots| && i < |lots[j].pubs|
    ensures lots[j].pubs[i] == Derived(prm.salt, Path(prm, j, lots[j].kidx + i))
  {
  }

  ghost predicate AllHeld(st: Store, lots: seq<PubLot>, from: nat) {
    forall j, i | from <= j < |lots| && 0 <= i < |lots[j].pubs| :: lots[j].pubs[i] in st.pris
  }

  ghost predicate NoneHeld(st: Store, lots: seq<PubLot>, until: int) {
    forall j, i | 0 <= j < |lots| && j < until && 0 <= i < |lots[j].pubs| :: lots[j].pubs[i] !in st.pris
  }

  /** The lot before lots[n], the default before the first. */
  function Before(lots: seq<PubLot>, n: nat): PubLot
    requires n <= |lots|
  {
    if n == 0 then NOLOT else lots[n - 1]
  }

  /** pubs lists exactly the lots, from 0. */
  ghost predicate Listed(st: Store, pre: Pub, lots: seq<PubLot>) {
    && (forall j | 0 <= j < |lots| :: (pre, j) in st.pubs && st.pubs[(pre, j)] == lots[j].pubs)
    && (forall j: nat | |lots| <= j :: (pre, j) !in st.pubs)
  }

  /** The store stands at lots[n] of the sequence of pre: that lot is current, the
      one after it is next, pubs lists every lot from 0 and nothing after them,
      and no private key from the previous lot on is missing. */
  ghost predicate StandsAt(st: Store, pre: Pub, prm: PrePrm, lots: seq<PubLot>, n: nat) {
    && pre in st.prms && st.prms[pre] == prm
    && n + 1 < |lots|
    && pre in st.sits && st.sits[pre] == PreSit(Before(lots, n), lots[n], lots[n + 1])
    && Listed(st, pre, lots)
    && AllHeld(st, lots, if n == 0 then 0 else n - 1)
  }

  /** Other prefixes keep their parameters, situation and public keys. */
  ghost predicate OthersKept(st: Store, st': Store, pre: Pub) {
    && (forall q | q != pre :: q in st.prms <==> q in st'.prms)
    && (forall q | q != pre && q in st.prms :: st'.prms[q] == st.prms[q])
    && (forall q | q != pre :: q in st.sits <==> q in st'.sits)
    && (forall q | q != pre && q in st.sits :: st'.sits[q] == st.sits[q])
    && (forall q, j | q != pre :: (q, j) in st.pubs <==> (q, j) in st'.pubs)
    && (forall q, j | q != pre && (q, j) in st.pubs :: st'.pubs[(q, j)] == st.pubs[(q, j)])
  }

  lemma LotsApart(lots: seq<PubLot>, prm: PrePrm, k: nat, j: nat)
    requires Chain(lots, prm, k) && j < |lots|
    ensures forall j', i' | 0 <= j' < |lots| && j' != j && 0 <= i' < |lots[j'].pubs| ::
      lots[j'].pubs[i'] !in ToSet(lots[j].pubs)
  {
    forall j', i' | 0 <= j' < |lots| && j' != j && 0 <= i' < |lots[j'].pubs|
      ensures lots[j'].pubs[i'] !in ToSet(lots[j].pubs)
    {
      forall i | 0 <= i < |lots[j].pubs| ensures lots[j'].pubs[i'] != lots[j].pubs[i] {
        KeysDistinct(lots, prm, k, j, i, j', i');
      }
    }
  }

  lemma HeldFrom(st: Store, lots: seq<PubLot>, n: nat)
    requires n + 1 < |lots| && AllHeld(st, lots, if n == 0 then 0 else n - 1)
    ensures Held(st, lots[n + 1].pubs)
  {
  }

  /** One step along the sequence keeps every key from the new previous lot on,
      and erasing leaves none before it, because no key is in two lots. */
  lemma KeysAfterStep(st: Store, st': Store, lots: seq<PubLot>, prm: PrePrm, k: nat, n: nat, m: nat, erase: bool)
    requires Chain(lots, prm, k) && n + 1 < m <= |lots| <= m + 1
    requires AllHeld(st, lots[..m], if n == 0 then 0 else n - 1)
    requires st'.pris == st.pris + (if m < |lots| then ToSet(lots[m].pubs) else {})
      - (if erase then ToSet(Before(lots, n).pubs) else {})
    ensures AllHeld(st', lots, n)
    ensures erase && NoneHeld(st, lots[..m], n - 1) ==> NoneHeld(st', lots, n)
  {
    if n > 0 {
      LotsApart(lots, prm, k, n - 1);
    }
    if m < |lots| {
      LotsApart(lots, prm, k, m);
    }
    forall j, i | n <= j < |lots| && 0 <= i < |lots[j].pubs| ensures lots[j].pubs[i] in st'.pris {
      assert j < m ==> lots[..m][j] == lots[j];
    }
    if erase && NoneHeld(st, lots[..m], n - 1) {
      forall j, i | 0 <= j < n && 0 <= i < |lots[j].pubs| ensures lots[j].pubs[i] !in st'.pris {
        assert lots[..m][j] == lots[j];
      }
    }
  }

  /** The lot that rotate makes after the lots there are. */
  function NextLot(prm: PrePrm, lots: seq<PubLot>, ncount: nat): PubLot {
    PubLot(Create(prm, |lots|, Total(lots), ncount), |lots|, Total(lots))
  }

  lemma {:induction false} ChainExtends(lots: seq<PubLot>, prm: PrePrm, k: nat, ncount: nat)
    requires Chain(lots, prm, k) && k <= |lots|
    ensures Chain(lots + [NextLot(prm, lots, ncount)], prm, k)
  {
    var lots' := lots + [NextLot(prm, lots, ncount)];
    forall j | 0 <= j < |lots'| ensures lots'[j].kidx == Total(lots'[..j]) {
      assert lots'[..j] == lots[..j];
      if j == |lots| {
        assert lots[..j] == lots;
      }
    }
    forall j | 0 <= j < |lots| ensures lots'[j] == lots[j] {
    }
  }

  /** What rotate and replay have in common: the next lot becomes current, and
      the lot after it next. */
  lemma {:induction false} StepForward(st: Store, st': Store, pre: Pub, prm: PrePrm, lots: seq<PubLot>,
                                       n: nat, k: nat, m: nat, erase: bool)
    requires Chain(lots, prm, k) && n + 2 < |lots| && m <= |lots| <= m + 1 && n + 1 < m
    requires StandsAt(st, pre, prm, lots[..m], n)
    requires st' == Stepped(st, pre, lots, n, m, erase)
    ensures StandsAt(st', pre, prm, lots, n + 1) && OthersKept(st, st', pre)
    ensures erase && NoneHeld(st, lots[..m], n - 1) ==> NoneHeld(st', lots, n)
  {
    hide AllHeld;
    hide NoneHeld;
    hide Chain;
    hide OthersKept;
    hide Listed;
    KeysAfterStep(st, st', lots, prm, k, n, m, erase);
    ListedAfterStep(st, st', pre, lots, m);
    assert OthersKept(st, st', pre) by {
      OthersAfterStep(st, st', pre, m);
    }
  }

  lemma ListedAfterStep(st: Store, st': Store, pre: Pub, lots: seq<PubLot>, m: nat)
    requires m <= |lots| <= m + 1 && Listed(st, pre, lots[..m])
    requires st'.pubs == if m < |lots| then st.pubs[(pre, m) := lots[m].pubs] else st.pubs
    ensures Listed(st', pre, lots)
  {
    forall j | 0 <= j < m ensures st.pubs[(pre, j)] == lots[j].pubs {
      assert lots[..m][j] == lots[j];
    }
  }

  lemma OthersAfterStep(st: Store, st': Store, pre: Pub, m: nat)
    requires st'.prms == st.prms && pre in st'.sits && st'.sits == st.sits[pre := st'.sits[pre]]
    requires st'.pubs == st.pubs || ((pre, m) in st'.pubs && st'.pubs == st.pubs[(pre, m) := st'.pubs[(pre, m)]])
    ensures OthersKept(st, st', pre)
  {
  }

  /** The store after a step: the lots moved up, the made lot listed and stored,
      the previous lot's private keys erased if asked. */
  ghost function Stepped(st: Store, pre: Pub, lots: seq<PubLot>, n: nat, m: nat, erase: bool): Store
    requires n + 2 < |lots| && m <= |lots|
  {
    st.(sits := st.sits[pre := PreSit(lots[n], lots[n + 1], lots[n + 2])],
        pubs := if m < |lots| then st.pubs[(pre, m) := lots[m].pubs] else st.pubs,
        pris := st.pris + (if m < |lots| then ToSet(lots[m].pubs) else {})
          - (if erase then ToSet(Before(lots, n).pubs) else {}))
  }

  lemma NextKidx(lots: seq<PubLot>, prm: PrePrm, k: nat, n: nat)
    requires Chain(lots, prm, k) && n + 1 < |lots|
    ensures lots[n].ridx == n && lots[n + 1].ridx == n + 1 && lots[n].kidx + |lots[n].pubs| == lots[n + 1].kidx
  {
    assert lots[..n + 1][..n] == lots[..n];
  }

  lemma ReplayIs(st: Store, pre: Pub, prm: PrePrm, lots: seq<PubLot>, n: nat, k: nat, erase: bool)
    requires StandsAt(st, pre, prm, lots, n) && Chain(lots, prm, k)
    ensures Replay(st, pre, true, erase) ==
      if n + 2 < |lots|
      then (Stepped(st, pre, lots, n, |lots|, erase), Ok((lots[n + 1].pubs, Digests(lots[n + 2].pubs))))
      else (st, Err(IndexError))
  {
    hide AllHeld;
    hide Held;
    hide Digests;
    hide ToSet;
    hide Chain;
    HeldFrom(st, lots, n);
    NextKidx(lots, prm, k, n);
    if n + 2 < |lots| {
      NextKidx(lots, prm, k, n + 1);
      assert st.pris + {} == st.pris;
    }
  }

  /** Replay steps along the sequence while there is a lot after the next one,
      and then raises IndexError and leaves the store as it was. */
  lemma ReplaySteps(st: Store, pre: Pub, prm: PrePrm, lots: seq<PubLot>, n: nat, k: nat, erase: bool)
    requires StandsAt(st, pre, prm, lots, n) && Chain(lots, prm, k)
    ensures var (st', r) := Replay(st, pre, true, erase);
      if n + 2 < |lots| then
        && r == Ok((lots[n + 1].pubs, Digests(lots[n + 2].pubs)))
        && StandsAt(st', pre, prm, lots, n + 1) && OthersKept(st, st', pre)
        && (erase && NoneHeld(st, lots, n - 1) ==> NoneHeld(st', lots, n))
      else
        r == Err(IndexError) && st' == st
  {
    hide StandsAt;
    hide Chain;
    hide NoneHeld;
    hide OthersKept;
    hide Replay;
    hide Stepped;
    hide Digests;
    ReplayIs(st, pre, prm, lots, n, k, erase);
    if n + 2 < |lots| {
      assert lots[..|lots|] == lots;
      StepForward(st, Replay(st, pre, true, erase).0, pre, prm, lots, n, k, |lots|, erase);
    }
  }

  /** Rotate, at the last lot but one, makes the lot after the last; with no next
      keys it raises and leaves the store as it was. */
  lemma {:induction false} RotateSteps(st: Store, pre: Pub, prm: PrePrm, lots: seq<PubLot>,
                                       n: nat, k: nat, ncount: nat, erase: bool)
    requires StandsAt(st, pre, prm, lots, n) && Chain(lots, prm, k) && n + 2 == |lots| && k <= |lots|
    ensures var (st', r) := Rotate(st, pre, ncount, erase); var lots' := lots + [NextLot(prm, lots, ncount)];
      if lots[n + 1].pubs != [] then
        && r == Ok((lots'[n + 1].pubs, Digests(lots'[n + 2].pubs)))
        && Chain(lots', prm, k) && StandsAt(st', pre, prm, lots', n + 1) && OthersKept(st, st', pre)
        && (erase && NoneHeld(st, lots, n - 1) ==> NoneHeld(st', lots', n))
      else
        r == Err(ValueError) && st' == st
  {
    hide AllHeld;
    hide NoneHeld;
    hide OthersKept;
    hide Chain;
    hide Stepped;
    HeldFrom(st, lots, n);
    if lots[n + 1].pubs != [] {
      hide Rotate;
      var lots' := lots + [NextLot(prm, lots, ncount)];
      ChainExtends(lots, prm, k, ncount);
      RotateIs(st, pre, prm, lots, n, k, ncount, erase);
      assert lots'[..|lots|] == lots;
      StepForward(st, Rotate(st, pre, ncount, erase).0, pre, prm, lots', n, k, |lots|, erase);
    }
  }

  lemma RotateIs(st: Store, pre: Pub, prm: PrePrm, lots: seq<PubLot>, n: nat, k: nat, ncount: nat, erase: bool)
    requires StandsAt(st, pre, prm, lots, n) && Chain(lots, prm, k) && n + 2 == |lots|
    requires lots[n + 1].pubs != []
    ensures var lots' := lots + [NextLot(prm, lots, ncount)];
      Rotate(st, pre, ncount, erase) == (Stepped(st, pre, lots', n, |lots|, erase),
        Ok((lots[n + 1].pubs, Digests(lots'[n + 2].pubs))))
  {
    hide AllHeld;
    hide Held;
    hide Create;
    hide Chain;
    hide Total;
    hide Digests;
    hide ToSet;
    HeldFrom(st, lots, n);
    LastKidx(lots, prm, k);
  }

  lemma LastKidx(lots: seq<PubLot>, prm: PrePrm, k: nat)
    requires Chain(lots, prm, k) && lots != []
    ensures var l := lots[|lots| - 1]; l.ridx + 1 == |lots| && l.kidx + |l.pubs| == Total(lots)
  {
  }
}
