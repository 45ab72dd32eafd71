/** What the derivation paths of app/keeping.py are made of, and so which keys a
    salt restores. */
module KeepingPaths {
  import opened Collections
  import opened Radix
  import opened Versions
  import opened VersionsLaws
  import opened Keeping
  import opened KeepingRuns

  /** The hex number of v: lower case, no longer than needed. */
  predicate IsHexOf(s: string, v: nat) {
    |s| == Width(B16, v) && AllHex(s) && HexVal(s) == v
  }

  /** The path is the stem, or the sequence index where there is none, then the rotation
      index and then the key index, each number in hex. */
  predicate IsPath(path: string, prm: PrePrm, ridx: nat, kidx: nat) {
    var n := if prm.stem != "" then |prm.stem| else Width(B16, prm.pidx);
    var m := n + Width(B16, ridx);
    && m <= |path|
    && (if prm.stem != "" then path[..n] == prm.stem else IsHexOf(path[..n], prm.pidx))
    && IsHexOf(path[n..m], ridx) && IsHexOf(path[m..], kidx)
  }

  lemma HexOf(s: string, v: nat)
    ensures IsHexOf(s, v) <==> s == HexStr(v, 1)
  {
    HexRoundTrip(v, 1);
    if IsHexOf(s, v) {
      HexCanonical(s);
      SameHex(v, |s|);
    }
  }

  /** A number is not padded to its own width. */
  lemma SameHex(v: nat, l: nat)
    requires l == Width(B16, v)
    ensures HexStr(v, l) == HexStr(v, 1)
  {
  }

  /** A string is the path of these indices exactly when it has these parts in this
      order and nothing else. */
  lemma PathParts(path: string, prm: PrePrm, ridx: nat, kidx: nat)
    ensures path == Path(prm, ridx, kidx) <==> IsPath(path, prm, ridx, kidx)
  {
    hide HexStr;
    hide IsHexOf;
    var s := if prm.stem != "" then prm.stem else HexStr(prm.pidx, 1);
    var n := |s|;
    var m := n + Width(B16, ridx);
    HexOf(HexStr(ridx, 1), ridx);
    HexOf(HexStr(kidx, 1), kidx);
    HexOf(HexStr(prm.pidx, 1), prm.pidx);
    if m <= |path| {
      HexOf(path[..n], prm.pidx);
      HexOf(path[n..m], ridx);
      HexOf(path[m..], kidx);
      assert path == path[..n] + path[n..m] + path[m..];
    }
    Slices(s, HexStr(ridx, 1), HexStr(kidx, 1));
  }

  lemma Slices(s: string, a: string, b: string)
    ensures var t := s + a + b; t[..|s|] == s && t[|s|..|s| + |a|] == a && t[|s| + |a|..] == b
  {
  }

  /** The keys are those that the salt gives for consecutive key indices from kidx on. */
  predicate MadeFrom(pubs: seq<Pub>, prm: PrePrm, ridx: nat, kidx: nat) {
    forall i | 0 <= i < |pubs| ::
      pubs[i].Derived? && pubs[i].salt == prm.salt && IsPath(pubs[i].path, prm, ridx, kidx + i)
  }

  lemma CreateMakes(pubs: seq<Pub>, prm: PrePrm, ridx: nat, kidx: nat)
    ensures pubs == Create(prm, ridx, kidx, |pubs|) <==> MadeFrom(pubs, prm, ridx, kidx)
  {
    hide Path;
    hide IsPath;
    var made := Create(prm, ridx, kidx, |pubs|);
    forall i | 0 <= i < |pubs|
      ensures pubs[i] == made[i] <==>
        pubs[i].Derived? && pubs[i].salt == prm.salt && IsPath(pubs[i].path, prm, ridx, kidx + i)
    {
      if pubs[i].Derived? { PathParts(pubs[i].path, prm, ridx, kidx + i); }
    }
  }

  /** What a successful incept makes: the current keys at rotation index 0 from key index
      0 on, the next ones at rotation index 1 from where those end; it answers the
      current keys and the digests of the next. */
  lemma InceptMakes(st: Store, salt: string, stem: string, icount: int, ncount: int)
    requires Incept(st, salt, stem, icount, ncount).1.Ok?
    ensures var (st', r) := Incept(st, salt, stem, icount, ncount);
      var prm, keys, pre := PrePrm(st.pidx, salt, stem), r.value.0, r.value.0[0];
      && |keys| == icount && MadeFrom(keys, prm, 0, 0)
      && |r.value.1| == ncount && MadeFrom(seq(ncount, i requires 0 <= i < ncount => r.value.1[i].pub), prm, 1, icount)
      && pre in st'.sits && st'.sits[pre].now.pubs == keys
      && Digests(st'.sits[pre].nxt.pubs) == r.value.1
      && st'.pidx == st.pidx + 1 && pre in st'.prms && st'.prms[pre] == prm
  {
    hide Create;
    hide MadeFrom;
    var prm := PrePrm(st.pidx, salt, stem);
    var now, nxt := Create(prm, 0, 0, icount), Create(prm, 1, icount, ncount);
    CreateMakes(now, prm, 0, 0);
    CreateMakes(nxt, prm, 1, icount);
    var digs := Incept(st, salt, stem, icount, ncount).1.value.1;
    assert seq(ncount, i requires 0 <= i < ncount => digs[i].pub) == nxt;
  }

  /** The first two keys of a sequence named alice. */
  lemma SecondKey(p: nat, salt: string)
    ensures Create(PrePrm(p, salt, "alice"), 0, 0, 2) == [Derived(salt, "alice00"), Derived(salt, "alice01")]
  {
    assert HexStr(0, 1) == "0" && HexStr(1, 1) == "1" by {
      assert Written(B16, 0, 1) == Digits(B16, 0, 0) + [0] && Written(B16, 1, 1) == Digits(B16, 0, 0) + [1];
    }
    hide HexStr;
    assert "alice" + "0" + "0" == "alice00" && "alice" + "0" + "1" == "alice01";
  }

  lemma {:induction false} IngestFromPidx(st: Store, pre: Pub, lists: seq<seq<nat>>, iridx: nat, j: nat, kidx: nat)
    requires j <= |lists|
    ensures IngestFrom(st, pre, lists, iridx, j, kidx).0.pidx == st.pidx
    decreases |lists| - j
  {
    hide IngestSits;
    hide Secrets;
    if j == |lists| {
    } else {
      IngestFromPidx(IngestList(st, pre, lists[j], iridx, j, kidx), pre, lists, iridx, j + 1, kidx + |lists[j]|);
    }
  }

  /** The sequence index counts the sequences made, and nothing else moves it: what a
      sequence without a stem is named by is new. */
  lemma SequencesCount(st: Store, op: Op)
    requires Sound(st)
    ensures Step(st, op).pidx == st.pidx +
      match op
      case DoIncept(salt, stem, icount, ncount) => if Incept(st, salt, stem, icount, ncount).1.Ok? then 1 else 0
      case DoIngest(lists, iridx, salt, stem, ncount) =>
        if Ingest(st, lists, iridx, salt, stem, ncount).1.Ok? then 1 else 0
      case DoRotate(_, _, _) => 0
      case DoReplay(_, _, _) => 0
      case DoMove(_, _) => 0
  {
    hide Create;
    hide ToSet;
    hide CopyPubs;
    hide Digests;
    hide Held;
    match op
    case DoIngest(lists, iridx, salt, stem, ncount) =>
      if iridx <= |lists| && lists != [] && lists[0] != [] && Given(lists[0][0]) !in st.pres {
        IngestIs(st, lists, iridx, salt, stem, ncount);
        var pre := Given(lists[0][0]);
        var prm := PrePrm(st.pidx, salt, stem);
        var st2 := st.(pres := st.pres[pre := pre], prms := st.prms[pre := prm], pidx := st.pidx + 1);
        IngestFromPidx(st2, pre, lists, iridx, 0, 0);
        hide IngestFrom;
        hide Ingest;
      }
    case _ =>
  }
}
