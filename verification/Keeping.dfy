/** app/keeping.py: the key store and the operations of its Manager, as functions
    of the store.  Keys are named by how they were made, so that different
    derivation paths name different keys; a digest is that of one key. */
module Keeping {
  import opened Collections
  import opened Results
  import opened Versions

  /** A qualified public key or prefix: made by a salty creator from a path, from
      a secret handed in, or the digest of an inception event. */
  datatype Pub = Derived(salt: string, path: string) | Given(secret: nat) | Said(event: nat)

  datatype Dig = Dig(pub: Pub)

  function Digests(pubs: seq<Pub>): (digs: seq<Dig>)
    ensures |digs| == |pubs|
  {
    seq(|pubs|, i requires 0 <= i < |pubs| => Dig(pubs[i]))
  }

  datatype PubLot = PubLot(pubs: seq<Pub>, ridx: nat, kidx: nat)

  /** The default PubLot(). */
  const NOLOT := PubLot([], 0, 0)

  /** PreSit: the old, new and next lots of a prefix. */
  datatype PreSit = PreSit(was: PubLot, now: PubLot, nxt: PubLot)

  datatype PrePrm = PrePrm(pidx: nat, salt: string, stem: string)

  /** Keeper: the named sub-databases, and the index of the next sequence. */
  datatype Store = Store(
    pres: map<Pub, Pub>,
    prms: map<Pub, PrePrm>,
    sits: map<Pub, PreSit>,
    pubs: map<(Pub, nat), seq<Pub>>,
    pris: set<Pub>,
    pidx: nat)

  type Keys = (seq<Pub>, seq<Dig>)

  /** put does not overwrite. */
  function PutPubs(m: map<(Pub, nat), seq<Pub>>, pre: Pub, ri: nat, pubs: seq<Pub>): map<(Pub, nat), seq<Pub>> {
    if (pre, ri) in m then m else m[(pre, ri) := pubs]
  }

  /** The path of a key: stem or hex pidx, hex ridx and hex kidx, not separated. */
  function Path(prm: PrePrm, ridx: nat, kidx: nat): string {
    (if prm.stem != "" then prm.stem else HexStr(prm.pidx, 1)) + HexStr(ridx, 1) + HexStr(kidx, 1)
  }

  /** SaltyCreator.create */
  function Create(prm: PrePrm, ridx: nat, kidx: nat, count: nat): (pubs: seq<Pub>)
    ensures |pubs| == count
  {
    seq(count, i requires 0 <= i < count => Derived(prm.salt, Path(prm, ridx, kidx + i)))
  }

  /** Manager.incept */
  function Incept(st: Store, salt: string, stem: string, icount: int, ncount: int): (Store, Result<Keys>) {
    if icount <= 0 then (st, Err(ValueError)) else
    if ncount < 0 then (st, Err(ValueError)) else
    var prm := PrePrm(st.pidx, salt, stem);
    var now := PubLot(Create(prm, 0, 0, icount), 0, 0);
    var nxt := PubLot(Create(prm, 1, icount, ncount), 1, icount);
    var pre := now.pubs[0];
    if pre in st.pres then (st, Err(ValueError)) else
    var st1 := st.(pres := st.pres[pre := pre]);
    if pre in st.prms then (st1, Err(ValueError)) else
    var st2 := st1.(prms := st.prms[pre := prm], pidx := st.pidx + 1);
    if pre in st.sits then (st2, Err(ValueError)) else
    (st2.(sits := st.sits[pre := PreSit(NOLOT, now, nxt)],
          pris := st.pris + ToSet(now.pubs) + ToSet(nxt.pubs),
          pubs := PutPubs(PutPubs(st.pubs, pre, 0, now.pubs), pre, 1, nxt.pubs)),
     Ok((now.pubs, Digests(nxt.pubs))))
  }

  /** Every private key of pubs is in the store. */
  predicate Held(st: Store, pubs: seq<Pub>) { forall p | p in pubs :: p in st.pris }

  /** Manager.rotate */
  function Rotate(st: Store, pre: Pub, ncount: int, erase: bool): (Store, Result<Keys>) {
    if pre !in st.prms || pre !in st.sits then (st, Err(ValueError)) else
    var prm, ps := st.prms[pre], st.sits[pre];
    if ps.nxt.pubs == [] then (st, Err(ValueError)) else
    if !Held(st, ps.nxt.pubs) then (st, Err(ValueError)) else
    if ncount < 0 then (st, Err(ValueError)) else
    var ridx, kidx := ps.nxt.ridx + 1, ps.nxt.kidx + |ps.nxt.pubs|;
    var nxt := PubLot(Create(prm, ridx, kidx, ncount), ridx, kidx);
    (st.(sits := st.sits[pre := PreSit(ps.now, ps.nxt, nxt)],
         pris := st.pris + ToSet(nxt.pubs) - (if erase then ToSet(ps.was.pubs) else {}),
         pubs := PutPubs(st.pubs, pre, ridx, nxt.pubs)),
     Ok((ps.nxt.pubs, Digests(nxt.pubs))))
  }

  /** Manager.replay */
  function Replay(st: Store, pre: Pub, advance: bool, erase: bool): (Store, Result<Keys>) {
    if pre !in st.prms || pre !in st.sits then (st, Err(ValueError)) else
    var ps := st.sits[pre];
    if !advance then
      if !Held(st, ps.now.pubs) then (st, Err(ValueError))
      else (st, Ok((ps.now.pubs, Digests(ps.nxt.pubs))))
    else
      var ridx := ps.nxt.ridx + 1;
      if (pre, ridx) !in st.pubs then (st, Err(IndexError)) else
      var nxt := PubLot(st.pubs[(pre, ridx)], ridx, ps.nxt.kidx + |ps.nxt.pubs|);
      if !Held(st, ps.nxt.pubs) then (st, Err(ValueError)) else
      (st.(sits := st.sits[pre := PreSit(ps.now, ps.nxt, nxt)],
           pris := st.pris - (if erase then ToSet(ps.was.pubs) else {})),
       Ok((ps.nxt.pubs, Digests(nxt.pubs))))
  }

  /** The entries of src from index i on. */
  function Ahead(m: map<(Pub, nat), seq<Pub>>, src: Pub, i: nat): set<(Pub, nat)> {
    set k | k in m.Keys && k.0 == src && i <= k.1
  }

  lemma AheadShrinks(m: map<(Pub, nat), seq<Pub>>, src: Pub, dst: Pub, i: nat, v: seq<Pub>)
    requires src != dst && (src, i) in m
    ensures Ahead(m[(dst, i) := v], src, i + 1) < Ahead(m, src, i)
  {
    var m' := m[(dst, i) := v];
    assert forall k | k in Ahead(m', src, i + 1) :: k in Ahead(m, src, i);
    assert (src, i) in Ahead(m, src, i) && (src, i) !in Ahead(m', src, i + 1);
  }

  /** The loop of move copies entries until the first gap; false when one is in the way. */
  function CopyPubs(m: map<(Pub, nat), seq<Pub>>, src: Pub, dst: Pub, i: nat): (map<(Pub, nat), seq<Pub>>, bool)
    requires src != dst
    decreases Ahead(m, src, i)
  {
    if (src, i) !in m then (m, true)
    else if (dst, i) in m then (m, false)
    else
      AheadShrinks(m, src, dst, i, m[(src, i)]);
      CopyPubs(m[(dst, i) := m[(src, i)]], src, dst, i + 1)
  }

  lemma CopyPubsStep(m: map<(Pub, nat), seq<Pub>>, src: Pub, dst: Pub, i: nat)
    requires src != dst
    ensures CopyPubs(m, src, dst, i) ==
      if (src, i) !in m then (m, true) else if (dst, i) in m then (m, false)
      else CopyPubs(m[(dst, i) := m[(src, i)]], src, dst, i + 1)
  {
  }

  /** Manager.move */
  function Move(st: Store, src: Pub, dst: Pub): (Store, Outcome) {
    if src == dst then (st, Pass)
    else if src !in st.pres || dst in st.pres || src !in st.prms || dst in st.prms
         || src !in st.sits || dst in st.sits then (st, Fail(ValueError))
    else
      var prms := st.prms[dst := st.prms[src]] - {src};
      var sits := st.sits[dst := st.sits[src]] - {src};
      var (pubs, ok) := CopyPubs(st.pubs, src, dst, 0);
      var st1 := st.(prms := prms, sits := sits, pubs := pubs);
      if !ok then (st1, Fail(ValueError))
      else (st1.(pres := st.pres[src := dst][dst := dst]), Pass)
  }

  function Secrets(secrets: seq<nat>): (pubs: seq<Pub>)
    ensures |pubs| == |secrets|
  {
    seq(|secrets|, i requires 0 <= i < |secrets| => Given(secrets[i]))
  }

  /** The situations after the j-th list, whose lot this is. */
  function IngestSits(sits: map<Pub, PreSit>, pre: Pub, lot: PubLot, iridx: nat, j: nat): map<Pub, PreSit> {
    var sits1 := if j == (if iridx == 0 then 0 else iridx - 1)
                 then sits[pre := PreSit(if iridx == 0 then NOLOT else lot, NOLOT, NOLOT)] else sits;
    if pre !in sits1 then sits1
    else if j == iridx then sits1[pre := sits1[pre].(now := lot)]
    else if j == iridx + 1 then sits1[pre := sits1[pre].(nxt := lot)]
    else sits1
  }

  /** What ingest does with the j-th list of secrets, from key index kidx on. */
  function IngestList(st: Store, pre: Pub, secrets: seq<nat>, iridx: nat, j: nat, kidx: nat): Store {
    var pubs := Secrets(secrets);
    st.(pris := st.pris + ToSet(pubs), pubs := PutPubs(st.pubs, pre, j, pubs),
        sits := IngestSits(st.sits, pre, PubLot(pubs, j, kidx), iridx, j))
  }

  /** The loop of ingest from list j on; also the key index it ends at. */
  function IngestFrom(st: Store, pre: Pub, lists: seq<seq<nat>>, iridx: nat, j: nat, kidx: nat): (Store, nat)
    requires j <= |lists|
    decreases |lists| - j
  {
    if j == |lists| then (st, kidx)
    else IngestFrom(IngestList(st, pre, lists[j], iridx, j, kidx), pre, lists, iridx, j + 1, kidx + |lists[j]|)
  }

  /** Manager.ingest.  With no list at all the prefix is never named; with an
      empty first list there is no first key to name it by. */
  function Ingest(st: Store, lists: seq<seq<nat>>, iridx: nat, salt: string, stem: string, ncount: nat)
    : (Store, Result<Pub>)
  {
    if iridx > |lists| then (st, Err(ValueError)) else
    var prm := PrePrm(st.pidx, salt, stem);
    if lists == [] then (st.(pris := st.pris + ToSet(Create(prm, 0, 0, ncount))), Err(NameError)) else
    if lists[0] == [] then (st, Err(IndexError)) else
    var pre := Given(lists[0][0]);
    if pre in st.pres then (st, Err(ValueError)) else
    var st1 := st.(pres := st.pres[pre := pre]);
    if pre in st.prms then (st1, Err(ValueError)) else
    var st2 := st1.(prms := st.prms[pre := prm], pidx := st.pidx + 1);
    var (st3, kidx) := IngestFrom(st2, pre, lists, iridx, 0, 0);
    var ridx := |lists|;
    var nxt := PubLot(Create(prm, ridx, kidx, ncount), ridx, kidx);
    var st4 := st3.(pris := st3.pris + ToSet(nxt.pubs), pubs := PutPubs(st3.pubs, pre, ridx, nxt.pubs));
    if ridx == iridx + 1 && pre in st4.sits
    then (st4.(sits := st4.sits[pre := st4.sits[pre].(nxt := nxt)]), Ok(pre))
    else (st4, Ok(pre))
  }
}
