/** The Manager of app/keeping.py as an object that updates its databases step by
    step, each method proved against its function of the store. */
module ManagerObject {
  import opened Collections
  import opened Results
  import opened Versions
  import opened Keeping
  import opened KeepingPaths

  /** SaltyCreator.create: one key after another, in the order of their index. */
  method CreateKeys(prm: PrePrm, ridx: nat, kidx: nat, count: nat) returns (pubs: seq<Pub>)
    ensures pubs == Create(prm, ridx, kidx, count) && |pubs| == count && MadeFrom(pubs, prm, ridx, kidx)
  {
    hide HexStr;
    hide MadeFrom;
    var stem := if prm.stem != "" then prm.stem else HexStr(prm.pidx, 1);
    pubs := [];
    for i := 0 to count
      invariant pubs == Create(prm, ridx, kidx, i)
    {
      var path := stem + HexStr(ridx, 1) + HexStr(kidx + i, 1);
      pubs := pubs + [Derived(prm.salt, path)];
      assert path == Path(prm, ridx, kidx + i);
    }
    CreateMakes(pubs, prm, ridx, kidx);
  }

  lemma ToSetGrows(pubs: seq<Pub>, i: nat)
    requires i < |pubs|
    ensures ToSet(pubs[..i + 1]) == ToSet(pubs[..i]) + {pubs[i]}
  {
    assert pubs[..i + 1] == pubs[..i] + [pubs[i]];
  }

  class Manager {
    var pres: map<Pub, Pub>
    var prms: map<Pub, PrePrm>
    var sits: map<Pub, PreSit>
    var pubs: map<(Pub, nat), seq<Pub>>
    var pris: set<Pub>
    var pidx: nat

    /** The databases as one value. */
    function Abs(): Store
      reads this
    {
      Store(pres, prms, sits, pubs, pris, pidx)
    }

    constructor ()
      ensures Abs() == Store(map[], map[], map[], map[], {}, 0)
    {
      pres, prms, sits, pubs, pris, pidx := map[], map[], map[], map[], {}, 0;
    }

    /** Stores the private keys one by one. */
    method StoreKeys(keys: seq<Pub>)
      modifies this`pris
      ensures pris == old(pris) + ToSet(keys)
    {
      for i := 0 to |keys|
        invariant pris == old(pris) + ToSet(keys[..i])
      {
        ToSetGrows(keys, i);
        pris := pris + {keys[i]};
      }
      assert keys[..|keys|] == keys;
    }

    /** Removes the private keys one by one. */
    method EraseKeys(keys: seq<Pub>)
      modifies this`pris
      ensures pris == old(pris) - ToSet(keys)
    {
      for i := 0 to |keys|
        invariant pris == old(pris) - ToSet(keys[..i])
      {
        ToSetGrows(keys, i);
        pris := pris - {keys[i]};
      }
      assert keys[..|keys|] == keys;
    }

    /** Looks up the private key of every public key; stops at the first missing. */
    method Lookup(keys: seq<Pub>) returns (found: bool)
      ensures found == Held(Abs(), keys)
    {
      for i := 0 to |keys|
        invariant forall j | 0 <= j < i :: keys[j] in pris
      {
        if keys[i] !in pris { return false; }
      }
      return true;
    }

    method PutPubs(pre: Pub, ri: nat, keys: seq<Pub>)
      modifies this`pubs
      ensures pubs == Keeping.PutPubs(old(pubs), pre, ri, keys)
    {
      if (pre, ri) !in pubs { pubs := pubs[(pre, ri) := keys]; }
    }

    method Incept(salt: string, stem: string, icount: int, ncount: int) returns (r: Result<Keys>)
      modifies this
      ensures (Abs(), r) == Keeping.Incept(old(Abs()), salt, stem, icount, ncount)
      ensures r.Ok? ==> |r.value.0| == icount && MadeFrom(r.value.0, PrePrm(old(pidx), salt, stem), 0, 0)
    {
      hide MadeFrom;
      hide Create;
      hide ToSet;
      hide Digests;
      hide Keeping.PutPubs;
      if icount <= 0 { return Err(ValueError); }
      var prm := PrePrm(pidx, salt, stem);
      var verfers := CreateKeys(prm, 0, 0, icount);
      if ncount < 0 { return Err(ValueError); }
      var nexts := CreateKeys(prm, 1, icount, ncount);
      var digers := Digests(nexts);
      var ps := PreSit(NOLOT, PubLot(verfers, 0, 0), PubLot(nexts, 1, icount));
      var pre := verfers[0];
      if pre in pres { return Err(ValueError); }
      pres := pres[pre := pre];
      if pre in prms { return Err(ValueError); }
      prms := prms[pre := prm];
      pidx := pidx + 1;
      if pre in sits { return Err(ValueError); }
      sits := sits[pre := ps];
      StoreKeys(verfers);
      PutPubs(pre, 0, verfers);
      StoreKeys(nexts);
      PutPubs(pre, 1, nexts);
      return Ok((verfers, digers));
    }

    method Rotate(pre: Pub, ncount: int, erase: bool) returns (r: Result<Keys>)
      modifies this
      ensures (Abs(), r) == Keeping.Rotate(old(Abs()), pre, ncount, erase)
    {
      hide Create;
      hide ToSet;
      hide Digests;
      hide Keeping.PutPubs;
      hide Held;
      if pre !in prms { return Err(ValueError); }
      var pp := prms[pre];
      if pre !in sits { return Err(ValueError); }
      var ps := sits[pre];
      if ps.nxt.pubs == [] { return Err(ValueError); }
      var was := ps.was;
      ps := ps.(was := ps.now);
      ps := ps.(now := ps.nxt);
      var found := Lookup(ps.now.pubs);
      if !found { return Err(ValueError); }
      if ncount < 0 { return Err(ValueError); }
      var ridx := ps.now.ridx + 1;
      var kidx := ps.nxt.kidx + |ps.now.pubs|;
      var signers := CreateKeys(pp, ridx, kidx, ncount);
      var digers := Digests(signers);
      ps := ps.(nxt := PubLot(signers, ridx, kidx));
      sits := sits[pre := ps];
      StoreKeys(signers);
      PutPubs(pre, ps.nxt.ridx, ps.nxt.pubs);
      if erase { EraseKeys(was.pubs); } else { assert pris - {} == pris; }
      return Ok((ps.now.pubs, digers));
    }

    method Replay(pre: Pub, advance: bool, erase: bool) returns (r: Result<Keys>)
      modifies this
      ensures (Abs(), r) == Keeping.Replay(old(Abs()), pre, advance, erase)
    {
      hide ToSet;
      hide Digests;
      hide Held;
      if pre !in prms || pre !in sits { return Err(ValueError); }
      var ps := sits[pre];
      var was := ps.was;
      if advance {
        ps := ps.(was := ps.now);
        ps := ps.(now := ps.nxt);
        var ridx, kidx, csize := ps.now.ridx, ps.now.kidx, |ps.now.pubs|;
        if (pre, ridx + 1) !in pubs { return Err(IndexError); }
        ps := ps.(nxt := PubLot(pubs[(pre, ridx + 1)], ridx + 1, kidx + csize));
      }
      var found := Lookup(ps.now.pubs);
      if !found { return Err(ValueError); }
      var digers := Digests(ps.nxt.pubs);
      if advance {
        sits := sits[pre := ps];
        if erase { EraseKeys(was.pubs); } else { assert pris - {} == pris; }
      }
      return Ok((ps.now.pubs, digers));
    }

    method Move(src: Pub, dst: Pub) returns (r: Outcome)
      modifies this
      ensures (Abs(), r) == Keeping.Move(old(Abs()), src, dst)
    {
      hide CopyPubs;
      hide Ahead;
      if src == dst { return Pass; }
      if src !in pres || dst in pres || src !in prms || dst in prms || src !in sits || dst in sits {
        return Fail(ValueError);
      }
      prms := prms[dst := prms[src]];
      prms := prms - {src};
      sits := sits[dst := sits[src]];
      sits := sits - {src};
      var i := 0;
      while (src, i) in pubs
        invariant CopyPubs(pubs, src, dst, i) == CopyPubs(old(pubs), src, dst, 0)
        invariant prms == old(prms)[dst := old(prms)[src]] - {src} && sits == old(sits)[dst := old(sits)[src]] - {src}
        invariant pres == old(pres) && pris == old(pris) && pidx == old(pidx)
        decreases Ahead(pubs, src, i)
      {
        CopyPubsStep(pubs, src, dst, i);
        if (dst, i) in pubs { return Fail(ValueError); }
        AheadShrinks(pubs, src, dst, i, pubs[(src, i)]);
        pubs := pubs[(dst, i) := pubs[(src, i)]];
        i := i + 1;
      }
      CopyPubsStep(pubs, src, dst, i);
      pres := pres[src := dst];
      pres := pres[dst := dst];
      return Pass;
    }

    /** ingest; the key index and the rotation index count up with the lists. */
    method Ingest(lists: seq<seq<nat>>, iridx: nat, salt: string, stem: string, ncount: nat) returns (r: Result<Pub>)
      modifies this
      ensures (Abs(), r) == Keeping.Ingest(old(Abs()), lists, iridx, salt, stem, ncount)
    {
      hide Create;
      hide ToSet;
      hide Keeping.PutPubs;
      hide IngestList;
      if iridx > |lists| { return Err(ValueError); }
      var prm := PrePrm(pidx, salt, stem);
      if lists == [] {
        var stray := CreateKeys(prm, 0, 0, ncount);
        StoreKeys(stray);
        return Err(NameError);
      }
      if lists[0] == [] { return Err(IndexError); }
      var pre := Given(lists[0][0]);
      if pre in pres { return Err(ValueError); }
      pres := pres[pre := pre];
      if pre in prms { return Err(ValueError); }
      prms := prms[pre := prm];
      pidx := pidx + 1;
      ghost var st2 := Abs();
      var ridx: nat, kidx: nat := 0, 0;
      while ridx < |lists|
        invariant ridx <= |lists|
        invariant IngestFrom(Abs(), pre, lists, iridx, ridx, kidx) == IngestFrom(st2, pre, lists, iridx, 0, 0)
      {
        IngestOne(pre, lists[ridx], iridx, ridx, kidx);
        kidx := kidx + |lists[ridx]|;
        ridx := ridx + 1;
      }
      var nexts := CreateKeys(prm, ridx, kidx, ncount);
      StoreKeys(nexts);
      PutPubs(pre, ridx, nexts);
      if ridx == iridx + 1 && pre in sits {
        sits := sits[pre := sits[pre].(nxt := PubLot(nexts, ridx, kidx))];
      }
      return Ok(pre);
    }

    method IngestOne(pre: Pub, secrets: seq<nat>, iridx: nat, ridx: nat, kidx: nat)
      modifies this
      ensures Abs() == IngestList(old(Abs()), pre, secrets, iridx, ridx, kidx)
    {
      hide ToSet;
      hide Keeping.PutPubs;
      var keys := Secrets(secrets);
      StoreKeys(keys);
      PutPubs(pre, ridx, keys);
      var lot := PubLot(keys, ridx, kidx);
      if ridx == (if iridx == 0 then 0 else iridx - 1) {
        sits := sits[pre := PreSit(if iridx == 0 then NOLOT else lot, NOLOT, NOLOT)];
      }
      if ridx == iridx && pre in sits {
        sits := sits[pre := sits[pre].(now := lot)];
      }
      if ridx == iridx + 1 && pre in sits {
        sits := sits[pre := sits[pre].(nxt := lot)];
      }
    }
  }
}
