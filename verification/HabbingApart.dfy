/** When the sequences of Habs on one Manager share no key: salts, and names
    neither of which starts with the other. */
module HabbingApart {
  import opened Keeping
  import opened Versions
  import opened KeepingLaws
  import opened KeepingRuns
  import opened Habbing
  import opened HabbingLaws
  import opened HabbingMaking
  import opened HabbingTogether

  /** The salt and the name a salty creator makes the keys of a sequence from. */
  datatype Name = Name(salt: string, stem: string)

  /** The salts differ, or neither stem starts with the other. */
  predicate Differ(a: Name, b: Name) {
    a.salt != b.salt || (!(a.stem <= b.stem) && !(b.stem <= a.stem))
  }

  function NameOf(prm: PrePrm): Name { Name(prm.salt, prm.stem) }

  /** A sequence of keys made under a name. */
  ghost predicate Salted(s: Seat) {
    Chain(s.lots, s.prm, 0)
  }

  lemma PathStarts(prm: PrePrm, r: nat, k: nat)
    ensures prm.stem <= Path(prm, r, k)
  {
  }

  /** Every key of such a sequence has its salt and a path that starts with its stem. */
  lemma KeyNamed(s: Seat, key: Pub)
    requires Salted(s) && Has(s.lots, key)
    ensures key.Derived? && key.salt == s.prm.salt && s.prm.stem <= key.path
  {
    hide Chain;
    hide Path;
    var j, i :| 0 <= j < |s.lots| && 0 <= i < |s.lots[j].pubs| && s.lots[j].pubs[i] == key;
    DerivedAt(s.lots, s.prm, 0, j, i);
    PathStarts(s.prm, j, s.lots[j].kidx + i);
  }

  lemma StartsOfOne(a: string, b: string, path: string)
    requires a <= path && b <= path
    ensures a <= b || b <= a
  {
    if |a| <= |b| {
      assert a == path[..|a|] && b == path[..|b|];
      assert a == b[..|a|];
    } else {
      assert b == a[..|b|];
    }
  }

  /** Sequences made under names that differ. */
  ghost predicate SeatsNamed(seats: map<Pub, Seat>) {
    && (forall p | p in seats :: Salted(seats[p]))
    && (forall p, q | p in seats && q in seats && p != q :: Differ(NameOf(seats[p].prm), NameOf(seats[q].prm)))
  }

  /** Sequences made under different names are always apart. */
  lemma NamesApart(seats: map<Pub, Seat>)
    requires SeatsNamed(seats)
    ensures Apart(seats)
  {
    hide Salted;
    hide Has;
    forall p, q, key | p in seats && q in seats && p != q && Has(seats[p].lots, key) ensures !Has(seats[q].lots, key) {
      KeyNamed(seats[p], key);
      if Has(seats[q].lots, key) {
        KeyNamed(seats[q], key);
        StartsOfOne(seats[p].prm.stem, seats[q].prm.stem, key.path);
      }
    }
  }

  /** Where one stem starts with the other, sequences with one salt can share a key: the
      first next key of 17 keys made under a stem is that of one key made under the stem
      and a 1. */
  lemma NamesCanMeet(salt: string, stem: string, p: nat, q: nat)
    requires stem != ""
    ensures var a, b := PrePrm(p, salt, stem), PrePrm(q, salt, stem + "1");
      Salty(a, [17, 1])[1].pubs[0] == Salty(b, [1, 1])[1].pubs[0]
  {
    hide Path;
    var a, b := PrePrm(p, salt, stem), PrePrm(q, salt, stem + "1");
    FirstLots(a, 17, 1);
    FirstLots(b, 1, 1);
    PathsMeet(a, b);
  }

  lemma PathsMeet(a: PrePrm, b: PrePrm)
    requires a.stem != "" && b.stem == a.stem + "1"
    ensures Path(a, 1, 17) == Path(b, 1, 1)
  {
    assert HexStr(1, 1) == "1" && HexStr(17, 1) == "11";
    assert a.stem + "1" + "11" == b.stem + "1" + "1";
  }

  function TurnName(t: Turn): Name
    requires t.Making?
  {
    Name(t.salt, t.stem)
  }

  /** Every Hab is made from fresh keys, under a name that differs from the others. */
  predicate Named(turns: seq<Turn>) {
    && (forall i | 0 <= i < |turns| && turns[i].Making? :: turns[i].source.Fresh?)
    && (forall i, j | 0 <= i < j < |turns| && turns[i].Making? && turns[j].Making? ::
          Differ(TurnName(turns[i]), TurnName(turns[j])))
  }

  ghost predicate NewTo(name: Name, seats: map<Pub, Seat>) {
    forall p | p in seats :: Differ(NameOf(seats[p].prm), name)
  }

  lemma NextSalted(h: House, s: Seat, t: Turn)
    requires t.Rotation? && t.pre in h.kels && h.kels[t.pre] != [] && Salted(s)
    ensures Salted(NextSeat(h, s, t)) && NextSeat(h, s, t).prm == s.prm
  {
    hide Chain;
    hide NextLot;
    hide Reachable;
    var asked := Asked(Hab(h, t.pre), t.count);
    ChainExtends(s.lots, s.prm, 0, if asked < 0 then 0 else asked);
  }

  lemma NewSalted(h: House, t: Turn)
    requires t.Making? && t.source.Fresh?
    ensures Salted(NewSeat(h, t)) && NameOf(NewSeat(h, t).prm) == TurnName(t)
  {
    hide Chain;
    hide Salty;
    var prm := PrePrm(h.st.pidx, t.salt, t.stem);
    if t.source.icount >= 0 && t.ncount >= 0 { SaltyChain(prm, [t.source.icount, t.ncount]); }
    NoLots(prm);
  }

  /** A name that no sequence and no turn has is new also after the turns. */
  lemma {:induction false} StaysNew(h: House, seats: map<Pub, Seat>, turns: seq<Turn>, name: Name)
    requires NewTo(name, seats)
    requires forall i | 0 <= i < |turns| && turns[i].Making? :: Differ(TurnName(turns[i]), name)
    ensures NewTo(name, RunSeats(h, seats, turns))
  {
    hide TakeTurn;
    hide NextSeat;
    hide NewPlace;
    hide StartLots;
    hide Differ;
    if turns == [] {
    } else {
      var fore, t := turns[..|turns| - 1], turns[|turns| - 1];
      StaysNew(h, seats, fore, name);
      var before, now := RunSeats(h, seats, fore), RunHouse(h, fore);
      if t.Rotation? && t.pre in now.kels && t.pre in before && now.kels[t.pre] != [] {
        NextPrm(now, before[t.pre], t);
      }
    }
  }

  lemma NextPrm(h: House, s: Seat, t: Turn)
    requires t.Rotation? && t.pre in h.kels && h.kels[t.pre] != []
    ensures NextSeat(h, s, t).prm == s.prm
  {
  }

  lemma {:induction false} StayNamed(h: House, seats: map<Pub, Seat>, turns: seq<Turn>)
    requires SeatsNamed(seats) && Named(turns)
    requires forall i | 0 <= i < |turns| && turns[i].Making? :: NewTo(TurnName(turns[i]), seats)
    ensures SeatsNamed(RunSeats(h, seats, turns))
  {
    hide TakeTurn;
    hide NextSeat;
    hide NewSeat;
    hide NewPlace;
    hide Salted;
    hide Differ;
    if turns == [] {
    } else {
      var fore, t := turns[..|turns| - 1], turns[|turns| - 1];
      StayNamed(h, seats, fore);
      var before, now := RunSeats(h, seats, fore), RunHouse(h, fore);
      if t.Making? {
        NewSalted(now, t);
        StaysNew(h, seats, fore, TurnName(t));
        DifferBothWays();
      } else if t.pre in now.kels && t.pre in before && now.kels[t.pre] != [] {
        NextSalted(now, before[t.pre], t);
      }
    }
  }

  lemma DifferBothWays()
    ensures forall a, b :: Differ(a, b) <==> Differ(b, a)
  {
  }

  /** Habs made from fresh keys under names that differ all stay in step with their own
      logs, whatever is interleaved. */
  lemma NamedStayInStep(h: House, seats: map<Pub, Seat>, turns: seq<Turn>)
    requires Seated(h, seats) && SeatsNamed(seats) && Named(turns)
    requires forall i | 0 <= i < |turns| && turns[i].Making? :: NewTo(TurnName(turns[i]), seats)
    requires forall i | 0 <= i < |turns| :: turns[i].verdict != Swallowed
    ensures var h' := RunHouse(h, turns);
      && h.kels.Keys <= h'.kels.Keys
      && forall pre | pre in h'.kels :: InStep(Hab(h', pre)) && Committed(h'.kels[pre])
  {
    hide Seated;
    hide SeatsNamed;
    hide InStep;
    hide Committed;
    hide RunHouse;
    hide RunSeats;
    hide NewTo;
    StayNamed(h, seats, turns);
    NamesApart(RunSeats(h, seats, turns));
    AllStaySeated(h, seats, turns);
  }

  /** A store that nothing was stored in. */
  const NOSTORE := Store(map[], map[], map[], map[], {}, 0)

  /** From an empty store on: however many Habs are made under names that differ and
      however their rotations are interleaved, each is in step with its own log. */
  lemma HabsInStep(turns: seq<Turn>)
    requires Named(turns)
    requires forall i | 0 <= i < |turns| :: turns[i].verdict != Swallowed
    ensures var h := RunHouse(House(NOSTORE, map[]), turns);
      forall pre | pre in h.kels :: InStep(Hab(h, pre)) && Committed(h.kels[pre])
  {
    hide InStep;
    hide Committed;
    hide RunHouse;
    hide Named;
    hide Sits;
    NamedStayInStep(House(NOSTORE, map[]), map[], turns);
  }
}
