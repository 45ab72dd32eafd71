/** Many Habs on one Manager: any interleaving of their rotations and of the
    making of further Habs leaves each of them in step with its own log. */
module HabbingTogether {
  import opened Collections
  import opened Results
  import opened Keeping
  import opened KeepingLaws
  import opened KeepingRuns
  import opened Habbing
  import opened HabbingLaws
  import opened HabbingMaking

  /** A key store and the logs of the Habs that share it. */
  datatype House = House(st: Store, kels: map<Pub, seq<Event>>)

  /** A rotation of one of them, or the making of another. */
  datatype Turn =
    | Rotation(pre: Pub, count: Option<int>, quorums: set<set<nat>>, verdict: Verdict)
    | Making(source: Source, ncount: int, salt: string, stem: string, said: Option<nat>,
             quorums: set<set<nat>>, verdict: Verdict)

  /** Where a sequence stands: its lots, k of them given, and the current one. */
  datatype Seat = Seat(prm: PrePrm, lots: seq<PubLot>, k: nat, n: nat)

  function Hab(h: House, pre: Pub): State
    requires pre in h.kels
  {
    State(h.st, pre, h.kels[pre])
  }

  function TakeTurn(h: House, t: Turn): House {
    match t
    case Rotation(pre, count, quorums, verdict) =>
      if pre !in h.kels || h.kels[pre] == [] then h else
      var hab := RotateHab(Hab(h, pre), count, quorums, verdict).0;
      House(hab.st, h.kels[pre := hab.kel])
    case Making(source, ncount, salt, stem, said, quorums, verdict) =>
      var (st1, r) := Make(h.st, source, ncount, salt, stem, said, quorums, verdict);
      House(st1, if r.Ok? then h.kels[r.value.pre := r.value.kel] else h.kels)
  }

  function RunHouse(h: House, turns: seq<Turn>): House {
    if turns == [] then h else TakeTurn(RunHouse(h, turns[..|turns| - 1]), turns[|turns| - 1])
  }

  ghost predicate Sits(h: House, pre: Pub, s: Seat) {
    pre in h.kels && InStepAt(Hab(h, pre), s.prm, s.lots, s.k, s.n) && Committed(h.kels[pre])
  }

  /** Every Hab is in step at its seat, and its log honours its commitments.  There may
      also be seats of sequences whose Hab could not be made. */
  ghost predicate Seated(h: House, seats: map<Pub, Seat>) {
    && Sound(h.st) && h.kels.Keys <= seats.Keys <= h.st.pres.Keys
    && forall pre | pre in h.kels :: Sits(h, pre, seats[pre])
  }

  /** No key is in two of the sequences. */
  ghost predicate Apart(seats: map<Pub, Seat>) {
    forall p, q, key | p in seats && q in seats && p != q && Has(seats[p].lots, key) :: !Has(seats[q].lots, key)
  }

  /** A turn whose outcome is not a swallowed MissingSignatureError, and that makes no
      Hab from the middle of its secrets. */
  ghost predicate Plain(t: Turn) {
    t.verdict != Swallowed && (t.Making? ==> FromStart(t.source))
  }

  /** The seat after a rotation. */
  ghost function NextSeat(h: House, s: Seat, t: Turn): Seat
    requires t.Rotation? && t.pre in h.kels && h.kels[t.pre] != []
  {
    var kever := h.kels[t.pre][|h.kels[t.pre]| - 1];
    var asked := Asked(Hab(h, t.pre), t.count);
    if !CanAdvance(s.lots, s.n, asked) then s else
    var lots := Grown(s.prm, s.lots, s.n, if asked < 0 then 0 else asked);
    var goes := t.verdict == Accepted && Reachable(kever.quorums, |kever.ndigs|);
    Seat(s.prm, lots, s.k, if goes then s.n + 1 else s.n)
  }

  /** Where the keys of a new Hab are, and the seat they take. */
  ghost function NewPlace(h: House, t: Turn): Option<Pub>
    requires t.Making?
  {
    Place(h.st, t.source, t.ncount, t.salt, t.stem, t.said)
  }

  ghost function NewSeat(h: House, t: Turn): Seat
    requires t.Making?
  {
    var prm := PrePrm(h.st.pidx, t.salt, t.stem);
    Seat(prm, StartLots(prm, t.source, t.ncount), Handed(t.source), 0)
  }

  ghost function NextSeats(h: House, seats: map<Pub, Seat>, t: Turn): map<Pub, Seat> {
    match t
    case Rotation(pre, _, _, _) =>
      if pre !in h.kels || pre !in seats || h.kels[pre] == [] then seats
      else seats[pre := NextSeat(h, seats[pre], t)]
    case Making(_, _, _, _, _, _, _) =>
      var place := NewPlace(h, t);
      if place.None? || place.value in seats then seats else seats[place.value := NewSeat(h, t)]
  }

  ghost function RunSeats(h: House, seats: map<Pub, Seat>, turns: seq<Turn>): map<Pub, Seat> {
    if turns == [] then seats else
    var fore := turns[..|turns| - 1];
    NextSeats(RunHouse(h, fore), RunSeats(h, seats, fore), turns[|turns| - 1])
  }

  /** A rotation stores and erases keys of its own sequence alone. */
  lemma RotationTouchesOwn(h: State, prm: PrePrm, lots: seq<PubLot>, k: nat, n: nat,
                           ncount: Option<int>, quorums: set<set<nat>>, verdict: Verdict, key: Pub)
    requires InStepAt(h, prm, lots, k, n)
    requires var asked := Asked(h, ncount);
      !Has(if CanAdvance(lots, n, asked) then Grown(prm, lots, n, if asked < 0 then 0 else asked) else lots, key)
    ensures key in RotateHab(h, ncount, quorums, verdict).0.st.pris <==> key in h.st.pris
  {
    hide StandsAt;
    hide NoneHeld;
    hide Chain;
    hide Advance;
    hide Digests;
    hide Indices;
    hide Satisfied;
    hide NextLot;
    hide Has;
    var asked := Asked(h, ncount);
    AdvanceIs(h.st, h.pre, prm, lots, n, k, asked);
    StandsSits(h.st, h.pre, prm, lots, n);
    if CanAdvance(lots, n, asked) {
      var lots' := Grown(prm, lots, n, if asked < 0 then 0 else asked);
      NotIn(lots', key, |lots|);
      if n > 0 { NotIn(lots', key, n - 1); }
    }
  }

  lemma AdvanceSound(st: Store, pre: Pub, ncount: int)
    requires Sound(st)
    ensures var st' := Advance(st, pre, ncount).0; Sound(st') && st'.pres == st.pres
  {
    hide Sound;
    hide Replay;
    hide Rotate;
    var st1 := Replay(st, pre, true, false).0;
    StepSound(st, DoReplay(pre, true, false));
    StepSound(st1, DoRotate(pre, ncount, false));
    PresKept(st, pre, ncount);
    PresKept(st1, pre, ncount);
  }

  lemma SitSound(st: Store, pre: Pub, s: PreSit)
    requires Sound(st) && pre in st.pres
    ensures Sound(st.(sits := st.sits[pre := s]))
  {
  }

  lemma ErasedSound(st: Store, gone: set<Pub>)
    requires Sound(st)
    ensures Sound(st.(pris := st.pris - gone))
  {
  }

  /** A rotation reserves no prefix and gives none up. */
  lemma RotationSound(h: State, ncount: Option<int>, quorums: set<set<nat>>, verdict: Verdict)
    requires Sound(h.st) && h.kel != [] && h.pre in h.st.sits && h.pre in h.st.pres
    ensures var st' := RotateHab(h, ncount, quorums, verdict).0.st; Sound(st') && st'.pres == h.st.pres
  {
    hide Sound;
    hide Advance;
    hide Indices;
    hide Satisfied;
    hide Digests;
    hide ToSet;
    var asked := if ncount.None? then |h.kel[|h.kel| - 1].ndigs| else ncount.value;
    var st1, before := Advance(h.st, h.pre, asked).0, h.st.sits[h.pre];
    AdvanceSound(h.st, h.pre, asked);
    SitSound(st1, h.pre, before);
    ErasedSound(st1, ToSet(before.was.pubs));
  }

  lemma PresKept(st: Store, pre: Pub, ncount: int)
    ensures Replay(st, pre, true, false).0.pres == st.pres && Rotate(st, pre, ncount, false).0.pres == st.pres
  {
    hide Create;
    hide ToSet;
  }

  /** The seat of a Hab is kept by whatever leaves its entries and its keys. */
  lemma SeatKept(h: House, h': House, q: Pub, s: Seat)
    requires Sits(h, q, s) && q in h'.kels && h'.kels[q] == h.kels[q]
    requires KeptAt(h.st, h'.st, q)
    requires forall key | Has(s.lots, key) :: key in h'.st.pris <==> key in h.st.pris
    ensures Sits(h', q, s)
  {
    hide Chain;
    hide Committed;
    hide Has;
    forall j, i | 0 <= j < |s.lots| && 0 <= i < |s.lots[j].pubs| ensures Has(s.lots, s.lots[j].pubs[i]) {
      HasAt(s.lots, j, i);
    }
  }

  /** The Hab that rotates sits at its next seat. */
  lemma OwnRotation(h: House, s: Seat, t: Turn)
    requires t.Rotation? && t.verdict != Swallowed && Sits(h, t.pre, s)
    ensures h.kels[t.pre] != []
    ensures var h' := TakeTurn(h, t);
      && Sits(h', t.pre, NextSeat(h, s, t)) && OthersKept(h.st, h'.st, t.pre)
      && h'.kels == h.kels[t.pre := h'.kels[t.pre]] && s.lots <= NextSeat(h, s, t).lots
  {
    hide StandsAt;
    hide NoneHeld;
    hide OthersKept;
    hide Chain;
    hide RotateHab;
    hide Digests;
    hide Indices;
    hide Reachable;
    hide NextLot;
    hide UpTo;
    var hab := Hab(h, t.pre);
    RotateHabIs(hab, s.prm, s.lots, s.k, s.n, t.count, t.quorums, t.verdict);
    if !CanAdvance(s.lots, s.n, Asked(hab, t.count)) {
      OthersKeptSelf(h.st, t.pre);
    } else {
      var lots' := NextSeat(h, s, t).lots;
      assert lots'[s.n + 1] == s.lots[s.n + 1];
    }
  }

  lemma SeatTouches(h: House, s: Seat, t: Turn, key: Pub)
    requires t.Rotation? && Sits(h, t.pre, s) && !Has(NextSeat(h, s, t).lots, key)
    ensures key in TakeTurn(h, t).st.pris <==> key in h.st.pris
  {
    hide RotateHab;
    hide Has;
    hide Chain;
    hide StandsAt;
    hide NoneHeld;
    hide Grown;
    RotationTouchesOwn(Hab(h, t.pre), s.prm, s.lots, s.k, s.n, t.count, t.quorums, t.verdict, key);
  }

  lemma SitsThere(h: House, s: Seat, pre: Pub)
    requires Sits(h, pre, s)
    ensures h.kels[pre] != [] && pre in h.st.sits
  {
    hide Chain;
    hide NoneHeld;
  }

  lemma RotationSeated(h: House, seats: map<Pub, Seat>, t: Turn)
    requires t.Rotation? && t.verdict != Swallowed && Seated(h, seats) && t.pre in h.kels
    requires Apart(NextSeats(h, seats, t))
    ensures Seated(TakeTurn(h, t), NextSeats(h, seats, t))
  {
    hide InStepAt;
    hide RotateHab;
    hide OthersKept;
    hide KeptAt;
    hide Sound;
    hide Has;
    hide Sits;
    OwnRotation(h, seats[t.pre], t);
    SitsThere(h, seats[t.pre], t.pre);
    RotationSound(Hab(h, t.pre), t.count, t.quorums, t.verdict);
    var h', next := TakeTurn(h, t), NextSeats(h, seats, t);
    assert next == seats[t.pre := NextSeat(h, seats[t.pre], t)];
    forall q | q in h.kels && q != t.pre ensures Sits(h', q, next[q]) {
      assert Sits(h, q, seats[q]);
      forall key | Has(seats[q].lots, key) ensures key in h'.st.pris <==> key in h.st.pris {
        assert Has(next[q].lots, key) && !Has(next[t.pre].lots, key);
        SeatTouches(h, seats[t.pre], t, key);
      }
      KeptBut(h.st, h'.st, t.pre, q);
      SeatKept(h, h', q, seats[q]);
    }
  }

  lemma OneEvent(h: House, pre: Pub, s: Seat)
    requires pre in h.kels && |h.kels[pre]| == 1 && InStepAt(Hab(h, pre), s.prm, s.lots, s.k, s.n)
    ensures Sits(h, pre, s)
  {
    hide InStepAt;
  }

  lemma MakingSeated(h: House, seats: map<Pub, Seat>, t: Turn)
    requires t.Making? && Plain(t) && Seated(h, seats) && Apart(NextSeats(h, seats, t))
    ensures Seated(TakeTurn(h, t), NextSeats(h, seats, t))
  {
    hide InStepAt;
    hide Make;
    hide Place;
    hide StartLots;
    hide KeptAt;
    hide Sound;
    hide Has;
    hide Sits;
    MakeIs(h.st, t.source, t.ncount, t.salt, t.stem, t.said, t.quorums, t.verdict);
    var h', next, place := TakeTurn(h, t), NextSeats(h, seats, t), NewPlace(h, t);
    if place.None? {
      assert h' == h && next == seats;
    } else {
      assert next == seats[place.value := NewSeat(h, t)];
      if place.value in h'.kels {
        OneEvent(h', place.value, NewSeat(h, t));
      }
      forall q | q in h.kels ensures q != place.value && Sits(h', q, next[q]) {
        assert Sits(h, q, seats[q]);
        forall key | Has(seats[q].lots, key) ensures key in h'.st.pris <==> key in h.st.pris {
          assert Has(next[q].lots, key) && !Has(next[place.value].lots, key);
        }
        SeatKept(h, h', q, seats[q]);
      }
    }
  }

  lemma TurnSeated(h: House, seats: map<Pub, Seat>, t: Turn)
    requires Plain(t) && Seated(h, seats) && Apart(NextSeats(h, seats, t))
    ensures Seated(TakeTurn(h, t), NextSeats(h, seats, t)) && h.kels.Keys <= TakeTurn(h, t).kels.Keys
  {
    hide Apart;
    hide Seated;
    hide Make;
    hide RotateHab;
    if t.Making? {
      MakingSeated(h, seats, t);
    } else if t.pre in h.kels {
      RotationSeated(h, seats, t);
    }
  }

  /** Sequences that are apart were apart when they were shorter, or fewer. */
  lemma ApartBefore(seats: map<Pub, Seat>, pre: Pub, s: Seat)
    requires pre in seats ==> seats[pre].lots <= s.lots
    requires Apart(seats[pre := s])
    ensures Apart(seats)
  {
    if pre in seats { HasMore(seats[pre].lots, s.lots); }
    hide Has;
    var after := seats[pre := s];
    forall p, q, key | p in seats && q in seats && p != q && Has(seats[p].lots, key) ensures !Has(seats[q].lots, key) {
      assert Has(after[p].lots, key) && !Has(after[q].lots, key);
    }
  }

  lemma HasMore(lots: seq<PubLot>, lots': seq<PubLot>)
    requires lots <= lots'
    ensures forall key | Has(lots, key) :: Has(lots', key)
  {
    forall key | Has(lots, key) ensures Has(lots', key) {
      var j, i :| 0 <= j < |lots| && 0 <= i < |lots[j].pubs| && lots[j].pubs[i] == key;
      assert lots'[j] == lots[j];
    }
  }

  lemma BeforeTurn(h: House, seats: map<Pub, Seat>, t: Turn)
    requires Apart(NextSeats(h, seats, t))
    ensures Apart(seats)
  {
    hide Apart;
    hide NextLot;
    hide Place;
    hide StartLots;
    if t.Rotation? {
      if t.pre in h.kels && t.pre in seats && h.kels[t.pre] != [] {
        ApartBefore(seats, t.pre, NextSeat(h, seats[t.pre], t));
      }
    } else {
      var place := NewPlace(h, t);
      if place.Some? && place.value !in seats {
        ApartBefore(seats, place.value, NewSeat(h, t));
      }
    }
  }

  lemma SeatedInStep(h: House, seats: map<Pub, Seat>)
    requires Seated(h, seats)
    ensures forall pre | pre in h.kels :: InStep(Hab(h, pre)) && Committed(h.kels[pre])
  {
    hide InStepAt;
    hide Committed;
    forall pre | pre in h.kels ensures InStep(Hab(h, pre)) && Committed(h.kels[pre]) {
      assert Sits(h, pre, seats[pre]);
    }
  }

  /** Over every interleaving of rotations and makings of Habs on one Manager, accepted,
      refused or impossible, each Hab is in step with its own log and its log honours
      its commitments, as long as no key comes to be in two of the sequences. */
  lemma {:induction false} AllStaySeated(h: House, seats: map<Pub, Seat>, turns: seq<Turn>)
    requires Seated(h, seats) && Apart(RunSeats(h, seats, turns))
    requires forall i | 0 <= i < |turns| :: Plain(turns[i])
    ensures var h' := RunHouse(h, turns);
      && Seated(h', RunSeats(h, seats, turns)) && h.kels.Keys <= h'.kels.Keys
      && forall pre | pre in h'.kels :: InStep(Hab(h', pre)) && Committed(h'.kels[pre])
  {
    hide InStep;
    hide Committed;
    hide Sits;
    hide Apart;
    hide TakeTurn;
    hide Plain;
    hide NextSeats;
    if turns == [] {
      SeatedInStep(h, seats);
    } else {
      var fore, t := turns[..|turns| - 1], turns[|turns| - 1];
      BeforeTurn(RunHouse(h, fore), RunSeats(h, seats, fore), t);
      AllStaySeated(h, seats, fore);
      TurnSeated(RunHouse(h, fore), RunSeats(h, seats, fore), t);
      SeatedInStep(RunHouse(h, turns), RunSeats(h, seats, turns));
    }
  }
}
