/** How far the Anchorer of app/delegating.py must have brought an event for the
    elected member of app/grouping.py to record it safely. */
module GroupingStages {
  import opened Results
  import opened Delegating
  import opened DelegatingLaws
  import opened Grouping
  import opened GroupingLaws
  import opened GroupingRuns

  /** The entry is what its digest says, and its event was logged, receipted and, if it
      needs one, sealed. */
  ghost predicate Safe(seen: seq<World>, pre: Pre, p: Pend) {
    Own(pre, p) && Cleared(seen, p.diger) && WasReceipted(seen, p.diger)
  }

  /** In a run, call i is an approve round in which the elected member records an entry. */
  ghost predicate RecordsAt(states: seq<Group>, calls: seq<Call>, worlds: seq<World>, i: nat, pre: Pre, p: Pend) {
    && IsGroupRun(states, calls, worlds) && i < |calls| == |worlds| && i + 1 < |states|
    && calls[i] == Rounds(Approve, [(pre, p)]) && Elected(worlds[i], pre) && Own(pre, p)
    && (pre, p.sn) !in states[i].cgms
    && (pre, p.sn) in states[i + 1].cgms && states[i + 1].cgms[(pre, p.sn)] == p.diger
  }

  /** The stage of an event in the Anchorer, if it is anywhere. */
  ghost predicate StageIs(s: State, stage: Option<nat>, e: Ev) {
    if stage.None? then Nowhere(s, e) else OnlyAt(s, stage.value, e)
  }

  lemma ItemJustified(round: Round, s: Group, seen: seq<World>, w: World, pre: Pre, p: Pend)
    requires Justified(s.swain, seen + [w])
    ensures Justified(GroupItem(round, s, w, pre, p).0.swain, seen + [w])
  {
    hide Justified;
    hide Delegation;
    hide Sealing;
    hide Complete;
    hide Least;
    hide GetLast;
    hide Wigs;
    SubmitJustified(s.swain, seen, w, pre, Some(p.sn), false);
    var s' := GroupItem(round, s, w, pre, p).0.swain;
    if s' == s.swain.(aess := s'.aess) { SealSame(s.swain, s', seen + [w]); }
  }

  lemma {:induction false} SweepJustified(round: Round, s: Group, seen: seq<World>, w: World,
                                          order: seq<(Pre, Pend)>, n: nat)
    requires Justified(s.swain, seen + [w]) && n <= |order|
    ensures Justified(GroupSweep(round, s, w, order, n).0.swain, seen + [w])
  {
    hide Justified;
    hide GroupItem;
    if n == 0 {
    } else {
      SweepJustified(round, s, seen, w, order, n - 1);
      ItemJustified(round, GroupSweep(round, s, w, order, n - 1).0, seen, w, order[n - 1].0, order[n - 1].1);
    }
  }

  /** The Anchorer of a Counselor has had its reasons in every run, guarded or not. */
  lemma {:induction false} SwainJustified(states: seq<Group>, calls: seq<Call>, worlds: seq<World>, i: nat)
    requires IsGroupRun(states, calls, worlds) && i <= |calls|
    ensures Justified(states[i].swain, worlds[..i])
  {
    hide GroupSweep;
    hide Justified;
    hide Do;
    hide Lists;
    hide Add;
    hide In;
    if i == 0 {
      NothingYet(states[0].swain);
    } else {
      var s, w, seen := states[i - 1], worlds[i - 1], worlds[..i - 1];
      SwainJustified(states, calls, worlds, i - 1);
      assert worlds[..i] == seen + [w];
      assert states[i] == DoGroup(s, w, calls[i - 1]) && CallFits(s, calls[i - 1]);
      JustifiedLater(s.swain, seen, w);
      match calls[i - 1]
      case Start(_, _) =>
      case Rounds(round, order) => SweepJustified(round, s, seen, w, order, |order|);
      case Swain(op) => DoJustified(s.swain, w, op, seen);
    }
  }

  /** An event that waits for publication, or is done, was logged, receipted and sealed. */
  lemma LateIsSafe(s: State, seen: seq<World>, pre: Pre, p: Pend)
    requires Justified(s, seen) && Own(pre, p) && (At(s, 2, p.diger) || At(s, 3, p.diger))
    ensures Safe(seen, pre, p)
  {
    hide SealedBy;
    hide FullyReceipted;
    hide GetLast;
    var e := p.diger;
    assert seen[..|seen|] == seen;
    var d := |seen|;
    if At(s, 3, e) { d := Peel(3, seen, |seen|, e); }
    var c := Peel(2, seen, d, e);
    var b := Peel(1, seen, c, e);
    var a := Peel(0, seen, b, e);
    assert GetLast(seen[a], pre, p.sn) == Some(e);
    assert FullyReceipted(seen[b], e) && SealedBy(seen[c], e);
  }

  lemma SafeLater(seen: seq<World>, w: World, pre: Pre, p: Pend)
    requires Safe(seen, pre, p)
    ensures Safe(seen + [w], pre, p)
  {
    ClearedLater(seen, w, p.diger);
    hide Cleared;
    hide WasReceipted;
  }

  lemma RecordedLate(states: seq<Group>, calls: seq<Call>, worlds: seq<World>, i: nat, pre: Pre, p: Pend)
    requires RecordsAt(states, calls, worlds, i, pre, p)
    requires At(states[i].swain, 2, p.diger) || At(states[i].swain, 3, p.diger)
    ensures Safe(worlds[..i + 1], pre, p)
  {
    hide IsGroupRun;
    hide Justified;
    hide At;
    hide Safe;
    SwainJustified(states, calls, worlds, i);
    LateIsSafe(states[i].swain, worlds[..i], pre, p);
    SafeLater(worlds[..i], worlds[i], pre, p);
    assert worlds[..i + 1] == worlds[..i] + [worlds[i]];
  }

  /** Prefix 1, whose first member this is, with delegator 2 and two delegated events in
      its log, of which the delegator has sealed the second.  The first is submitted
      to the Anchorer if it is to be somewhere, and receipted if it is to wait there for
      its seal. */
  const FIRST := Ev(1, 0, 7, true)
  const SECOND := Ev(1, 1, 8, true)
  const SEAL := Ev(2, 0, 5, false)
  const ENTRY := (1, Pend(0, FIRST))

  function Later(stage: Option<nat>): World {
    World(map[1 := Hab(true, 9)],
          map[1 := Kever([9, 8], 1, 0, Some(2), SECOND), 2 := Kever([], 0, 0, None, SEAL)],
          map[1 := [Entry(7, true, {}), Entry(8, true, {})], 2 := [Entry(5, false, {SECOND})]],
          if stage == Some(1) then map[FIRST := {0}, SECOND := {0}] else map[SECOND := {0}],
          map[FIRST := [if stage.None? then 1 else 0]],
          {(1, 0), (1, 1)}, {}, {1})
  }

  lemma LaterSeals(stage: Option<nat>)
    ensures Sealing(Later(stage), 2, SECOND) == Some(SEAL) && Sealing(Later(stage), 2, FIRST) == None
  {
    assert FetchSealing(Later(stage), 2, FIRST, 1) == None;
    assert FetchSealing(Later(stage), 2, FIRST, 0) == None;
  }

  /** The first event is started and found in the log; meanwhile the second goes all
      the way through the Anchorer; then the first is asked for. */
  function LaterCalls(stage: Option<nat>): seq<Call> {
    [Start(1, ENTRY.1), Rounds(Sign, [ENTRY]), Swain(Submit(1, Some(1), false)),
     Swain(Process(Witness, if stage.None? then [SECOND] else [FIRST, SECOND])),
     Swain(Process(Unanchored, if stage == Some(1) then [FIRST, SECOND] else [SECOND])),
     Swain(Process(Publication, [SECOND])), Rounds(Approve, [ENTRY])]
  }

  /** The Anchorer after the sign round and after each call on it. */
  function LaterSwains(stage: Option<nat>): (a: seq<State>)
    ensures |a| == 5
  {
    var a2 := if stage.None? then NOGROUP.swain else NOGROUP.swain.(dpwe := {FIRST}, publishers := {1});
    var a3 := a2.(dpwe := a2.dpwe + {SECOND}, publishers := {1});
    var a4 := a3.(dpwe := if stage == Some(0) then {FIRST} else {},
                  dune := if stage == Some(1) then {FIRST, SECOND} else {SECOND},
                  sent := if stage == Some(1) then [FIRST, SECOND] else [SECOND]);
    var a5 := a4.(dune := if stage == Some(1) then {FIRST} else {}, dpub := {SECOND}, aess := map[(1, SECOND) := SEAL]);
    var a6 := a5.(dpub := {}, publishers := {}, cdel := map[(1, 1) := SECOND]);
    [a2, a3, a4, a5, a6]
  }

  function LaterStates(stage: Option<nat>): seq<Group> {
    var p := ENTRY.1;
    var a := LaterSwains(stage);
    var s1 := NOGROUP.(gpse := map[1 := [p]]);
    var s2 := NOGROUP.(gdee := map[1 := [p]]);
    [NOGROUP, s1, s2.(swain := a[0]), s2.(swain := a[1]), s2.(swain := a[2]), s2.(swain := a[3]),
     s2.(swain := a[4]), NOGROUP.(swain := a[4], cgms := map[(1, 0) := FIRST])]
  }

  lemma AnchorerOfOne(phase: Phase, s: State, w: World, e: Ev)
    ensures Sweep(phase, s, w, [e], 1) == Item(phase, s, w, e)
    ensures Table(s, phase) == {e} ==> Lists([e], Table(s, phase))
  {
    hide Item;
    assert Sweep(phase, s, w, [e], 0) == (s, Pass);
  }

  lemma AnchorerOfTwo(phase: Phase, s: State, w: World, e: Ev, x: Ev)
    requires e != x
    ensures Item(phase, s, w, e).1 == Pass ==>
      Sweep(phase, s, w, [e, x], 2) == Item(phase, Item(phase, s, w, e).0, w, x)
    ensures Table(s, phase) == {e, x} ==> Lists([e, x], Table(s, phase))
  {
    hide Item;
    assert Sweep(phase, s, w, [e, x], 0) == (s, Pass);
    assert Sweep(phase, s, w, [e, x], 1) == Item(phase, s, w, e);
  }

  lemma LaterLogs(stage: Option<nat>)
    ensures GetLast(Later(stage), 1, 0) == Some(FIRST) && GetLast(Later(stage), 1, 1) == Some(SECOND)
    ensures |Wigs(Later(stage), FIRST)| == (if stage == Some(1) then 1 else 0) && |Wigs(Later(stage), SECOND)| == 1
  {
  }

  /** What a submission of either event does. */
  lemma LaterSubmits(stage: Option<nat>, s: State, sn: nat)
    requires sn < 2
    ensures Delegation(s, Later(stage), 1, Some(sn), false)
      == (s.(publishers := s.publishers + {1}, dpwe := s.dpwe + {if sn == 0 then FIRST else SECOND}), Pass)
  {
    hide GetLast;
    LaterLogs(stage);
  }

  lemma LaterSubmit(stage: Option<nat>)
    ensures var a, w := LaterSwains(stage), Later(stage);
      && a[1] == Do(a[0], w, Submit(1, Some(1), false)).0
      && (stage.Some? ==> Delegation(NOGROUP.swain, w, 1, Some(0), false) == (a[0], Pass))
  {
    hide Delegation;
    hide Later;
    LaterSubmits(stage, LaterSwains(stage)[0], 1);
    LaterSubmits(stage, NOGROUP.swain, 0);
    assert {1} + {1} == {1} && {} + {1} == {1} && {} + {FIRST} == {FIRST};
  }

  /** What a witness round makes of the two events. */
  lemma LaterWitnessItems(stage: Option<nat>, s: State)
    ensures var w := Later(stage);
      && WitnessItem(s, w, SECOND)
           == (s.(sent := s.sent + [SECOND], dpwe := s.dpwe - {SECOND}, dune := s.dune + {SECOND}), Pass)
      && WitnessItem(s, w, FIRST)
           == (if stage == Some(1)
               then s.(sent := s.sent + [FIRST], dpwe := s.dpwe - {FIRST}, dune := s.dune + {FIRST}) else s, Pass)
  {
    hide Wigs;
    LaterLogs(stage);
  }

  lemma LaterWitness(stage: Option<nat>)
    requires stage.None? || stage.value < 2
    ensures var a, w := LaterSwains(stage), Later(stage); var op := LaterCalls(stage)[3].op;
      Lists(op.order, Table(a[1], Witness)) && a[2] == Do(a[1], w, op).0
  {
    hide Lists;
    hide Later;
    hide WitnessItem;
    var a, w := LaterSwains(stage), Later(stage);
    LaterWitnessItems(stage, a[1]);
    if stage.None? {
      AnchorerOfOne(Witness, a[1], w, SECOND);
      assert {SECOND} - {SECOND} == {};
    } else {
      AnchorerOfTwo(Witness, a[1], w, FIRST, SECOND);
      LaterWitnessItems(stage, Item(Witness, a[1], w, FIRST).0);
      assert {FIRST, SECOND} - {FIRST} - {SECOND} == {} && {FIRST, SECOND} - {SECOND} == {FIRST};
    }
  }

  lemma LaterUnanchored(stage: Option<nat>)
    requires stage.None? || stage.value < 2
    ensures var a, w := LaterSwains(stage), Later(stage); var op := LaterCalls(stage)[4].op;
      Lists(op.order, Table(a[2], Unanchored)) && a[3] == Do(a[2], w, op).0
  {
    hide Lists;
    hide Sealing;
    var a, w := LaterSwains(stage), Later(stage);
    LaterSeals(stage);
    if stage == Some(1) {
      AnchorerOfTwo(Unanchored, a[2], w, FIRST, SECOND);
      assert {FIRST, SECOND} - {SECOND} == {FIRST};
    } else {
      AnchorerOfOne(Unanchored, a[2], w, SECOND);
      assert {SECOND} - {SECOND} == {};
    }
  }

  lemma LaterPublication(stage: Option<nat>)
    ensures var a, w := LaterSwains(stage), Later(stage); var op := LaterCalls(stage)[5].op;
      Lists(op.order, Table(a[3], Publication)) && a[4] == Do(a[3], w, op).0
  {
    hide Lists;
    AnchorerOfOne(Publication, LaterSwains(stage)[3], Later(stage), SECOND);
  }

  lemma LaterStart(stage: Option<nat>)
    ensures var ss, w, call := LaterStates(stage), Later(stage), LaterCalls(stage)[0];
      CallFits(ss[0], call) && ss[1] == DoGroup(ss[0], w, call)
  {
    hide Later;
    hide LaterSwains;
  }

  /** The least position that has signed the first event, and that its member is
      elected just when that is position 0. */
  lemma LaterSigned(stage: Option<nat>)
    ensures var w, k := Later(stage), if stage.None? then 1 else 0;
      && FIRST in w.sigs && w.sigs[FIRST] == [k] && Least([k]) == k
      && 1 in w.habs && 1 in w.kevers && |w.kevers[1].keys| == 2 && MustDelegate(w.kevers[1])
      && (w.habs[1].mkey == w.kevers[1].keys[k] <==> stage.Some?)
  {
  }

  lemma LaterSignItem(stage: Option<nat>, s: Group)
    requires s.gpse.Keys == {1} && s.gdee == map[] && s.swain == NOGROUP.swain
    ensures SignItem(s, Later(stage), 1, ENTRY.1).0
      == s.(gpse := map[], gdee := map[1 := [ENTRY.1]], swain := LaterSwains(stage)[0])
  {
    hide Delegation;
    hide GetLast;
    hide Later;
    hide LaterSwains;
    LaterSubmit(stage);
    LaterLogs(stage);
    LaterSigned(stage);
    LaterNowhere(stage);
    assert s.gpse - {1} == map[];
  }

  lemma LaterNowhere(stage: Option<nat>)
    ensures stage.None? ==> LaterSwains(stage)[0] == NOGROUP.swain
  {
  }

  lemma LaterSign(stage: Option<nat>)
    ensures var ss, w, call := LaterStates(stage), Later(stage), LaterCalls(stage)[1];
      CallFits(ss[1], call) && ss[2] == DoGroup(ss[1], w, call)
  {
    hide SignItem;
    hide Later;
    hide LaterSwains;
    SweepOfOne(Sign, LaterStates(stage)[1], Later(stage), ENTRY);
    LaterSignItem(stage, LaterStates(stage)[1]);
  }

  lemma LaterApprove(stage: Option<nat>)
    ensures var ss, w, call := LaterStates(stage), Later(stage), LaterCalls(stage)[6];
      CallFits(ss[6], call) && ss[7] == DoGroup(ss[6], w, call)
  {
    var ss, w := LaterStates(stage), Later(stage);
    SweepOfOne(Approve, ss[6], w, ENTRY);
    assert ApproveItem(ss[6], w, 1, ENTRY.1).0 == ss[7];
  }

  /** The calls on the Anchorer. */
  lemma LaterAnchorer(stage: Option<nat>)
    requires stage.None? || stage.value < 2
    ensures var ss, w := LaterStates(stage), Later(stage); forall i | 2 <= i < 6 ::
      CallFits(ss[i], LaterCalls(stage)[i]) && ss[i + 1] == DoGroup(ss[i], w, LaterCalls(stage)[i])
  {
    hide Lists;
    hide Do;
    hide Later;
    hide LaterSwains;
    LaterSubmit(stage);
    LaterWitness(stage);
    LaterUnanchored(stage);
    LaterPublication(stage);
  }

  /** It is a run. */
  lemma LaterRun(stage: Option<nat>)
    requires stage.None? || stage.value < 2
    ensures IsGroupRun(LaterStates(stage), LaterCalls(stage), seq(7, i => Later(stage)))
  {
    hide CallFits;
    hide DoGroup;
    hide Later;
    hide LaterSwains;
    LaterStart(stage);
    LaterSign(stage);
    LaterAnchorer(stage);
    LaterApprove(stage);
    var ss, calls, w := LaterStates(stage), LaterCalls(stage), Later(stage);
    forall i | 0 <= i < 7 ensures CallFits(ss[i], calls[i]) && ss[i + 1] == DoGroup(ss[i], w, calls[i]) {
      assert i < 2 || 2 <= i < 6 || i == 6;
    }
  }

  /** Where the Anchorer has the first event when it is asked for. */
  lemma LaterStage(stage: Option<nat>)
    requires stage.None? || stage.value < 2
    ensures StageIs(LaterStates(stage)[6].swain, stage, FIRST)
  {
  }

  /** Nothing is seen of its seal. */
  lemma LaterUnsealed(stage: Option<nat>)
    ensures var seen := seq(7, i => Later(stage));
      && AlwaysAgrees(seen, 1, ENTRY.1) && NeedsSeal(Later(stage), FIRST)
      && !WasSealed(seen, FIRST) && !Cleared(seen, FIRST)
  {
    hide Sealing;
    hide GetLast;
    var w, seen := Later(stage), seq(7, i => Later(stage));
    LaterSeals(stage);
    LaterLogs(stage);
    assert !SealedBy(w, FIRST) && !LoggedUndelegated(w, FIRST);
    OneWorld(w, seen, FIRST);
  }

  /** An elected member records a waiting event on the strength of a later one, since
      completeness is asked at the latest number of the log: at the end of this run an
      event is recorded that its delegator never sealed, wherever the Anchorer has it
      before its seal is found. */
  lemma LaterEventApproves(stage: Option<nat>)
    requires stage.None? || stage.value < 2
    ensures var ss, seen := LaterStates(stage), seq(7, i => Later(stage));
      && RecordsAt(ss, LaterCalls(stage), seen, 6, 1, ENTRY.1) && AlwaysAgrees(seen, 1, ENTRY.1)
      && StageIs(ss[6].swain, stage, FIRST)
      && NeedsSeal(Later(stage), FIRST) && !WasSealed(seen, FIRST) && !Cleared(seen, FIRST)
  {
    hide IsGroupRun;
    hide StageIs;
    hide Cleared;
    hide WasSealed;
    hide AlwaysAgrees;
    hide NeedsSeal;
    hide LaterSwains;
    LaterRun(stage);
    LaterStage(stage);
    LaterUnsealed(stage);
  }

  lemma NotCleared(seen: seq<World>, pre: Pre, p: Pend)
    requires !Cleared(seen, p.diger)
    ensures !Safe(seen, pre, p)
  {
  }

  /** What an elected member records is safe in every run just when the Anchorer has the
      event at its third stage or has recorded it: there no guard is needed, and at no
      earlier stage is it enough. */
  lemma SafeStages(stage: Option<nat>)
    requires stage.None? || stage.value < 4
    ensures (forall states: seq<Group>, calls, worlds, i: nat, pre: Pre, p
                | RecordsAt(states, calls, worlds, i, pre, p) && StageIs(states[i].swain, stage, p.diger) ::
                Safe(worlds[..i + 1], pre, p))
      <==> stage == Some(2) || stage == Some(3)
  {
    hide IsGroupRun;
    hide Safe;
    hide Later;
    hide LaterStates;
    if stage == Some(2) || stage == Some(3) {
      forall states: seq<Group>, calls, worlds, i: nat, pre: Pre, p
        | RecordsAt(states, calls, worlds, i, pre, p) && StageIs(states[i].swain, stage, p.diger)
        ensures Safe(worlds[..i + 1], pre, p)
      {
        RecordedLate(states, calls, worlds, i, pre, p);
      }
    } else {
      LaterEventApproves(stage);
      var seen := seq(7, i => Later(stage));
      assert seen[..6 + 1] == seen;
      NotCleared(seen, 1, ENTRY.1);
    }
  }
}
