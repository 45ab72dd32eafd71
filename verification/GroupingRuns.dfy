/** Runs of the Counselor of app/grouping.py: when three calls record an event
    safely, and runs that break the promise where a guard does not hold. */
module GroupingRuns {
  import opened Results
  import opened Delegating
  import opened Grouping
  import opened GroupingLaws

  lemma SweepOfOne(round: Round, s: Group, w: World, x: (Pre, Pend))
    ensures GroupSweep(round, s, w, [x], 1) == GroupItem(round, s, w, x.0, x.1)
  {
    hide GroupItem;
    assert GroupSweep(round, s, w, [x], 0) == (s, Pass);
  }

  /** An event is started, found in the log and found receipted. */
  function ThreeCalls(x: (Pre, Pend)): seq<Call> {
    [Start(x.0, x.1), Rounds(Sign, [x]), Rounds(Receipt, [x])]
  }

  function ThreeStates(w: World, x: (Pre, Pend)): seq<Group> {
    var s1 := DoGroup(NOGROUP, w, Start(x.0, x.1));
    var s2 := DoGroup(s1, w, Rounds(Sign, [x]));
    var s3 := DoGroup(s2, w, Rounds(Receipt, [x]));
    [NOGROUP, s1, s2, s3]
  }

  lemma AfterThree(w: World, x: (Pre, Pend))
    ensures var s1 := NOGROUP.(gpse := map[x.0 := [x.1]]);
      var s2 := SignItem(s1, w, x.0, x.1).0;
      ThreeStates(w, x) == [NOGROUP, s1, s2, ReceiptItem(s2, w, x.0, x.1).0]
  {
    hide SignItem;
    hide ReceiptItem;
    var s1 := DoGroup(NOGROUP, w, Start(x.0, x.1));
    SweepOfOne(Sign, s1, w, x);
    SweepOfOne(Receipt, DoGroup(s1, w, Rounds(Sign, [x])), w, x);
  }

  /** What a sign round makes of the first entry. */
  lemma SignOfFirst(w: World, pre: Pre, p: Pend)
    ensures var s2 := SignItem(NOGROUP.(gpse := map[pre := [p]]), w, pre, p).0;
      && s2.cgms == map[]
      && (In(s2.gpwe, pre, p) ==> GetLast(w, pre, p.sn).Some? && pre in w.kevers && !MustDelegate(w.kevers[pre]))
      && (forall q: Pre, y | In(s2.gpwe, q, y) :: (q, y) == (pre, p))
  {
    hide GetLast;
    hide Least;
    hide Delegation;
  }

  /** The three calls are a run once the event has been found in the log. */
  lemma ThreeRun(w: World, x: (Pre, Pend))
    requires In(ThreeStates(w, x)[2].gpwe, x.0, x.1)
    ensures IsGroupRun(ThreeStates(w, x), ThreeCalls(x), [w, w, w])
  {
    hide GroupSweep;
  }

  /** The three calls in one world record the event safely, that is logged, receipted
      and, if it needs one, sealed, exactly when the guard of the sign round holds. */
  lemma RecordedSafelyIff(w: World, pre: Pre, p: Pend)
    requires var s := ThreeStates(w, (pre, p)); In(s[2].gpwe, pre, p) && (pre, p.sn) in s[3].cgms
    ensures IsGroupRun(ThreeStates(w, (pre, p)), ThreeCalls((pre, p)), [w, w, w])
    ensures ThreeStates(w, (pre, p))[3].cgms[(pre, p.sn)] == p.diger
    ensures Own(pre, p) && Cleared([w, w, w], p.diger) && WasReceipted([w, w, w], p.diger) <==> SignGuard(w, pre, p)
  {
    hide SignItem;
    hide GetLast;
    hide SealedBy;
    AfterThree(w, (pre, p));
    SignOfFirst(w, pre, p);
    hide ThreeStates;
    ThreeRun(w, (pre, p));
    OneWorld(w, [w, w, w], p.diger);
    LastIsOwn(w, pre, p.sn);
  }

  /** What was seen in a world that does not change. */
  lemma OneWorld(w: World, seen: seq<World>, e: Ev)
    requires seen != [] && forall a | 0 <= a < |seen| :: seen[a] == w
    ensures WasReceipted(seen, e) <==> FullyReceipted(w, e)
    ensures WasSealed(seen, e) <==> SealedBy(w, e)
    ensures Cleared(seen, e) <==> GetLast(w, e.pre, e.sn) == Some(e) && (SealedBy(w, e) || LoggedUndelegated(w, e))
  {
    hide GetLast;
    hide SealedBy;
    assert seen[0] == w;
  }

  /** The calls when the event is found to be delegated: its seal is looked for too. */
  function FourCalls(x: (Pre, Pend)): seq<Call> {
    [Start(x.0, x.1), Rounds(Sign, [x]), Rounds(Approve, [x]), Rounds(Receipt, [x])]
  }

  function FourStates(w: World, x: (Pre, Pend)): seq<Group> {
    var s1 := DoGroup(NOGROUP, w, Start(x.0, x.1));
    var s2 := DoGroup(s1, w, Rounds(Sign, [x]));
    var s3 := DoGroup(s2, w, Rounds(Approve, [x]));
    var s4 := DoGroup(s3, w, Rounds(Receipt, [x]));
    [NOGROUP, s1, s2, s3, s4]
  }

  lemma AfterFour(w: World, x: (Pre, Pend))
    ensures var s1 := NOGROUP.(gpse := map[x.0 := [x.1]]);
      var s2 := SignItem(s1, w, x.0, x.1).0; var s3 := ApproveItem(s2, w, x.0, x.1).0;
      FourStates(w, x) == [NOGROUP, s1, s2, s3, ReceiptItem(s3, w, x.0, x.1).0]
  {
    hide SignItem;
    hide ApproveItem;
    hide ReceiptItem;
    var s1 := DoGroup(NOGROUP, w, Start(x.0, x.1));
    var s2 := DoGroup(s1, w, Rounds(Sign, [x]));
    SweepOfOne(Sign, s1, w, x);
    SweepOfOne(Approve, s2, w, x);
    SweepOfOne(Receipt, DoGroup(s2, w, Rounds(Approve, [x])), w, x);
  }

  lemma FourRun(w: World, x: (Pre, Pend))
    requires In(FourStates(w, x)[2].gdee, x.0, x.1) && In(FourStates(w, x)[3].gpwe, x.0, x.1)
    ensures IsGroupRun(FourStates(w, x), FourCalls(x), [w, w, w, w])
  {
    hide GroupSweep;
  }

  /** What a sign round makes of the first entry when it has to be delegated. */
  lemma SignOfFirstDelegated(w: World, pre: Pre, p: Pend)
    ensures var s2 := SignItem(NOGROUP.(gpse := map[pre := [p]]), w, pre, p).0;
      && s2.cgms == map[] && s2.gpwe.Keys <= {pre}
      && (In(s2.gdee, pre, p) ==> GetLast(w, pre, p.sn).Some? && pre in w.kevers && MustDelegate(w.kevers[pre])
                                  && s2.gpwe == map[])
  {
    hide GetLast;
    hide Least;
    hide Delegation;
  }

  /** What an approve round makes of it when it comes to be asked for receipts. */
  lemma ApproveOfFirst(s: Group, w: World, pre: Pre, p: Pend)
    requires s.gpwe == map[] && In(ApproveItem(s, w, pre, p).0.gpwe, pre, p)
    ensures pre in w.kevers && w.kevers[pre].delpre.Some? && Sealing(w, w.kevers[pre].delpre.value, p.diger).Some?
    ensures ApproveItem(s, w, pre, p).0.cgms == s.cgms
  {
    hide Sealing;
    hide Complete;
  }

  /** What a receipt round records of it. */
  lemma ReceiptOfFirst(s: Group, w: World, pre: Pre, p: Pend)
    requires s.cgms == map[] && (pre, p.sn) in ReceiptItem(s, w, pre, p).0.cgms
    ensures ReceiptItem(s, w, pre, p).0.cgms[(pre, p.sn)] == p.diger
    ensures Own(pre, p) ==> FullyReceipted(w, p.diger)
  {
    hide Wigs;
  }

  /** With a seal to be found on the way, by a member that is not elected, the calls in
      one world record the event safely exactly when the guard of the sign round holds. */
  lemma SealedSafelyIff(w: World, pre: Pre, p: Pend)
    requires var s := FourStates(w, (pre, p));
      In(s[2].gdee, pre, p) && In(s[3].gpwe, pre, p) && (pre, p.sn) in s[4].cgms
    ensures var seen := [w, w, w, w];
      && IsGroupRun(FourStates(w, (pre, p)), FourCalls((pre, p)), seen)
      && FourStates(w, (pre, p))[4].cgms[(pre, p.sn)] == p.diger
      && (Own(pre, p) && Cleared(seen, p.diger) && WasReceipted(seen, p.diger) <==> SignGuard(w, pre, p))
  {
    hide SignItem;
    hide ApproveItem;
    hide ReceiptItem;
    hide GetLast;
    hide Sealing;
    hide IsGroupRun;
    hide Cleared;
    hide WasReceipted;
    var x, seen := (pre, p), [w, w, w, w];
    FourRun(w, x);
    AfterFour(w, x);
    var s := FourStates(w, x);
    hide FourStates;
    SignOfFirstDelegated(w, pre, p);
    ApproveOfFirst(s[2], w, pre, p);
    ReceiptOfFirst(s[3], w, pre, p);
    OneWorld(w, seen, p.diger);
    LastIsOwn(w, pre, p.sn);
  }

  /** A group of one member, which has signed the event its log holds at number sn,
      with no witnesses. */
  predicate Alone(w: World, pre: Pre, sn: nat) {
    && pre in w.habs && pre in w.kevers && w.kevers[pre].keys == [w.habs[pre].mkey] && w.kevers[pre].wits == 0
    && GetLast(w, pre, sn).Some? && GetLast(w, pre, sn).value in w.sigs && w.sigs[GetLast(w, pre, sn).value] == [0]
  }

  /** Such a group goes on to its witnesses, and is recorded at once. */
  lemma AloneIsRecorded(w: World, pre: Pre, d: Ev)
    requires Alone(w, pre, d.sn) && !MustDelegate(w.kevers[pre]) && d.pre == pre && Wigs(w, d) == {}
    ensures var x := (pre, Pend(d.sn, d)); var s := ThreeStates(w, x);
      && s[2].gpwe == map[pre := [x.1]] && s[3].cgms == map[(pre, d.sn) := d]
      && IsGroupRun(s, ThreeCalls(x), [w, w, w])
  {
    hide GetLast;
    var x := (pre, Pend(d.sn, d));
    var s1 := NOGROUP.(gpse := map[pre := [x.1]]);
    var s2 := SignItem(s1, w, pre, x.1).0;
    assert s2.gpwe == map[pre := [x.1]] && s2.cgms == map[];
    AfterThree(w, x);
    assert ReceiptItem(s2, w, pre, x.1).0.cgms == map[(pre, d.sn) := d];
    hide ThreeStates;
    ThreeRun(w, x);
  }

  /** With one event started, and the log never holding another at its number, a
      delegated inception or rotation is recorded unsealed when an interaction event
      follows it in the log before its signatures are looked at: the way is chosen
      by the latest event. */
  lemma InteractionHidesDelegation(w: World, pre: Pre, d: Ev)
    requires Alone(w, pre, d.sn) && GetLast(w, pre, d.sn) == Some(d) && d.pre == pre && Wigs(w, d) == {}
    requires NeedsSeal(w, d) && !w.kevers[pre].last.delegated && !SealedBy(w, d)
    ensures var x := (pre, Pend(d.sn, d)); var s := ThreeStates(w, x); var seen := [w, w, w];
      && IsGroupRun(s, ThreeCalls(x), seen) && AlwaysAgrees(seen, pre, x.1)
      && s[3].cgms == map[(pre, d.sn) := d] && !WasSealed(seen, d) && !Cleared(seen, d)
  {
    hide ThreeStates;
    hide GetLast;
    hide SealedBy;
    AloneIsRecorded(w, pre, d);
    OneWorld(w, [w, w, w], d);
  }

  /** A world where that happens: prefix 1 with delegator 2, its delegated inception and
      an interaction event in the log, and no log of the delegator. */
  lemma HidingWorld()
    ensures var d := Ev(1, 0, 7, true);
      var w := World(map[1 := Hab(true, 9)], map[1 := Kever([9], 0, 0, Some(2), Ev(1, 1, 8, false))],
                     map[1 := [Entry(7, true, {}), Entry(8, false, {})]], map[], map[d := [0]], {}, {}, {});
      var s := ThreeStates(w, (1, Pend(0, d)));
      s[3].cgms == map[(1, 0) := d] && !Cleared([w, w, w], d)
  {
    var d := Ev(1, 0, 7, true);
    var w := World(map[1 := Hab(true, 9)], map[1 := Kever([9], 0, 0, Some(2), Ev(1, 1, 8, false))],
                   map[1 := [Entry(7, true, {}), Entry(8, false, {})]], map[], map[d := [0]], {}, {}, {});
    assert GetLast(w, 1, 0) == Some(d);
    InteractionHidesDelegation(w, 1, d);
  }

  /** With one event started, an event is recorded that no log ever held: the log holds
      another at its number, and no receipts are asked for. */
  lemma OtherEventRecorded(w: World, pre: Pre, d: Ev)
    requires Alone(w, pre, d.sn) && GetLast(w, pre, d.sn) != Some(d) && d.pre == pre && Wigs(w, d) == {}
    requires w.kevers[pre].delpre.None?
    ensures var x := (pre, Pend(d.sn, d)); var s := ThreeStates(w, x); var seen := [w, w, w];
      IsGroupRun(s, ThreeCalls(x), seen) && s[3].cgms == map[(pre, d.sn) := d] && !WasLogged(seen, d)
  {
    hide ThreeStates;
    hide GetLast;
    AloneIsRecorded(w, pre, d);
    var seen := [w, w, w];
    assert forall a | 0 <= a < 3 :: seen[a] == w;
  }

  /** With two events of a group started, the one that has its signatures takes the
      other with it: that one is in no escrow any more and was not recorded. */
  lemma SecondPendingLost(w: World, pre: Pre, p: Pend, q: Pend)
    requires Alone(w, pre, p.sn) && w.kevers[pre].delpre.None? && p != q && GetLast(w, pre, q.sn).None?
    ensures var s1 := DoGroup(NOGROUP, w, Start(pre, p)); var s2 := DoGroup(s1, w, Start(pre, q));
      var order := [(pre, p), (pre, q)]; var s3 := DoGroup(s2, w, Rounds(Sign, order));
      && IsGroupRun([NOGROUP, s1, s2, s3], [Start(pre, p), Start(pre, q), Rounds(Sign, order)], [w, w, w])
      && In(s2.gpse, pre, q) && In(s3.gpwe, pre, p) && s3.cgms == map[]
      && forall round :: !In(Pending(s3, round), pre, q)
  {
    hide GetLast;
    var s1 := DoGroup(NOGROUP, w, Start(pre, p));
    var s2 := DoGroup(s1, w, Start(pre, q));
    assert s1.gpse == map[pre := [p]] && q !in [p] && [p] + [q] == [p, q];
    assert s2.gpse == map[pre := [p, q]];
    var order := [(pre, p), (pre, q)];
    assert GroupSweep(Sign, s2, w, order, 0) == (s2, Pass);
    assert GroupSweep(Sign, s2, w, order, 1) == SignItem(s2, w, pre, p);
    var one := SignItem(s2, w, pre, p);
    assert one.0.gpwe == map[pre := [p]] && one.1 == Pass;
    assert SignItem(one.0, w, pre, q) == (one.0, Pass);
    assert GroupSweep(Sign, s2, w, order, 2) == (one.0, Pass);
    var s3 := DoGroup(s2, w, Rounds(Sign, order));
    assert s3 == one.0;
    forall round ensures !In(Pending(s3, round), pre, q) {
      match round case Sign => case Approve => case Receipt =>
    }
  }
}
