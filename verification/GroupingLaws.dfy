/** What the escrows of app/grouping.py promise over every run: a group event is
    recorded as complete only after it was in the log, fully witnessed and, when
    it is a delegated establishment event, sealed, whichever way it went. */
module GroupingLaws {
  import opened Results
  import opened Delegating
  import opened DelegatingLaws
  import opened Grouping

  ghost predicate WasLogged(seen: seq<World>, e: Ev) {
    exists a | 0 <= a < |seen| :: GetLast(seen[a], e.pre, e.sn) == Some(e)
  }

  ghost predicate WasReceipted(seen: seq<World>, e: Ev) {
    exists b | 0 <= b < |seen| :: FullyReceipted(seen[b], e)
  }

  ghost predicate WasSealed(seen: seq<World>, e: Ev) {
    exists c | 0 <= c < |seen| :: SealedBy(seen[c], e)
  }

  /** The event is in its log and is no delegated establishment event. */
  predicate LoggedUndelegated(w: World, e: Ev) {
    GetLast(w, e.pre, e.sn) == Some(e) && e.pre in w.kevers && !(w.kevers[e.pre].delpre.Some? && e.delegated)
  }

  /** The event was seen in its log, and it was seen sealed or to need no seal. */
  ghost predicate Cleared(seen: seq<World>, e: Ev) {
    WasLogged(seen, e) && (WasSealed(seen, e) || exists a | 0 <= a < |seen| :: LoggedUndelegated(seen[a], e))
  }

  /** p is what its digest says. */
  predicate Own(pre: Pre, p: Pend) { p.diger.pre == pre && p.diger.sn == p.sn }

  /** What was seen before an entry got where it is. */
  ghost predicate Warranted(s: Group, seen: seq<World>) {
    && Justified(s.swain, seen)
    && (forall pre: Pre, p | In(s.gdee, pre, p) :: Own(pre, p) && WasLogged(seen, p.diger))
    && (forall pre: Pre, p | In(s.gpwe, pre, p) :: Own(pre, p) && Cleared(seen, p.diger))
    && (forall k | k in s.cgms ::
          k == (s.cgms[k].pre, s.cgms[k].sn) && Cleared(seen, s.cgms[k]) && WasReceipted(seen, s.cgms[k]))
  }

  lemma ClearedLater(seen: seq<World>, w: World, e: Ev)
    ensures WasLogged(seen, e) ==> WasLogged(seen + [w], e)
    ensures WasReceipted(seen, e) ==> WasReceipted(seen + [w], e)
    ensures WasSealed(seen, e) ==> WasSealed(seen + [w], e)
    ensures Cleared(seen, e) ==> Cleared(seen + [w], e)
  {
    var more := seen + [w];
    assert forall a | 0 <= a < |seen| :: more[a] == seen[a];
  }

  lemma SeenNow(seen: seq<World>, w: World, e: Ev)
    ensures GetLast(w, e.pre, e.sn) == Some(e) ==> WasLogged(seen + [w], e)
    ensures FullyReceipted(w, e) ==> WasReceipted(seen + [w], e)
    ensures SealedBy(w, e) ==> WasSealed(seen + [w], e)
    ensures LoggedUndelegated(w, e) ==> Cleared(seen + [w], e)
  {
    assert (seen + [w])[|seen|] == w;
  }

  lemma JustifiedLater(s: State, seen: seq<World>, w: World)
    requires Justified(s, seen)
    ensures Justified(s, seen + [w])
  {
    hide At;
    hide Reached;
    forall k: nat, e | At(s, k, e) ensures Reached(k, seen + [w], e) { ReachedLater(k, seen, w, e); }
    forall e | e in s.sent ensures Reached(1, seen + [w], e) { ReachedLater(1, seen, w, e); }
  }

  lemma WarrantedLater(s: Group, seen: seq<World>, w: World)
    requires Warranted(s, seen)
    ensures Warranted(s, seen + [w])
  {
    hide In;
    hide Own;
    hide Justified;
    hide Cleared;
    hide WasLogged;
    hide WasReceipted;
    JustifiedLater(s.swain, seen, w);
    forall e ensures (WasLogged(seen, e) ==> WasLogged(seen + [w], e)) && (Cleared(seen, e) ==> Cleared(seen + [w], e))
      && (WasReceipted(seen, e) ==> WasReceipted(seen + [w], e))
    {
      ClearedLater(seen, w, e);
    }
  }

  lemma SubmitJustified(s: State, seen: seq<World>, w: World, pre: Pre, sn: Option<nat>, proxy: bool)
    requires Justified(s, seen + [w])
    ensures Justified(Delegation(s, w, pre, sn, proxy).0, seen + [w])
  {
    hide Reached;
    hide Reason;
    hide Delegation;
    SubmitMoves(s, w, pre, sn, proxy);
    var s' := Delegation(s, w, pre, sn, proxy).0;
    forall k: nat, e | At(s', k, e) ensures Reached(k, seen + [w], e) {
      if !At(s, k, e) { ReachedNow(0, seen, w, e); }
    }
  }

  /** A delegated inception or rotation of a group with a delegator. */
  predicate NeedsSeal(w: World, e: Ev) {
    e.pre in w.kevers && w.kevers[e.pre].delpre.Some? && e.delegated
  }

  /** The guard of a sign round: what the log holds at the number of the entry is the
      event of its digest, and when that event needs a seal the way is chosen for it
      (by the latest event of the log), or the seal is there already. */
  predicate SignGuard(w: World, pre: Pre, p: Pend) {
    pre in w.kevers && GetLast(w, pre, p.sn).Some? ==>
      && GetLast(w, pre, p.sn) == Some(p.diger)
      && (NeedsSeal(w, p.diger) ==> w.kevers[pre].last.delegated || SealedBy(w, p.diger))
  }

  /** The member of the group that is its first. */
  predicate Elected(w: World, pre: Pre) {
    pre in w.habs && pre in w.kevers && w.kevers[pre].keys != [] && w.habs[pre].mkey == w.kevers[pre].keys[0]
  }

  /** The guard of an approve round, for the elected member alone: when the Anchorer is
      complete at the latest number of the log, it is complete for the entry itself. */
  predicate ApproveGuard(cdel: map<(Pre, nat), Ev>, w: World, pre: Pre, p: Pend) {
    Elected(w, pre) && (pre, w.kevers[pre].last.sn) in cdel ==>
      (pre, p.sn) in cdel && cdel[(pre, p.sn)] == p.diger
  }

  /** A receipt round needs no guard. */
  predicate Guard(round: Round, cdel: map<(Pre, nat), Ev>, w: World, pre: Pre, p: Pend) {
    match round
    case Sign => SignGuard(w, pre, p)
    case Approve => ApproveGuard(cdel, w, pre, p)
    case Receipt => true
  }

  /** The guards of the entries a call goes through. */
  predicate CallGuarded(s: Group, w: World, call: Call) {
    call.Rounds? ==>
      forall i | 0 <= i < |call.order| :: Guard(call.round, s.swain.cdel, w, call.order[i].0, call.order[i].1)
  }

  ghost predicate Guarded(states: seq<Group>, calls: seq<Call>, worlds: seq<World>)
    requires IsGroupRun(states, calls, worlds)
  {
    forall i | 0 <= i < |calls| :: CallGuarded(states[i], worlds[i], calls[i])
  }

  /** What lets an entry take part in a round. */
  ghost predicate Qualified(round: Round, seen: seq<World>, pre: Pre, p: Pend) {
    match round
    case Sign => true
    case Approve => Own(pre, p) && WasLogged(seen, p.diger)
    case Receipt => Own(pre, p) && Cleared(seen, p.diger)
  }

  lemma AddIn(m: Escrow, pre: Pre, p: Pend, pre': Pre, p': Pend)
    ensures In(Add(m, pre, p), pre', p') <==> In(m, pre', p') || (pre', p') == (pre, p)
    ensures In(m - {pre}, pre', p') ==> In(m, pre', p')
  {
  }

  /** What a sign round does to the tables of later rounds. */
  lemma SignIs(s: Group, w: World, pre: Pre, p: Pend)
    ensures var s' := SignItem(s, w, pre, p).0;
      && s'.cgms == s.cgms
      && (s'.swain == s.swain || s'.swain == Delegation(s.swain, w, pre, Some(p.sn), false).0)
      && (s'.gdee == s.gdee
          || (s'.gdee == Add(s.gdee, pre, p) && pre in w.kevers && GetLast(w, pre, p.sn).Some?))
      && (s'.gpwe == s.gpwe
          || (s'.gpwe == Add(s.gpwe, pre, p) && pre in w.kevers && GetLast(w, pre, p.sn).Some?
              && !MustDelegate(w.kevers[pre])))
  {
    hide Add;
    hide Delegation;
    hide Least;
    hide GetLast;
  }

  lemma SignWarranted(s: Group, seen: seq<World>, w: World, pre: Pre, p: Pend)
    requires Warranted(s, seen + [w])
    requires SignGuard(w, pre, p)
    ensures Warranted(SignItem(s, w, pre, p).0, seen + [w])
  {
    hide In;
    hide Add;
    hide Justified;
    hide Cleared;
    hide WasLogged;
    hide WasReceipted;
    hide Delegation;
    hide SignItem;
    hide SealedBy;
    var s' := SignItem(s, w, pre, p).0;
    SignIs(s, w, pre, p);
    SeenNow(seen, w, p.diger);
    LastIsOwn(w, pre, p.sn);
    hide GetLast;
    if GetLast(w, pre, p.sn) == Some(p.diger) && SealedBy(w, p.diger) { SealClears(seen, w, p.diger); }
    SubmitJustified(s.swain, seen, w, pre, Some(p.sn), false);
    forall pre': Pre, p' | In(s'.gdee, pre', p') ensures Own(pre', p') && WasLogged(seen + [w], p'.diger) {
      AddIn(s.gdee, pre, p, pre', p');
    }
    forall pre': Pre, p' | In(s'.gpwe, pre', p') ensures Own(pre', p') && Cleared(seen + [w], p'.diger) {
      AddIn(s.gpwe, pre, p, pre', p');
    }
  }

  lemma LastIsOwn(w: World, pre: Pre, sn: nat)
    ensures var r := GetLast(w, pre, sn); r.Some? ==> r.value.pre == pre && r.value.sn == sn
  {
  }

  /** In all these worlds the log of the group holds nothing at the number of a
      pending event, or that very event. */
  ghost predicate AlwaysAgrees(seen: seq<World>, pre: Pre, p: Pend) {
    forall a | 0 <= a < |seen| :: GetLast(seen[a], pre, p.sn).None? || GetLast(seen[a], pre, p.sn) == Some(p.diger)
  }

  /** A pending event that the Anchorer has recorded was logged, receipted and sealed
      on the way there. */
  lemma ElectedDone(s: State, seen: seq<World>, pre: Pre, p: Pend)
    requires Justified(s, seen) && (pre, p.sn) in s.cdel && s.cdel[(pre, p.sn)] == p.diger
    ensures Own(pre, p) && Cleared(seen, p.diger) && WasReceipted(seen, p.diger)
  {
    hide SealedBy;
    hide FullyReceipted;
    hide GetLast;
    var e := p.diger;
    assert At(s, 3, e);
    assert seen[..|seen|] == seen;
    var d := Peel(3, seen, |seen|, e);
    var c := Peel(2, seen, d, e);
    var b := Peel(1, seen, c, e);
    var a := Peel(0, seen, b, e);
    assert GetLast(seen[a], pre, p.sn) == Some(e);
    assert FullyReceipted(seen[b], e) && SealedBy(seen[c], e);
  }

  /** While the log holds nothing else at the number of a pending event, what the
      Anchorer has recorded there is that event: then to ask at the latest number is
      safe as long as that is the number of the pending event. */
  lemma LatestIsEnough(s: State, seen: seq<World>, w: World, pre: Pre, p: Pend)
    requires Justified(s, seen) && AlwaysAgrees(seen, pre, p)
    requires pre in w.kevers ==> w.kevers[pre].last.sn == p.sn
    ensures ApproveGuard(s.cdel, w, pre, p)
  {
    hide SealedBy;
    hide FullyReceipted;
    hide GetLast;
    if (pre, p.sn) in s.cdel {
      var e := s.cdel[(pre, p.sn)];
      assert At(s, 3, e);
      assert seen[..|seen|] == seen;
      var d := Peel(3, seen, |seen|, e);
      var c := Peel(2, seen, d, e);
      var b := Peel(1, seen, c, e);
      var a := Peel(0, seen, b, e);
      assert GetLast(seen[a], pre, p.sn) == Some(e);
    }
  }

  /** What an approve round does: nothing, or it records the entry on the word of the
      Anchorer, or it finds the seal and hands the entry on. */
  lemma ApproveIs(s: Group, w: World, pre: Pre, p: Pend)
    ensures var s' := ApproveItem(s, w, pre, p).0;
      || s' == s
      || (s' == s.(gdee := s.gdee - {pre}, cgms := Put(s.cgms, pre, p))
          && Elected(w, pre) && (pre, w.kevers[pre].last.sn) in s.swain.cdel)
      || (s' == s.(swain := s.swain.(aess := s'.swain.aess), gdee := s.gdee - {pre}, gpwe := Add(s.gpwe, pre, p))
          && (p.diger.pre == pre ==> SealedBy(w, p.diger)))
  {
    hide Add;
    hide Put;
    hide Sealing;
  }

  lemma ApproveWarranted(s: Group, seen: seq<World>, w: World, pre: Pre, p: Pend)
    requires Warranted(s, seen + [w]) && Qualified(Approve, seen + [w], pre, p) && ApproveGuard(s.swain.cdel, w, pre, p)
    ensures Warranted(ApproveItem(s, w, pre, p).0, seen + [w])
  {
    hide In;
    hide Add;
    hide Justified;
    hide Cleared;
    hide WasLogged;
    hide WasReceipted;
    hide SealedBy;
    hide ApproveItem;
    var s' := ApproveItem(s, w, pre, p).0;
    ApproveIs(s, w, pre, p);
    SealSame(s.swain, s'.swain, seen + [w]);
    if Elected(w, pre) && (pre, w.kevers[pre].last.sn) in s.swain.cdel { ElectedDone(s.swain, seen + [w], pre, p); }
    if SealedBy(w, p.diger) { SealClears(seen, w, p.diger); }
    forall pre': Pre, p' | In(s'.gdee, pre', p') ensures Own(pre', p') && WasLogged(seen + [w], p'.diger) {
      AddIn(s.gdee, pre, p, pre', p');
    }
    forall pre': Pre, p' | In(s'.gpwe, pre', p') ensures Own(pre', p') && Cleared(seen + [w], p'.diger) {
      AddIn(s.gpwe, pre, p, pre', p');
    }
  }

  lemma SealSame(s: State, s': State, seen: seq<World>)
    requires s' == s.(aess := s'.aess) && Justified(s, seen)
    ensures Justified(s', seen)
  {
    hide Reached;
  }

  lemma SealClears(seen: seq<World>, w: World, e: Ev)
    requires WasLogged(seen + [w], e) && SealedBy(w, e)
    ensures Cleared(seen + [w], e)
  {
    SeenNow(seen, w, e);
  }

  lemma ReceiptWarranted(s: Group, seen: seq<World>, w: World, pre: Pre, p: Pend)
    requires Warranted(s, seen + [w]) && Qualified(Receipt, seen + [w], pre, p)
    ensures Warranted(ReceiptItem(s, w, pre, p).0, seen + [w])
  {
    hide In;
    hide Justified;
    hide Cleared;
    hide WasLogged;
    hide WasReceipted;
    hide Wigs;
    var s' := ReceiptItem(s, w, pre, p).0;
    SeenNow(seen, w, p.diger);
    forall pre': Pre, p' | In(s'.gpwe, pre', p') ensures Own(pre', p') && Cleared(seen + [w], p'.diger) {
      AddIn(s.gpwe, pre, p, pre', p');
    }
  }

  lemma ItemWarranted(round: Round, s: Group, seen: seq<World>, w: World, pre: Pre, p: Pend)
    requires Warranted(s, seen + [w]) && Qualified(round, seen + [w], pre, p) && Guard(round, s.swain.cdel, w, pre, p)
    ensures Warranted(GroupItem(round, s, w, pre, p).0, seen + [w])
  {
    hide Warranted;
    hide SignItem;
    hide ApproveItem;
    hide ReceiptItem;
    match round
    case Sign => SignWarranted(s, seen, w, pre, p);
    case Approve => ApproveWarranted(s, seen, w, pre, p);
    case Receipt => ReceiptWarranted(s, seen, w, pre, p);
  }

  /** Only the Anchorer itself writes its record. */
  lemma ItemKeepsDone(round: Round, s: Group, w: World, pre: Pre, p: Pend)
    ensures GroupItem(round, s, w, pre, p).0.swain.cdel == s.swain.cdel
  {
    hide Add;
    hide Put;
    hide Wigs;
    hide SignItem;
    hide ApproveItem;
    hide Delegation;
    SignIs(s, w, pre, p);
    ApproveIs(s, w, pre, p);
    SubmitMoves(s.swain, w, pre, Some(p.sn), false);
  }

  lemma {:induction false} SweepWarranted(round: Round, s: Group, seen: seq<World>, w: World,
                                          order: seq<(Pre, Pend)>, n: nat)
    requires Warranted(s, seen + [w]) && n <= |order|
    requires forall i | 0 <= i < n :: Qualified(round, seen + [w], order[i].0, order[i].1)
    requires forall i | 0 <= i < n :: Guard(round, s.swain.cdel, w, order[i].0, order[i].1)
    ensures Warranted(GroupSweep(round, s, w, order, n).0, seen + [w])
    ensures GroupSweep(round, s, w, order, n).0.swain.cdel == s.swain.cdel
  {
    hide Warranted;
    hide GroupItem;
    hide Qualified;
    hide Guard;
    if n == 0 {
    } else {
      SweepWarranted(round, s, seen, w, order, n - 1);
      var s1, x := GroupSweep(round, s, w, order, n - 1).0, order[n - 1];
      ItemWarranted(round, s1, seen, w, x.0, x.1);
      ItemKeepsDone(round, s1, w, x.0, x.1);
    }
  }

  lemma ItemAdds(round: Round, s: Group, w: World, pre: Pre, p: Pend, round': Round, pre': Pre, p': Pend)
    requires In(Pending(GroupItem(round, s, w, pre, p).0, round'), pre', p')
    ensures In(Pending(s, round'), pre', p') || (pre', p') == (pre, p)
  {
    hide In;
    hide Add;
    hide Delegation;
    hide Sealing;
    hide Wigs;
    hide Complete;
    hide Least;
    AddIn(s.gdee, pre, p, pre', p');
    AddIn(s.gpwe, pre, p, pre', p');
    AddIn(s.gpse, pre, p, pre', p');
  }

  lemma {:induction false} SweepAdds(round: Round, s: Group, w: World, order: seq<(Pre, Pend)>, n: nat,
                                     round': Round, pre': Pre, p': Pend)
    requires n <= |order| && In(Pending(GroupSweep(round, s, w, order, n).0, round'), pre', p')
    ensures In(Pending(s, round'), pre', p') || (pre', p') in order[..n]
  {
    hide GroupItem;
    hide In;
    if n == 0 {
    } else {
      var (s1, r) := GroupSweep(round, s, w, order, n - 1);
      assert order[..n] == order[..n - 1] + [order[n - 1]];
      if r.Fail? {
        SweepAdds(round, s, w, order, n - 1, round', pre', p');
      } else {
        ItemAdds(round, s1, w, order[n - 1].0, order[n - 1].1, round', pre', p');
        if In(Pending(s1, round'), pre', p') {
          SweepAdds(round, s, w, order, n - 1, round', pre', p');
        }
      }
    }
  }

  /** The entry was started by a call of the run. */
  ghost predicate WasStarted(calls: seq<Call>, pre: Pre, p: Pend) {
    exists j | 0 <= j < |calls| :: calls[j] == Start(pre, p)
  }

  lemma {:induction false} OnlyStarted(states: seq<Group>, calls: seq<Call>, worlds: seq<World>, i: nat,
                                       round: Round, pre: Pre, p: Pend)
    requires IsGroupRun(states, calls, worlds) && i <= |calls| && In(Pending(states[i], round), pre, p)
    ensures WasStarted(calls, pre, p)
  {
    hide GroupSweep;
    hide In;
    hide Add;
    hide Lists;
    hide Do;
    if i == 0 {
      NothingPending(round, pre, p);
    } else {
      var s, w := states[i - 1], worlds[i - 1];
      assert states[i] == DoGroup(s, w, calls[i - 1]) && CallFits(s, calls[i - 1]);
      match calls[i - 1]
      case Start(q, x) =>
        AddIn(s.gpse, q, x, pre, p);
        if (q, x) != (pre, p) { OnlyStarted(states, calls, worlds, i - 1, round, pre, p); }
      case Rounds(r, order) =>
        SweepAdds(r, s, w, order, |order|, round, pre, p);
        OnlyStarted(states, calls, worlds, i - 1, if In(Pending(s, round), pre, p) then round else r, pre, p);
      case Swain(_) =>
        OnlyStarted(states, calls, worlds, i - 1, round, pre, p);
    }
  }

  lemma NothingPending(round: Round, pre: Pre, p: Pend)
    ensures !In(Pending(NOGROUP, round), pre, p)
  {
  }

  lemma {:induction false} RunsWarranted(states: seq<Group>, calls: seq<Call>, worlds: seq<World>, i: nat)
    requires IsGroupRun(states, calls, worlds) && Guarded(states, calls, worlds) && i <= |calls|
    ensures Warranted(states[i], worlds[..i])
  {
    hide Warranted;
    hide GroupSweep;
    hide In;
    hide Add;
    hide Lists;
    hide Do;
    if i == 0 {
      NothingWarranted();
    } else {
      var s, w, seen := states[i - 1], worlds[i - 1], worlds[..i - 1];
      RunsWarranted(states, calls, worlds, i - 1);
      WarrantedLater(s, seen, w);
      assert worlds[..i] == seen + [w];
      assert states[i] == DoGroup(s, w, calls[i - 1]) && CallFits(s, calls[i - 1]);
      match calls[i - 1]
      case Start(q, x) => StartWarranted(s, seen + [w], q, x);
      case Rounds(round, order) =>
        assert CallGuarded(s, w, calls[i - 1]);
        forall j | 0 <= j < |order| ensures Qualified(round, seen + [w], order[j].0, order[j].1) {
          QualifiedByTable(round, s, seen + [w], order[j].0, order[j].1);
        }
        SweepWarranted(round, s, seen, w, order, |order|);
      case Swain(op) => SwainWarranted(s, seen, w, op);
    }
  }

  lemma NothingWarranted()
    ensures Warranted(NOGROUP, [])
  {
  }

  lemma QualifiedByTable(round: Round, s: Group, seen: seq<World>, pre: Pre, p: Pend)
    requires Warranted(s, seen) && In(Pending(s, round), pre, p)
    ensures Qualified(round, seen, pre, p)
  {
    hide In;
    hide Justified;
  }

  lemma StartWarranted(s: Group, seen: seq<World>, pre: Pre, p: Pend)
    requires Warranted(s, seen)
    ensures Warranted(s.(gpse := Add(s.gpse, pre, p)), seen)
  {
    hide In;
    hide Add;
    hide Justified;
  }

  lemma SwainWarranted(s: Group, seen: seq<World>, w: World, op: Op)
    requires Warranted(s, seen) && Warranted(s, seen + [w])
    requires op.Process? ==> Lists(op.order, Table(s.swain, op.phase))
    ensures Warranted(s.(swain := Do(s.swain, w, op).0), seen + [w])
  {
    hide In;
    hide Justified;
    hide Do;
    hide Lists;
    hide Cleared;
    hide WasReceipted;
    DoJustified(s.swain, w, op, seen);
  }

  /** A group event is recorded as complete only after it was in the log of its group
      and all its witnesses had receipted it, and when it is a delegated inception or
      rotation, of a group with a delegator, the delegator had sealed it. */
  lemma GroupSafety(states: seq<Group>, calls: seq<Call>, worlds: seq<World>, i: nat, pre: Pre, sn: nat)
    requires IsGroupRun(states, calls, worlds) && Guarded(states, calls, worlds) && i <= |calls|
    requires (pre, sn) in states[i].cgms
    ensures var e := states[i].cgms[(pre, sn)];
      && e.pre == pre && e.sn == sn
      && (exists a | 0 <= a < i :: GetLast(worlds[a], pre, sn) == Some(e))
      && (exists b | 0 <= b < i :: FullyReceipted(worlds[b], e))
      && ((exists c | 0 <= c < i :: SealedBy(worlds[c], e))
           || exists a | 0 <= a < i :: LoggedUndelegated(worlds[a], e))
  {
    RunsWarranted(states, calls, worlds, i);
    var e := states[i].cgms[(pre, sn)];
    var seen := worlds[..i];
    assert Cleared(seen, e) && WasReceipted(seen, e);
    Recall(worlds, i, e);
  }

  /** What an answer of complete for a digest means: true, that this event was in the
      log, receipted and, when it needs a seal, sealed; an error, that another event is
      recorded at its place; false, that none is. */
  lemma GroupCompleteAnswers(states: seq<Group>, calls: seq<Call>, worlds: seq<World>, i: nat, e: Ev)
    requires IsGroupRun(states, calls, worlds) && Guarded(states, calls, worlds) && i <= |calls|
    ensures match GroupComplete(states[i], e.pre, e.sn, Some(e))
      case Ok(true) =>
        && (exists a | 0 <= a < i :: GetLast(worlds[a], e.pre, e.sn) == Some(e))
        && (exists b | 0 <= b < i :: FullyReceipted(worlds[b], e))
        && ((exists c | 0 <= c < i :: SealedBy(worlds[c], e))
             || exists a | 0 <= a < i :: LoggedUndelegated(worlds[a], e))
      case Ok(false) => forall k | k in states[i].cgms :: states[i].cgms[k] != e
      case Err(_) => forall k | k in states[i].cgms :: states[i].cgms[k] != e
  {
    hide SealedBy;
    hide FullyReceipted;
    hide GetLast;
    hide LoggedUndelegated;
    if (e.pre, e.sn) in states[i].cgms {
      GroupSafety(states, calls, worlds, i, e.pre, e.sn);
    }
    RecordsTidy(states, calls, worlds, i);
  }

  /** The records are where their event says. */
  lemma RecordsTidy(states: seq<Group>, calls: seq<Call>, worlds: seq<World>, i: nat)
    requires IsGroupRun(states, calls, worlds) && Guarded(states, calls, worlds) && i <= |calls|
    ensures forall k | k in states[i].cgms :: k == (states[i].cgms[k].pre, states[i].cgms[k].sn)
  {
    hide Justified;
    hide In;
    hide Cleared;
    hide WasReceipted;
    RunsWarranted(states, calls, worlds, i);
  }

  lemma Recall(worlds: seq<World>, i: nat, e: Ev)
    requires i <= |worlds| && Cleared(worlds[..i], e) && WasReceipted(worlds[..i], e)
    ensures exists a | 0 <= a < i :: GetLast(worlds[a], e.pre, e.sn) == Some(e)
    ensures exists b | 0 <= b < i :: FullyReceipted(worlds[b], e)
    ensures (exists c | 0 <= c < i :: SealedBy(worlds[c], e))
      || exists a | 0 <= a < i :: LoggedUndelegated(worlds[a], e)
  {
    assert forall a | 0 <= a < i :: worlds[..i][a] == worlds[a];
  }

}
