/** What an adjudication of app/watching.py cues and what the cue lists, in terms of
    the numbers and digests that watchers have reported. */
module WatchingVerdicts {
  import opened Collections
  import opened Results
  import opened Watching

  /** The exceptions: a threshold above the number of watchers, no local key state, or a
      report on another prefix. */
  lemma FailsWhen(watchers: set<nat>, toad: Option<int>, mine: Option<Report>, reports: map<nat, Report>)
    ensures Verdict(watchers, toad, mine, reports).Failed? <==>
      || (toad.Some? && toad.value > |watchers|) || mine.None?
      || exists w | w in watchers :: w in reports && reports[w].pre != mine.value.pre
    ensures Verdict(watchers, toad, mine, reports).Failed? ==>
      Verdict(watchers, toad, mine, reports).error
        == if mine.None? && !(toad.Some? && toad.value > |watchers|) then KeyError else ValueError
  {
    hide Crowd;
    hide CrowdDigs;
  }

  /** No watcher is duplicitous, and at least one and enough are ahead, with one digest. */
  predicate Warranted(watchers: set<nat>, toad: Option<int>, mine: Report, reports: map<nat, Report>) {
    var ahead := AheadOf(watchers, mine, reports);
    NoneDuplicitous(watchers, mine, reports) && ahead != {} && Enough(ahead, watchers, toad) && OneDig(ahead, reports)
  }

  /** Exactly then an update is cued. */
  lemma UpdateWarranted(watchers: set<nat>, toad: Option<int>, mine: Option<Report>, reports: map<nat, Report>)
    requires !Verdict(watchers, toad, mine, reports).Failed?
    ensures mine.Some?
    ensures Verdict(watchers, toad, mine, reports) == Update <==> Warranted(watchers, toad, mine.value, reports)
  {
    FailsWhen(watchers, toad, mine, reports);
    hide Verdict;
    UpdateMeans(watchers, toad, mine.value, reports);
    hide NoneDuplicitous;
    hide OneDig;
    hide Enough;
    hide AheadOf;
  }

  /** When nothing fails: duplicity is cued for a watcher with another event at the local
      number, or for two later events; an update when that is not so and enough
      watchers are ahead; nothing when some but not enough are; lagging when none is
      ahead and some are behind; and consistency when all that have reported have the
      local event. */
  lemma VerdictMeans(watchers: set<nat>, toad: Option<int>, mine: Report, reports: map<nat, Report>)
    requires !Verdict(watchers, toad, Some(mine), reports).Failed?
    ensures var kind, ahead := Verdict(watchers, toad, Some(mine), reports), AheadOf(watchers, mine, reports);
      var clean := NoneDuplicitous(watchers, mine, reports) && OneDig(ahead, reports);
      && (kind == Duplicity <==> !clean)
      && (kind == Update <==> clean && ahead != {} && Enough(ahead, watchers, toad))
      && (kind == Nothing <==> clean && ahead != {} && !Enough(ahead, watchers, toad))
      && (kind == Lagging <==>
            clean && ahead == {} && exists w | w in watchers :: w in reports && reports[w].sn < mine.sn)
      && (kind == Consistent <==>
            forall w | w in watchers && w in reports :: reports[w].sn == mine.sn && reports[w].dig == mine.dig)
  {
    hide Crowd;
    hide CrowdDigs;
    var ahead, behind := AheadOf(watchers, mine, reports), BehindOf(watchers, mine, reports);
    CrowdsAre(watchers, mine, reports);
    DigsAreOne(watchers, mine, reports);
    SubsetSize(ahead, watchers);
    WholeSubset(ahead, watchers);
    Stands(watchers, mine, reports);
    hide OneDig;
    hide NoneDuplicitous;
    hide Foreign;
    hide AheadOf;
    hide BehindOf;
  }

  lemma Stands(watchers: set<nat>, mine: Report, reports: map<nat, Report>)
    ensures var ahead, behind := AheadOf(watchers, mine, reports), BehindOf(watchers, mine, reports);
      && (behind != {} <==> exists w | w in watchers :: w in reports && reports[w].sn < mine.sn)
      && (ahead == {} ==> OneDig(ahead, reports))
      && (NoneDuplicitous(watchers, mine, reports) && ahead == {} && behind == {} <==>
            forall w | w in watchers && w in reports :: reports[w].sn == mine.sn && reports[w].dig == mine.dig)
  {
    var ahead, behind := AheadOf(watchers, mine, reports), BehindOf(watchers, mine, reports);
    forall w | w in watchers && w in reports
      ensures w in ahead <==> reports[w].sn > mine.sn
      ensures w in behind <==> reports[w].sn < mine.sn
    {
    }
  }

  /** Without a threshold one watcher of three does not make an update; the two others
      report the local event. */
  lemma OneOfThree()
    ensures Verdict({1, 2, 3}, None, Some(Report(0, 3, 7)),
                    map[1 := Report(0, 4, 5), 2 := Report(0, 3, 7), 3 := Report(0, 3, 7)]) == Nothing
  {
    var mine, reports := Report(0, 3, 7), map[1 := Report(0, 4, 5), 2 := Report(0, 3, 7), 3 := Report(0, 3, 7)];
    FailsWhen({1, 2, 3}, None, Some(mine), reports);
    VerdictMeans({1, 2, 3}, None, mine, reports);
    assert AheadOf({1, 2, 3}, mine, reports) == {1};
    assert 2 !in {1} && 2 in {1, 2, 3};
  }

  /** The list has exactly these watchers, each once, as they have reported. */
  ghost predicate Itemizes(list: seq<DiffState>, crowd: set<nat>, reports: map<nat, Report>)
    requires crowd <= reports.Keys
  {
    && |list| == |crowd|
    && (forall s | s in list :: s.wit in crowd && s.sn == reports[s.wit].sn && s.dig == reports[s.wit].dig)
    && (forall w | w in crowd :: exists s :: s in list && s.wit == w)
  }

  lemma ThoseItemize(order: seq<nat>, mine: Report, reports: map<nat, Report>, stage: Stage)
    requires Distinct(order) && States(order, mine, reports).Ok?
    ensures Crowd(ToSet(order), stage, mine, reports) <= reports.Keys
    ensures
      Itemizes(Those(States(order, mine, reports).value, stage), Crowd(ToSet(order), stage, mine, reports), reports)
  {
    hide States;
    hide Those;
    hide Compare;
    StatesMatch(order, mine, reports, stage);
    StatesAre(order, mine, reports, stage);
    var those, crowd := Those(States(order, mine, reports).value, stage), Crowd(ToSet(order), stage, mine, reports);
    forall w | w in crowd ensures exists s :: s in those && s.wit == w {
      assert DiffState(w, stage, reports[w].sn, reports[w].dig) in those;
    }
  }

  /** What a cue lists: for duplicity the watchers with another event at the local number,
      or if there are none those that are ahead; for an update those that are ahead,
      and the number of one of them; for lagging those that are behind; for
      consistency all that have reported. */
  lemma CueLists(order: seq<nat>, toad: Option<int>, mine: Report, reports: map<nat, Report>, pick: nat)
    requires Distinct(order) && Adjudicate(order, toad, Some(mine), reports, pick).Ok?
    ensures var watchers := ToSet(order);
      var dups, ahead := DuplicitousOf(watchers, mine, reports), AheadOf(watchers, mine, reports);
      match Adjudicate(order, toad, Some(mine), reports, pick).value
      case NoCue => true
      case KeyStateDuplicitous(list) => Itemizes(list, if dups != {} then dups else ahead, reports)
      case KeyStateUpdate(sn, list) => Itemizes(list, ahead, reports) && exists s :: s in list && s.sn == sn
      case KeyStateLagging(list) => Itemizes(list, BehindOf(watchers, mine, reports), reports)
      case KeyStateConsistent(list) => Itemizes(list, watchers * reports.Keys, reports)
  {
    hide States;
    hide Those;
    hide Compare;
    hide Digs;
    hide Itemizes;
    hide Crowd;
    hide ToSet;
    hide Distinct;
    StatesFail(order, mine, reports);
    var states := States(order, mine, reports).value;
    ThoseItemize(order, mine, reports, Duplicitous);
    ThoseItemize(order, mine, reports, Ahead);
    ThoseItemize(order, mine, reports, Behind);
    ThoseItemize(order, mine, reports, Even);
    CrowdsAre(ToSet(order), mine, reports);
    hide Foreign;
    NoCrowd(Those(states, Duplicitous), DuplicitousOf(ToSet(order), mine, reports), reports);
    hide DuplicitousOf;
    hide AheadOf;
    hide BehindOf;
    var cue := Adjudicate(order, toad, Some(mine), reports, pick).value;
    if cue.KeyStateUpdate? {
      var ahds := Those(states, Ahead);
      assert ahds[pick % |ahds|] in ahds;
    } else if cue.KeyStateConsistent? {
      OnlyEven(order, mine, reports);
    }
  }

  lemma NoCrowd(list: seq<DiffState>, crowd: set<nat>, reports: map<nat, Report>)
    requires crowd <= reports.Keys && Itemizes(list, crowd, reports)
    ensures |list| == 0 <==> crowd == {}
  {
  }

  /** With nobody elsewhere every state is even. */
  lemma {:induction false} OnlyEven(order: seq<nat>, mine: Report, reports: map<nat, Report>)
    requires States(order, mine, reports).Ok?
    requires var states := States(order, mine, reports).value;
      Those(states, Duplicitous) == [] && Those(states, Ahead) == [] && Those(states, Behind) == []
    ensures Those(States(order, mine, reports).value, Even) == States(order, mine, reports).value
    ensures Crowd(ToSet(order), Even, mine, reports) == ToSet(order) * reports.Keys
  {
    hide Compare;
    hide Reports;
    EvenStates(States(order, mine, reports).value);
    forall w | w in ToSet(order) * reports.Keys ensures Reports(w, Even, mine, reports) {
      StandsSomewhere(order, w, mine, reports);
      var stage :| Reports(w, stage, mine, reports);
      StatesAre(order, mine, reports, stage);
      assert stage == Duplicitous || stage == Ahead || stage == Behind || stage == Even;
      assert DiffState(w, stage, reports[w].sn, reports[w].dig) in Those(States(order, mine, reports).value, stage);
    }
    forall w | w in Crowd(ToSet(order), Even, mine, reports) ensures w in reports {
      EvenReported(w, mine, reports);
    }
  }

  lemma EvenReported(w: nat, mine: Report, reports: map<nat, Report>)
    requires Reports(w, Even, mine, reports)
    ensures w in reports
  {
  }

  lemma {:induction false} EvenStates(states: seq<DiffState>)
    requires Those(states, Duplicitous) == [] && Those(states, Ahead) == [] && Those(states, Behind) == []
    ensures Those(states, Even) == states
  {
    if states == [] {
    } else {
      EvenStates(states[..|states| - 1]);
      assert states == states[..|states| - 1] + [states[|states| - 1]];
    }
  }

  lemma StandsSomewhere(order: seq<nat>, w: nat, mine: Report, reports: map<nat, Report>)
    requires States(order, mine, reports).Ok? && w in order && w in reports
    ensures exists stage :: Reports(w, stage, mine, reports)
  {
    StatesFail(order, mine, reports);
    assert w in ToSet(order);
    assert Reports(w, Compare(w, mine, reports[w]).value.state, mine, reports);
  }
}
