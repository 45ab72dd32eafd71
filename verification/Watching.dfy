/** app/watching.py: comparison of the key states that watchers report, what an
    adjudication makes of them, and what that does not depend on. */
module Watching {
  import opened Collections
  import opened Results

  /** A key state: whose, at which number, with which digest. */
  datatype Report = Report(pre: nat, sn: nat, dig: nat)

  datatype Stage = Even | Ahead | Behind | Duplicitous

  datatype DiffState = DiffState(wit: nat, state: Stage, sn: nat, dig: nat)

  /** diffState */
  function Compare(wit: nat, mine: Report, theirs: Report): Result<DiffState> {
    if theirs.pre != mine.pre then Err(ValueError) else
    var state :=
      if mine.sn == theirs.sn then (if mine.dig == theirs.dig then Even else Duplicitous)
      else if mine.sn > theirs.sn then Behind
      else Ahead;
    Ok(DiffState(wit, state, theirs.sn, theirs.dig))
  }

  datatype Cue =
    | NoCue
    | KeyStateDuplicitous(dups: seq<DiffState>)
    | KeyStateUpdate(sn: nat, aheads: seq<DiffState>)
    | KeyStateLagging(behind: seq<DiffState>)
    | KeyStateConsistent(states: seq<DiffState>)

  /** The states of the watchers that have reported, in the order they are gone
      through. */
  function States(order: seq<nat>, mine: Report, reports: map<nat, Report>): Result<seq<DiffState>> {
    if order == [] then Ok([]) else
    var n := |order| - 1;
    var states :- States(order[..n], mine, reports);
    if order[n] !in reports then Ok(states) else
    var state :- Compare(order[n], mine, reports[order[n]]);
    Ok(states + [state])
  }

  function Those(states: seq<DiffState>, stage: Stage): seq<DiffState> {
    if states == [] then [] else
    var s := states[|states| - 1];
    Those(states[..|states| - 1], stage) + if s.state == stage then [s] else []
  }

  function Digs(states: seq<DiffState>): set<nat> { set i | 0 <= i < |states| :: states[i].dig }

  /** The threshold, by default all of the watchers. */
  function Threshold(toad: Option<int>, size: nat): int {
    if toad.None? || toad.value == 0 then size else toad.value
  }

  /** The cue for the states; pick is the place of the one chosen at random. */
  function Judge(states: seq<DiffState>, toad: int, pick: nat): Cue {
    var dups, ahds, bhds := Those(states, Duplicitous), Those(states, Ahead), Those(states, Behind);
    if |dups| > 0 then KeyStateDuplicitous(dups)
    else if |ahds| > 0 then
      if |Digs(ahds)| > 1 then KeyStateDuplicitous(ahds)
      else if |ahds| >= toad then KeyStateUpdate(ahds[pick % |ahds|].sn, ahds)
      else NoCue
    else if |bhds| > 0 then KeyStateLagging(bhds)
    else KeyStateConsistent(states)
  }

  /** Adjudicator.adjudicate over the watchers in some order. */
  function Adjudicate(order: seq<nat>, toad: Option<int>, mine: Option<Report>, reports: map<nat, Report>, pick: nat)
    : Result<Cue>
  {
    if Threshold(toad, |order|) > |order| then Err(ValueError) else
    if mine.None? then Err(KeyError) else
    var states :- States(order, mine.value, reports);
    Ok(Judge(states, Threshold(toad, |order|), pick))
  }

  predicate Distinct(order: seq<nat>) {
    forall i, j | 0 <= i < j < |order| :: order[i] != order[j]
  }

  /** Watcher w has reported a state that compares so. */
  predicate Reports(w: nat, stage: Stage, mine: Report, reports: map<nat, Report>) {
    w in reports && Compare(w, mine, reports[w]).Ok? && Compare(w, mine, reports[w]).value.state == stage
  }

  function Crowd(watchers: set<nat>, stage: Stage, mine: Report, reports: map<nat, Report>): set<nat> {
    set w | w in watchers && Reports(w, stage, mine, reports)
  }

  function CrowdDigs(watchers: set<nat>, stage: Stage, mine: Report, reports: map<nat, Report>): set<nat> {
    set w | w in Crowd(watchers, stage, mine, reports) :: reports[w].dig
  }

  /** A watcher reports on another prefix. */
  predicate Foreign(watchers: set<nat>, mine: Report, reports: map<nat, Report>) {
    exists w | w in watchers :: w in reports && reports[w].pre != mine.pre
  }

  lemma {:induction false} CardDistinct(order: seq<nat>)
    requires Distinct(order)
    ensures |ToSet(order)| == |order|
  {
    if order == [] {
    } else {
      var n := |order| - 1;
      CardDistinct(order[..n]);
      assert ToSet(order) == ToSet(order[..n]) + {order[n]};
    }
  }

  lemma DigsGrow(states: seq<DiffState>, s: DiffState)
    ensures Digs(states + [s]) == Digs(states) + {s.dig}
  {
    assert forall i | 0 <= i < |states| :: (states + [s])[i] == states[i];
    assert (states + [s])[|states|] == s;
  }

  lemma ThoseGrow(states: seq<DiffState>, s: DiffState, stage: Stage)
    ensures Those(states + [s], stage) == if s.state == stage then Those(states, stage) + [s] else Those(states, stage)
  {
    assert (states + [s])[..|states|] == states;
  }

  /** What one more watcher adds. */
  lemma CrowdGrows(watchers: set<nat>, w: nat, stage: Stage, mine: Report, reports: map<nat, Report>)
    requires w !in watchers
    ensures var before, after := Crowd(watchers, stage, mine, reports), Crowd(watchers + {w}, stage, mine, reports);
      if Reports(w, stage, mine, reports) then
        && |after| == |before| + 1
        && CrowdDigs(watchers + {w}, stage, mine, reports)
             == CrowdDigs(watchers, stage, mine, reports) + {reports[w].dig}
      else
        after == before && CrowdDigs(watchers + {w}, stage, mine, reports) == CrowdDigs(watchers, stage, mine, reports)
  {
    hide Compare;
    var before, after := Crowd(watchers, stage, mine, reports), Crowd(watchers + {w}, stage, mine, reports);
    if Reports(w, stage, mine, reports) {
      assert after == before + {w};
    } else {
      assert after == before;
    }
  }

  lemma {:induction false} StatesFail(order: seq<nat>, mine: Report, reports: map<nat, Report>)
    ensures States(order, mine, reports).Err? <==> Foreign(ToSet(order), mine, reports)
    ensures States(order, mine, reports).Err? ==> States(order, mine, reports) == Err(ValueError)
  {
    if order == [] {
    } else {
      var n := |order| - 1;
      StatesFail(order[..n], mine, reports);
      assert ToSet(order) == ToSet(order[..n]) + {order[n]};
    }
  }

  /** The list of states is that of the watchers that have reported: each stage has
      as many as watchers compare so, with their digests. */
  lemma {:induction false} StatesMatch(order: seq<nat>, mine: Report, reports: map<nat, Report>, stage: Stage)
    requires Distinct(order) && States(order, mine, reports).Ok?
    ensures var states := States(order, mine, reports).value;
      && |Those(states, stage)| == |Crowd(ToSet(order), stage, mine, reports)|
      && Digs(Those(states, stage)) == CrowdDigs(ToSet(order), stage, mine, reports)
  {
    hide Crowd;
    hide CrowdDigs;
    hide Digs;
    hide Those;
    hide Compare;
    if order == [] {
      NobodyMatches(mine, reports, stage);
    } else {
      var n := |order| - 1;
      var w := order[n];
      StatesMatch(order[..n], mine, reports, stage);
      assert ToSet(order) == ToSet(order[..n]) + {w};
      CrowdGrows(ToSet(order[..n]), w, stage, mine, reports);
      if w in reports {
        var states, s := States(order[..n], mine, reports).value, Compare(w, mine, reports[w]).value;
        CompareKeeps(w, mine, reports[w]);
        ThoseGrow(states, s, stage);
        DigsGrow(Those(states, stage), s);
      }
    }
  }

  lemma CompareKeeps(w: nat, mine: Report, theirs: Report)
    requires Compare(w, mine, theirs).Ok?
    ensures var s := Compare(w, mine, theirs).value; s.wit == w && s.sn == theirs.sn && s.dig == theirs.dig
  {
  }

  lemma NobodyMatches(mine: Report, reports: map<nat, Report>, stage: Stage)
    ensures Those([], stage) == [] && Digs([]) == {}
    ensures Crowd(ToSet([]), stage, mine, reports) == {} && CrowdDigs(ToSet([]), stage, mine, reports) == {}
  {
  }

  /** The states at a stage are those of the watchers that stand there, each with
      the number and digest it has reported, and none is missing. */
  lemma {:induction false} StatesAre(order: seq<nat>, mine: Report, reports: map<nat, Report>, stage: Stage)
    requires States(order, mine, reports).Ok?
    ensures var those := Those(States(order, mine, reports).value, stage);
      && (forall s | s in those :: s.wit in order && Reports(s.wit, stage, mine, reports)
           && s == DiffState(s.wit, stage, reports[s.wit].sn, reports[s.wit].dig))
      && (forall w | w in order && Reports(w, stage, mine, reports) ::
            DiffState(w, stage, reports[w].sn, reports[w].dig) in those)
  {
    hide Compare;
    hide Those;
    if order == [] {
      NobodyMatches(mine, reports, stage);
    } else {
      var n := |order| - 1;
      var w := order[n];
      StatesAre(order[..n], mine, reports, stage);
      assert order == order[..n] + [w];
      if w in reports {
        var states, s := States(order[..n], mine, reports).value, Compare(w, mine, reports[w]).value;
        CompareKeeps(w, mine, reports[w]);
        ThoseGrow(states, s, stage);
      }
    }
  }

  datatype Kind = Nothing | Duplicity | Update | Lagging | Consistent | Failed(error: Error)

  function KindOf(r: Result<Cue>): Kind {
    match r
    case Err(e) => Failed(e)
    case Ok(NoCue) => Nothing
    case Ok(KeyStateDuplicitous(_)) => Duplicity
    case Ok(KeyStateUpdate(_, _)) => Update
    case Ok(KeyStateLagging(_)) => Lagging
    case Ok(KeyStateConsistent(_)) => Consistent
  }

  /** The verdict on a set of watchers, without any order. */
  function Verdict(watchers: set<nat>, toad: Option<int>, mine: Option<Report>, reports: map<nat, Report>): Kind {
    var threshold := Threshold(toad, |watchers|);
    if threshold > |watchers| then Failed(ValueError)
    else if mine.None? then Failed(KeyError)
    else if Foreign(watchers, mine.value, reports) then Failed(ValueError)
    else
      var ahead := Crowd(watchers, Ahead, mine.value, reports);
      if Crowd(watchers, Duplicitous, mine.value, reports) != {}
         || |CrowdDigs(watchers, Ahead, mine.value, reports)| > 1
      then Duplicity
      else if ahead != {} then (if |ahead| >= threshold then Update else Nothing)
      else if Crowd(watchers, Behind, mine.value, reports) != {} then Lagging else Consistent
  }

  /** The kind of the cue is the verdict on the set of watchers: neither the order
      they are gone through nor the random choice counts. */
  lemma KindIsVerdict(order: seq<nat>, toad: Option<int>, mine: Option<Report>, reports: map<nat, Report>, pick: nat)
    requires Distinct(order)
    ensures KindOf(Adjudicate(order, toad, mine, reports, pick)) == Verdict(ToSet(order), toad, mine, reports)
  {
    hide States;
    hide Those;
    hide Digs;
    hide Crowd;
    hide CrowdDigs;
    hide Foreign;
    hide ToSet;
    hide Distinct;
    CardDistinct(order);
    if mine.Some? {
      StatesFail(order, mine.value, reports);
      if States(order, mine.value, reports).Ok? {
        StatesMatch(order, mine.value, reports, Duplicitous);
        StatesMatch(order, mine.value, reports, Ahead);
        StatesMatch(order, mine.value, reports, Behind);
        NoDigs(ToSet(order), mine.value, reports);
      }
    }
  }

  lemma NoDigs(watchers: set<nat>, mine: Report, reports: map<nat, Report>)
    ensures Crowd(watchers, Ahead, mine, reports) == {} ==> CrowdDigs(watchers, Ahead, mine, reports) == {}
  {
    hide Compare;
  }

  /** The watchers that have reported a later event. */
  function AheadOf(watchers: set<nat>, mine: Report, reports: map<nat, Report>): set<nat> {
    set w | w in watchers && w in reports && reports[w].sn > mine.sn
  }

  /** Those that have reported an earlier one, and those that have reported another one
      at the same number. */
  function BehindOf(watchers: set<nat>, mine: Report, reports: map<nat, Report>): set<nat> {
    set w | w in watchers && w in reports && reports[w].sn < mine.sn
  }

  function DuplicitousOf(watchers: set<nat>, mine: Report, reports: map<nat, Report>): set<nat> {
    set w | w in watchers && w in reports && reports[w].sn == mine.sn && reports[w].dig != mine.dig
  }

  /** No watcher has reported another event at the same number. */
  predicate NoneDuplicitous(watchers: set<nat>, mine: Report, reports: map<nat, Report>) {
    forall w | w in watchers && w in reports && reports[w].sn == mine.sn :: reports[w].dig == mine.dig
  }

  predicate OneDig(crowd: set<nat>, reports: map<nat, Report>)
    requires crowd <= reports.Keys
  {
    forall v, w | v in crowd && w in crowd :: reports[v].dig == reports[w].dig
  }

  lemma CrowdsAre(watchers: set<nat>, mine: Report, reports: map<nat, Report>)
    requires !Foreign(watchers, mine, reports)
    ensures Crowd(watchers, Ahead, mine, reports) == AheadOf(watchers, mine, reports)
    ensures Crowd(watchers, Behind, mine, reports) == BehindOf(watchers, mine, reports)
    ensures Crowd(watchers, Duplicitous, mine, reports) == DuplicitousOf(watchers, mine, reports)
    ensures Crowd(watchers, Duplicitous, mine, reports) == {} <==> NoneDuplicitous(watchers, mine, reports)
  {
    forall w | w in watchers && w in reports
      ensures Reports(w, Behind, mine, reports) <==> reports[w].sn < mine.sn
      ensures Reports(w, Ahead, mine, reports) <==> reports[w].sn > mine.sn
      ensures Reports(w, Duplicitous, mine, reports) <==> reports[w].sn == mine.sn && reports[w].dig != mine.dig
    {
    }
    if NoneDuplicitous(watchers, mine, reports) {
      assert forall w :: w !in Crowd(watchers, Duplicitous, mine, reports);
    } else {
      var w :| w in watchers && w in reports && reports[w].sn == mine.sn && reports[w].dig != mine.dig;
      assert w in Crowd(watchers, Duplicitous, mine, reports);
    }
  }

  lemma DigsAreOne(watchers: set<nat>, mine: Report, reports: map<nat, Report>)
    requires Crowd(watchers, Ahead, mine, reports) == AheadOf(watchers, mine, reports)
    ensures |CrowdDigs(watchers, Ahead, mine, reports)| <= 1 <==> OneDig(AheadOf(watchers, mine, reports), reports)
  {
    hide Reports;
    var ahead, digs := AheadOf(watchers, mine, reports), CrowdDigs(watchers, Ahead, mine, reports);
    if OneDig(ahead, reports) {
      if ahead != {} {
        var v :| v in ahead;
        assert digs == {reports[v].dig};
      } else {
        assert digs == {};
      }
    } else {
      var v, w :| v in ahead && w in ahead && reports[v].dig != reports[w].dig;
      assert {reports[v].dig, reports[w].dig} <= digs;
      SubsetSize({reports[v].dig, reports[w].dig}, digs);
    }
  }

  lemma SubsetSize(a: set<nat>, b: set<nat>)
    requires a <= b
    ensures |a| <= |b|
  {
    assert b == a + (b - a);
  }

  /** Enough watchers are ahead: all there are, when no threshold is given or it is 0,
      else as many as it says. */
  predicate Enough(ahead: set<nat>, watchers: set<nat>, toad: Option<int>) {
    if toad.None? || toad.value == 0 then ahead == watchers else |ahead| >= toad.value
  }

  /** An update is cued just when no watcher is duplicitous, and at least one and enough
      of them are ahead, all with one digest. */
  lemma UpdateMeans(watchers: set<nat>, toad: Option<int>, mine: Report, reports: map<nat, Report>)
    requires !Foreign(watchers, mine, reports)
    ensures var ahead := AheadOf(watchers, mine, reports);
      Verdict(watchers, toad, Some(mine), reports) == Update <==>
        && NoneDuplicitous(watchers, mine, reports)
        && ahead != {} && Enough(ahead, watchers, toad) && OneDig(ahead, reports)
  {
    hide Crowd;
    hide CrowdDigs;
    hide NoneDuplicitous;
    hide OneDig;
    var ahead := AheadOf(watchers, mine, reports);
    CrowdsAre(watchers, mine, reports);
    DigsAreOne(watchers, mine, reports);
    SubsetSize(ahead, watchers);
    WholeSubset(ahead, watchers);
    hide AheadOf;
  }

  lemma WholeSubset(a: set<nat>, b: set<nat>)
    requires a <= b
    ensures |a| >= |b| <==> a == b
  {
    assert b == a + (b - a);
  }

  lemma UpdateIsClean(watchers: set<nat>, toad: Option<int>, mine: Report, reports: map<nat, Report>)
    requires Verdict(watchers, toad, Some(mine), reports) == Update
    ensures !Foreign(watchers, mine, reports) && Threshold(toad, |watchers|) <= |watchers|
  {
  }

  /** Sets that together outnumber their union meet. */
  lemma QuorumsMeet(a: set<nat>, b: set<nat>, union: set<nat>)
    requires a <= union && b <= union && |a| + |b| > |union|
    ensures a * b != {}
  {
    if a * b == {} {
      assert |a + b| == |a| + |b|;
      SubsetSize(a + b, union);
    }
  }

  /** Two adjudications over the same reports, by any watchers and against any local
      states, whose thresholds together outnumber the watchers of both: when both
      cue an update, it is to the same digest. */
  lemma UpdatesAgree(ws: set<nat>, toad: Option<int>, mine: Report, ws': set<nat>, toad': Option<int>, mine': Report,
                     reports: map<nat, Report>, v: nat, v': nat)
    requires Verdict(ws, toad, Some(mine), reports) == Update && Verdict(ws', toad', Some(mine'), reports) == Update
    requires Threshold(toad, |ws|) + Threshold(toad', |ws'|) > |ws + ws'|
    requires v in AheadOf(ws, mine, reports) && v' in AheadOf(ws', mine', reports)
    ensures reports[v].dig == reports[v'].dig
  {
    hide Verdict;
    UpdateIsClean(ws, toad, mine, reports);
    UpdateIsClean(ws', toad', mine', reports);
    UpdateMeans(ws, toad, mine, reports);
    UpdateMeans(ws', toad', mine', reports);
    var a, b := AheadOf(ws, mine, reports), AheadOf(ws', mine', reports);
    QuorumsMeet(a, b, ws + ws');
    var u :| u in a * b;
    assert reports[v].dig == reports[u].dig == reports[v'].dig;
  }

  /** With thresholds that do not, they may endorse two events. */
  lemma UpdatesMayDiffer()
    ensures var mine := Report(0, 0, 0); var reports := map[1 := Report(0, 1, 5), 2 := Report(0, 1, 6)];
      && Verdict({1}, None, Some(mine), reports) == Update && Verdict({2}, None, Some(mine), reports) == Update
      && Threshold(None, 1) + Threshold(None, 1) == |{1, 2}|
      && reports[1].dig != reports[2].dig
  {
    var mine := Report(0, 0, 0);
    var reports := map[1 := Report(0, 1, 5), 2 := Report(0, 1, 6)];
    UpdateMeans({1}, None, mine, reports);
    UpdateMeans({2}, None, mine, reports);
    assert AheadOf({1}, mine, reports) == {1} && AheadOf({2}, mine, reports) == {2};
  }
}
