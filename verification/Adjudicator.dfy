/** The Adjudicator of app/watching.py as an object with a queue of cues. */
module AdjudicatorObject {
  import opened Collections
  import opened Results
  import opened Watching
  import opened WatchingVerdicts

  /** An entry of the table of watchers: who watches whom, and whether still. */
  datatype Observed = Observed(aid: nat, oid: nat, enabled: bool)

  class Adjudicator {
    var cues: seq<Cue>

    constructor ()
      ensures cues == []
    {
      cues := [];
    }

    /** The enabled watchers of a prefix. */
    method Watchers(obvs: seq<Observed>, watched: nat) returns (watchers: set<nat>)
      ensures watchers == set i | 0 <= i < |obvs| && obvs[i].enabled && obvs[i].oid == watched :: obvs[i].aid
    {
      watchers := {};
      for i := 0 to |obvs|
        invariant watchers == set k | 0 <= k < i && obvs[k].enabled && obvs[k].oid == watched :: obvs[k].aid
      {
        if obvs[i].enabled && obvs[i].oid == watched { watchers := watchers + {obvs[i].aid}; }
      }
    }

    /** Compares the watchers' states one by one, in whatever order the set gives. */
    method CompareAll(watchers: set<nat>, mine: Report, reports: map<nat, Report>)
      returns (r: Result<seq<DiffState>>, ghost order: seq<nat>)
      ensures Distinct(order) && ToSet(order) <= watchers && (r.Ok? ==> ToSet(order) == watchers)
      ensures r == States(order, mine, reports)
      ensures r.Err? <==> Foreign(watchers, mine, reports)
      ensures r.Ok? ==> forall stage :: |Those(r.value, stage)| == |Crowd(watchers, stage, mine, reports)|
    {
      hide States;
      hide ToSet;
      hide Distinct;
      NoOne(mine, reports);
      var states := [];
      order := [];
      var todo := watchers;
      while todo != {}
        invariant Distinct(order) && ToSet(order) == watchers - todo && todo <= watchers
        invariant States(order, mine, reports) == Ok(states)
        decreases |todo|
      {
        var watcher :| watcher in todo;
        todo := todo - {watcher};
        OneMore(order, watcher, mine, reports);
        order := order + [watcher];
        if watcher in reports {
          var state := Compare(watcher, mine, reports[watcher]);
          if state.Err? {
            FailsAnyway(order, watchers, mine, reports);
            return Err(state.error), order;
          }
          states := states + [state.value];
        }
      }
      assert todo == {} && ToSet(order) == watchers;
      StatesFail(order, mine, reports);
      forall stage ensures |Those(states, stage)| == |Crowd(watchers, stage, mine, reports)| {
        StatesMatch(order, mine, reports, stage);
      }
      return Ok(states), order;
    }

    /** The states at one stage. */
    method Select(states: seq<DiffState>, stage: Stage) returns (those: seq<DiffState>)
      ensures those == Those(states, stage)
    {
      those := [];
      for i := 0 to |states|
        invariant those == Those(states[..i], stage)
      {
        assert states[..i + 1][..i] == states[..i];
        if states[i].state == stage { those := those + [states[i]]; }
      }
      assert states[..|states|] == states;
    }

    /** The cue for the states, if there is one. */
    method Conclude(states: seq<DiffState>, threshold: int, pick: nat)
      modifies this
      ensures var cue := Judge(states, threshold, pick); cues == old(cues) + if cue == NoCue then [] else [cue]
    {
      hide Those;
      hide Digs;
      var dups := Select(states, Duplicitous);
      var ahds := Select(states, Ahead);
      var bhds := Select(states, Behind);
      if |dups| > 0 {
        cues := cues + [KeyStateDuplicitous(dups)];
      } else if |ahds| > 0 {
        if |Digs(ahds)| > 1 {
          cues := cues + [KeyStateDuplicitous(ahds)];
        } else if |ahds| >= threshold {
          cues := cues + [KeyStateUpdate(ahds[pick % |ahds|].sn, ahds)];
        }
      } else if |bhds| > 0 {
        cues := cues + [KeyStateLagging(bhds)];
      } else {
        cues := cues + [KeyStateConsistent(states)];
      }
    }

    /** adjudicate: whatever order and choice it takes, what it cues is the verdict on
        its set of watchers. */
    method Adjudicate(obvs: seq<Observed>, watched: nat, toad: Option<int>, mine: Option<Report>,
                      reports: map<nat, Report>, pick: nat)
      returns (r: Outcome, ghost order: seq<nat>)
      modifies this
      ensures var watchers := set i | 0 <= i < |obvs| && obvs[i].enabled && obvs[i].oid == watched :: obvs[i].aid;
        var kind := Verdict(watchers, toad, mine, reports);
        && r == (if kind.Failed? then Fail(kind.error) else Pass)
        && (!kind.Failed? ==> mine.Some? && (kind == Update <==> Warranted(watchers, toad, mine.value, reports)))
        && (kind.Failed? || kind == Nothing ==> cues == old(cues))
        && (!kind.Failed? ==> Distinct(order) && ToSet(order) == watchers)
        && (!kind.Failed? && kind != Nothing ==>
              |cues| == |old(cues)| + 1 && cues[..|old(cues)|] == old(cues) && KindOf(Ok(cues[|old(cues)|])) == kind
              && Watching.Adjudicate(order, toad, mine, reports, pick) == Ok(cues[|old(cues)|]))
    {
      hide States;
      hide Those;
      hide Verdict;
      hide Foreign;
      hide Judge;
      var watchers := Watchers(obvs, watched);
      var threshold := Threshold(toad, |watchers|);
      VerdictFails(watchers, toad, mine, reports);
      hide Warranted;
      if !Verdict(watchers, toad, mine, reports).Failed? { UpdateWarranted(watchers, toad, mine, reports); }
      if threshold > |watchers| { return Fail(ValueError), []; }
      if mine.None? { return Fail(KeyError), []; }
      var all: Result<seq<DiffState>>;
      all, order := CompareAll(watchers, mine.value, reports);
      if all.Err? {
        StatesFail(order, mine.value, reports);
        return Fail(all.error), order;
      }
      CardDistinct(order);
      KindIsVerdict(order, toad, mine, reports, pick);
      Conclude(all.value, threshold, pick);
      return Pass, order;
    }
  }

  lemma NoOne(mine: Report, reports: map<nat, Report>)
    ensures Distinct([]) && ToSet<nat>([]) == {} && States([], mine, reports) == Ok([])
  {
  }

  lemma OneMore(order: seq<nat>, w: nat, mine: Report, reports: map<nat, Report>)
    requires Distinct(order) && w !in ToSet(order) && States(order, mine, reports).Ok?
    ensures Distinct(order + [w]) && ToSet(order + [w]) == ToSet(order) + {w}
    ensures States(order + [w], mine, reports) ==
      if w !in reports then States(order, mine, reports)
      else match Compare(w, mine, reports[w])
        case Err(e) => Err(e)
        case Ok(state) => Ok(States(order, mine, reports).value + [state])
  {
    assert (order + [w])[..|order|] == order;
  }

  lemma VerdictFails(watchers: set<nat>, toad: Option<int>, mine: Option<Report>, reports: map<nat, Report>)
    ensures Threshold(toad, |watchers|) > |watchers| ==> Verdict(watchers, toad, mine, reports) == Failed(ValueError)
    ensures Threshold(toad, |watchers|) <= |watchers| ==> match mine
      case None => Verdict(watchers, toad, mine, reports) == Failed(KeyError)
      case Some(m) => Foreign(watchers, m, reports) ==> Verdict(watchers, toad, mine, reports) == Failed(ValueError)
  {
  }

  lemma FailsAnyway(order: seq<nat>, watchers: set<nat>, mine: Report, reports: map<nat, Report>)
    requires ToSet(order) <= watchers && States(order, mine, reports).Err?
    ensures Foreign(watchers, mine, reports) && States(order, mine, reports) == Err(ValueError)
  {
    StatesFail(order, mine, reports);
  }
}
