/** app/habbing.py: Hab.make and Hab.rotate over the key store and the key event
    log.  What the log accepts is not part of the model: each event comes with a
    verdict. */
module Habbing {
  import opened Collections
  import opened Results
  import opened Keeping

  /** An establishment event: its keys, the digests of the keys it commits to, and
      the sets of positions that meet its next threshold. */
  datatype Event = Event(keys: seq<Pub>, ndigs: seq<Dig>, quorums: set<set<nat>>)

  /** What comes of processEvent: the event enters the log, MissingSignatureError
      is raised and dropped, or another exception is raised. */
  datatype Verdict = Accepted | Swallowed | Refused

  /** A Hab: the store of its Manager, its prefix and its key event log. */
  datatype State = State(st: Store, pre: Pub, kel: seq<Event>)

  /** The positions of ndigs whose digest is of one of the keys (BaseHab.rotate). */
  function Indices(ndigs: seq<Dig>, verfers: seq<Pub>): seq<nat> {
    if ndigs == [] then [] else
    var n := |ndigs| - 1;
    Indices(ndigs[..n], verfers) + if ndigs[n] in Digests(verfers) then [n] else []
  }

  /** Tholder.satisfy, numeric or weighted: enough positions are there. */
  predicate Satisfied(quorums: set<set<nat>>, indices: seq<nat>) {
    exists q | q in quorums :: forall i | i in q :: i in indices
  }

  /** Replay or, at the end of the list of keys, rotate; neither erases. */
  function Advance(st: Store, pre: Pub, ncount: int): (Store, Result<Keys>) {
    var (st1, r) := Replay(st, pre, true, false);
    if r == Err(IndexError) then Rotate(st1, pre, ncount, false) else (st1, r)
  }

  /** Hab.rotate; quorums are those of the threshold the event declares. */
  function RotateHab(h: State, ncount: Option<int>, quorums: set<set<nat>>, verdict: Verdict): (State, Outcome)
    requires h.kel != []
  {
    var kever := h.kel[|h.kel| - 1];
    var (st1, r) := Advance(h.st, h.pre, if ncount.None? then |kever.ndigs| else ncount.value);
    if r.Err? then (h.(st := st1), Fail(r.error)) else
    var before := h.st.sits[h.pre];
    if verdict == Refused || !Satisfied(kever.quorums, Indices(kever.ndigs, r.value.0))
    then (h.(st := st1.(sits := st1.sits[h.pre := before])), Fail(ValidationError))
    else
      var kel := if verdict == Accepted then h.kel + [Event(r.value.0, r.value.1, quorums)] else h.kel;
      (State(st1.(pris := st1.pris - ToSet(before.was.pubs)), h.pre, kel), Pass)
  }

  /** Where the keys of a new Hab come from. */
  datatype Source =
    | Fresh(icount: int)
    | Secret(lists: seq<seq<nat>>, iridx: nat)

  /** The keys and next digests of Hab.make, and the prefix they are stored under. */
  function MakeKeys(st: Store, source: Source, ncount: int, salt: string, stem: string): (Store, Result<(Pub, Keys)>) {
    match source
    case Fresh(icount) =>
      var (st1, r) := Incept(st, salt, stem, icount, ncount);
      (st1, if r.Err? then Err(r.error) else Ok((r.value.0[0], r.value)))
    case Secret(lists, iridx) =>
      var (st1, r) := Ingest(st, lists, iridx, salt, stem, if ncount < 0 then 0 else ncount);
      if r.Err? then (st1, Err(r.error)) else
      var (st2, r2) := Replay(st1, r.value, false, true);
      (st2, if r2.Err? then Err(r2.error) else Ok((r.value, r2.value)))
  }

  /** Hab.make.  said is the digest of the inception event, none when the prefix
      is the first key; what is moved is what is stored under the first key. */
  function Make(st: Store, source: Source, ncount: int, salt: string, stem: string, said: Option<nat>,
                quorums: set<set<nat>>, verdict: Verdict): (Store, Result<State>)
  {
    var (st1, r) := MakeKeys(st, source, ncount, salt, stem);
    if r.Err? then (st1, Err(r.error)) else
    var (verfers, digers) := r.value.1;
    if verfers == [] then (st1, Err(ValueError)) else
    var pre := if said.None? then verfers[0] else Said(said.value);
    var (st2, moved) := Move(st1, verfers[0], pre);
    if moved.Fail? then (st2, Err(moved.error)) else
    if verdict == Refused then (st2, Err(ConfigurationError)) else
    (st2, Ok(State(st2, pre, if verdict == Accepted then [Event(verfers, digers, quorums)] else [])))
  }
}
