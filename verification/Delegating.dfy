/** app/delegating.py: the escrows of the Anchorer, which brings a delegated event
    from its witnesses to its delegator and back. */
module Delegating {
  import opened Results

  type Pre = nat

  /** A key event, and whether it is a delegated inception or rotation; its digest
      stands for the whole of it. */
  datatype Ev = Ev(pre: Pre, sn: nat, body: nat, delegated: bool)

  /** The last event of a prefix at one number of its log, and the seals it anchors. */
  datatype Entry = Entry(body: nat, delegated: bool, seals: set<Ev>)

  /** The key state of a prefix: keys, number of witnesses, their threshold, its
      delegator and its latest event. */
  datatype Kever = Kever(keys: seq<nat>, wits: nat, toad: nat, delpre: Option<Pre>, last: Ev)

  /** A local Hab: whether it is a group, and the first key of its member. */
  datatype Hab = Hab(group: bool, mkey: nat)

  /** What the escrows read and do not write, at one time: the Habs and key states,
      the logs, the witness receipts and signatures of each event by position, the
      events the Receiptors of the Anchorer and of the Counselor have reported, and
      the publishers with nothing to send. */
  datatype World = World(
    habs: map<Pre, Hab>,
    kevers: map<Pre, Kever>,
    kels: map<Pre, seq<Entry>>,
    wigs: map<Ev, set<nat>>,
    sigs: map<Ev, seq<nat>>,
    cues: set<(Pre, nat)>,
    gcues: set<(Pre, nat)>,
    idle: set<Pre>)

  /** kels.getLast */
  function GetLast(w: World, pre: Pre, sn: nat): Option<Ev> {
    if pre in w.kels && sn < |w.kels[pre]|
    then Some(Ev(pre, sn, w.kels[pre][sn].body, w.kels[pre][sn].delegated))
    else None
  }

  function Wigs(w: World, e: Ev): set<nat> { if e in w.wigs then w.wigs[e] else {} }

  /** fullyWitnessed */
  predicate FullyWitnessed(w: World, e: Ev) {
    e.pre in w.kevers && |Wigs(w, e)| >= w.kevers[e.pre].toad
  }

  /** The search of fetchLastSealingEventByEventSeal, from number sn on. */
  function FetchSealing(w: World, pre: Pre, e: Ev, sn: nat): (r: Option<Ev>)
    requires pre in w.kels && sn <= |w.kels[pre]|
    decreases |w.kels[pre]| - sn
  {
    if sn == |w.kels[pre]| then None
    else
      var entry := w.kels[pre][sn];
      var srdr := Ev(pre, sn, entry.body, entry.delegated);
      if e in entry.seals && FullyWitnessed(w, srdr) then Some(srdr)
      else FetchSealing(w, pre, e, sn + 1)
  }

  function Sealing(w: World, pre: Pre, e: Ev): Option<Ev> {
    if pre in w.kels then FetchSealing(w, pre, e, 0) else None
  }

  /** All the witnesses there are have receipted the event. */
  predicate FullyReceipted(w: World, e: Ev) {
    e.pre in w.kevers && |Wigs(w, e)| == w.kevers[e.pre].wits
  }

  /** The delegator's log seals the event. */
  predicate SealedBy(w: World, e: Ev) {
    && e.pre in w.kevers && w.kevers[e.pre].delpre.Some?
    && Sealing(w, w.kevers[e.pre].delpre.value, e).Some?
  }

  /** The escrows, the delegated events done, the seals found, the publishers, the
      proxy and the events sent to their delegators. */
  datatype State = State(
    dpwe: set<Ev>, dune: set<Ev>, dpub: set<Ev>,
    cdel: map<(Pre, nat), Ev>, aess: map<(Pre, Ev), Ev>,
    publishers: set<Pre>, proxied: bool, sent: seq<Ev>)

  /** Anchorer.delegation */
  function Delegation(s: State, w: World, pre: Pre, sn: Option<nat>, proxy: bool): (State, Outcome) {
    if pre !in w.habs then (s, Fail(ValidationError)) else
    var s1 := s.(proxied := s.proxied || proxy, publishers := s.publishers + {pre});
    if pre !in w.kevers then (s1, Fail(AttributeError)) else
    var kever := w.kevers[pre];
    if kever.delpre.None? || kever.delpre.value !in w.kevers then (s1, Fail(ValidationError)) else
    var evt := GetLast(w, pre, if sn.Some? then sn.value else kever.last.sn);
    if evt.None? then (s1, Fail(MissingEntryError)) else
    (s1.(dpwe := s.dpwe + {evt.value}), Pass)
  }

  /** One event of processPartialWitnessEscrow. */
  function WitnessItem(s: State, w: World, e: Ev): (State, Outcome) {
    if e.pre !in w.kevers then (s, Fail(KeyError)) else
    var kever := w.kevers[e.pre];
    if |Wigs(w, e)| != kever.wits then (s, Pass)
    else if kever.wits > 0 && (e.pre, e.sn) !in w.cues then (s, Pass)
    else if e.pre !in w.habs then (s, Pass)
    else if kever.delpre.None? || kever.delpre.value !in w.kevers then (s, Fail(KeyError))
    else if !w.habs[e.pre].group && !s.proxied then (s, Fail(ValidationError))
    else (s.(sent := s.sent + [e], dpwe := s.dpwe - {e}, dune := s.dune + {e}), Pass)
  }

  /** One event of processUnanchoredEscrow. */
  function UnanchoredItem(s: State, w: World, e: Ev): (State, Outcome) {
    if e.pre !in w.kevers then (s, Fail(KeyError)) else
    var kever := w.kevers[e.pre];
    if kever.delpre.None? || kever.delpre.value !in w.kevers then (s, Fail(KeyError)) else
    match Sealing(w, kever.delpre.value, e)
    case None => (s, Pass)
    case Some(anchor) =>
      var s1 := s.(aess := s.aess[(e.pre, kever.last) := anchor]);
      if e.pre in s.publishers && e.pre !in w.habs then (s1, Fail(KeyError))
      else (s1.(dpub := s.dpub + {e}, dune := s.dune - {e}), Pass)
  }

  /** One event of processWitnessPublication. */
  function PublicationItem(s: State, w: World, e: Ev): (State, Outcome) {
    if e.pre !in s.publishers then (s, Pass)
    else if e.pre !in w.idle then (s, Pass)
    else (s.(publishers := s.publishers - {e.pre}, dpub := s.dpub - {e},
             cdel := if (e.pre, e.sn) in s.cdel then s.cdel else s.cdel[(e.pre, e.sn) := e]), Pass)
  }

  datatype Phase = Witness | Unanchored | Publication

  /** The escrow that a phase goes through. */
  function Table(s: State, phase: Phase): set<Ev> {
    match phase case Witness => s.dpwe case Unanchored => s.dune case Publication => s.dpub
  }

  function Item(phase: Phase, s: State, w: World, e: Ev): (State, Outcome) {
    match phase
    case Witness => WitnessItem(s, w, e)
    case Unanchored => UnanchoredItem(s, w, e)
    case Publication => PublicationItem(s, w, e)
  }

  /** The loop of a phase over the first n events of the list it started with; an
      exception ends it. */
  function Sweep(phase: Phase, s: State, w: World, order: seq<Ev>, n: nat): (State, Outcome)
    requires n <= |order|
  {
    if n == 0 then (s, Pass) else
    var (s1, r) := Sweep(phase, s, w, order, n - 1);
    if r.Fail? then (s1, r) else Item(phase, s1, w, order[n - 1])
  }

  /** A list of the events of an escrow, each once. */
  ghost predicate Lists(order: seq<Ev>, table: set<Ev>) {
    && (forall e | e in table :: e in order)
    && (forall i | 0 <= i < |order| :: order[i] in table)
    && (forall i, j | 0 <= i < j < |order| :: order[i] != order[j])
  }

  /** Anchorer.complete */
  function Complete(s: State, pre: Pre, sn: nat, diger: Option<Ev>): Result<bool> {
    if (pre, sn) !in s.cdel then Ok(false)
    else if diger.Some? && diger.value != s.cdel[(pre, sn)] then Err(ValidationError)
    else Ok(true)
  }

  /** A call on the Anchorer. */
  datatype Op = Submit(pre: Pre, sn: Option<nat>, proxy: bool) | Process(phase: Phase, order: seq<Ev>)

  function Do(s: State, w: World, op: Op): (State, Outcome) {
    match op
    case Submit(pre, sn, proxy) => Delegation(s, w, pre, sn, proxy)
    case Process(phase, order) => Sweep(phase, s, w, order, |order|)
  }

  /** A run: states, the calls between them and the world at each call. */
  ghost predicate IsRun(states: seq<State>, ops: seq<Op>, worlds: seq<World>) {
    && |states| == |ops| + 1 && |worlds| == |ops|
    && states[0] == State({}, {}, {}, map[], map[], {}, false, [])
    && forall i | 0 <= i < |ops| ::
      && (ops[i].Process? ==> Lists(ops[i].order, Table(states[i], ops[i].phase)))
      && states[i + 1] == Do(states[i], worlds[i], ops[i]).0
  }
}
