/** app/grouping.py: the escrows of the Counselor, which brings an event of a group
    from its members' signatures to its record of completed group events. */
module Grouping {
  import opened Results
  import opened Delegating

  /** The number and digest under which an event of a group is pending. */
  datatype Pend = Pend(sn: nat, diger: Ev)

  type Escrow = map<Pre, seq<Pend>>

  /** The group escrows, the completed group events, the Anchorer, the events sent
      to witnesses and the receipts asked for. */
  datatype Group = Group(
    gpse: Escrow, gdee: Escrow, gpwe: Escrow, cgms: map<(Pre, nat), Ev>,
    swain: State, msgs: seq<(Pre, nat)>, gets: seq<(Pre, nat)>)

  /** add: the values under a key are a set kept in the order they came. */
  function Add(m: Escrow, pre: Pre, p: Pend): Escrow {
    if pre in m then (if p in m[pre] then m else m[pre := m[pre] + [p]]) else m[pre := [p]]
  }

  predicate In(m: Escrow, pre: Pre, p: Pend) { pre in m && p in m[pre] }

  function Put(m: map<(Pre, nat), Ev>, pre: Pre, p: Pend): map<(Pre, nat), Ev> {
    if (pre, p.sn) in m then m else m[(pre, p.sn) := p.diger]
  }

  /** The latest event of the group is a delegated inception or rotation. */
  predicate MustDelegate(kever: Kever) { kever.delpre.Some? && kever.last.delegated }

  /** The least position that has signed. */
  function Least(sigs: seq<nat>): (k: nat)
    requires sigs != []
    ensures k in sigs && forall j | j in sigs :: k <= j
  {
    if |sigs| == 1 then sigs[0] else
    var fore, last := sigs[..|sigs| - 1], sigs[|sigs| - 1];
    var k := Least(fore);
    LastOrBefore(sigs);
    if last < k then last else k
  }

  lemma LastOrBefore(s: seq<nat>)
    requires s != []
    ensures forall j :: j in s <==> j == s[|s| - 1] || j in s[..|s| - 1]
  {
    assert s == s[..|s| - 1] + [s[|s| - 1]];
  }

  /** One event of processPartialSignedEscrow. */
  function SignItem(s: Group, w: World, pre: Pre, p: Pend): (Group, Outcome) {
    var sdig := GetLast(w, pre, p.sn);
    if sdig.None? then (s, Pass) else
    var s1 := s.(gpse := s.gpse - {pre});
    if pre !in w.habs then (s1, Fail(KeyError)) else
    if pre !in w.kevers then (s1, Fail(AttributeError)) else
    var kever := w.kevers[pre];
    var sigers := if sdig.value in w.sigs then w.sigs[sdig.value] else [];
    if sigers == [] then (s1, Pass) else
    var windex := Least(sigers);
    if windex >= |kever.keys| then (s1, Fail(IndexError)) else
    var witered := w.habs[pre].mkey == kever.keys[windex];
    if MustDelegate(kever) then
      var (swain, r) := if witered then Delegation(s1.swain, w, pre, Some(p.sn), false) else (s1.swain, Pass);
      if r.Fail? then (s1.(swain := swain), r)
      else (s1.(swain := swain, gdee := Add(s1.gdee, pre, p)), Pass)
    else
      (s1.(msgs := if witered then s1.msgs + [(pre, p.sn)] else s1.msgs, gpwe := Add(s1.gpwe, pre, p)), Pass)
  }

  /** One event of processDelegateEscrow. */
  function ApproveItem(s: Group, w: World, pre: Pre, p: Pend): (Group, Outcome) {
    if pre !in w.habs || pre !in w.kevers then (s, Fail(KeyError)) else
    var kever := w.kevers[pre];
    if kever.keys == [] then (s, Fail(IndexError)) else
    if w.habs[pre].mkey == kever.keys[0] then
      if Complete(s.swain, pre, kever.last.sn, None) == Ok(true)
      then (s.(gdee := s.gdee - {pre}, cgms := Put(s.cgms, pre, p)), Pass) else (s, Pass)
    else if kever.delpre.None? then (s, Pass) else
      match Sealing(w, kever.delpre.value, p.diger)
      case None => (s, Pass)
      case Some(anchor) =>
        (s.(swain := s.swain.(aess := s.swain.aess[(pre, p.diger) := anchor]),
            gdee := s.gdee - {pre}, gpwe := Add(s.gpwe, pre, p)), Pass)
  }

  /** One event of processPartialWitnessEscrow. */
  function ReceiptItem(s: Group, w: World, pre: Pre, p: Pend): (Group, Outcome) {
    if pre !in w.kevers || pre !in w.habs then (s, Fail(KeyError)) else
    var kever := w.kevers[pre];
    if kever.keys == [] then (s, Fail(IndexError)) else
    var witer := w.habs[pre].mkey == kever.keys[0];
    if |if p.diger.pre == pre then Wigs(w, p.diger) else {}| == kever.wits then
      if witer && kever.wits > 0 && (pre, p.sn) !in w.gcues then (s, Pass)
      else (s.(gpwe := s.gpwe - {pre}, cgms := Put(s.cgms, pre, p)), Pass)
    else if !witer then (s.(gets := s.gets + [(pre, p.sn)]), Pass)
    else (s, Pass)
  }

  /** Counselor.complete */
  function GroupComplete(s: Group, pre: Pre, sn: nat, diger: Option<Ev>): Result<bool> {
    if (pre, sn) !in s.cgms then Ok(false)
    else if diger.Some? && diger.value != s.cgms[(pre, sn)] then Err(ValidationError)
    else Ok(true)
  }

  datatype Round = Sign | Approve | Receipt

  function GroupItem(round: Round, s: Group, w: World, pre: Pre, p: Pend): (Group, Outcome) {
    match round
    case Sign => SignItem(s, w, pre, p)
    case Approve => ApproveItem(s, w, pre, p)
    case Receipt => ReceiptItem(s, w, pre, p)
  }

  function Pending(s: Group, round: Round): Escrow {
    match round case Sign => s.gpse case Approve => s.gdee case Receipt => s.gpwe
  }

  /** The loop of a round over the first n entries of the list it started with. */
  function GroupSweep(round: Round, s: Group, w: World, order: seq<(Pre, Pend)>, n: nat): (Group, Outcome)
    requires n <= |order|
  {
    if n == 0 then (s, Pass) else
    var (s1, r) := GroupSweep(round, s, w, order, n - 1);
    if r.Fail? then (s1, r) else GroupItem(round, s1, w, order[n - 1].0, order[n - 1].1)
  }

  /** A call on the Counselor, or one on its Anchorer. */
  datatype Call = Start(pre: Pre, pend: Pend) | Rounds(round: Round, order: seq<(Pre, Pend)>) | Swain(op: Op)

  function DoGroup(s: Group, w: World, call: Call): Group {
    match call
    case Start(pre, pend) => s.(gpse := Add(s.gpse, pre, pend))
    case Rounds(round, order) => GroupSweep(round, s, w, order, |order|).0
    case Swain(op) => s.(swain := Do(s.swain, w, op).0)
  }

  const NOGROUP := Group(map[], map[], map[], map[], State({}, {}, {}, map[], map[], {}, false, []), [], [])

  /** A call goes through the entries that are there. */
  ghost predicate CallFits(s: Group, call: Call) {
    match call
    case Start(_, _) => true
    case Rounds(round, order) => forall i | 0 <= i < |order| :: In(Pending(s, round), order[i].0, order[i].1)
    case Swain(op) => op.Process? ==> Lists(op.order, Table(s.swain, op.phase))
  }

  ghost predicate IsGroupRun(states: seq<Group>, calls: seq<Call>, worlds: seq<World>) {
    && |states| == |calls| + 1 && |worlds| == |calls| && states[0] == NOGROUP
    && forall i | 0 <= i < |calls| ::
      CallFits(states[i], calls[i]) && states[i + 1] == DoGroup(states[i], worlds[i], calls[i])
  }
}
