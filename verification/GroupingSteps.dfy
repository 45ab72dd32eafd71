/** What each round of app/grouping.py does with one entry, in full: where it goes, who
    submits it, sends it to the witnesses or asks for receipts, and what is raised. */
module GroupingSteps {
  import opened Results
  import opened Delegating
  import opened DelegatingLaws
  import opened DelegatingSteps
  import opened Grouping

  /** The log holds an event at the number. */
  predicate Logs(w: World, pre: Pre, sn: nat) { pre in w.kels && sn < |w.kels[pre]| }

  function Held(w: World, pre: Pre, sn: nat): Ev
    requires Logs(w, pre, sn)
  {
    Ev(pre, sn, w.kels[pre][sn].body, w.kels[pre][sn].delegated)
  }

  predicate Signed(w: World, e: Ev) { e in w.sigs && w.sigs[e] != [] }

  /** k is the least position that has signed the event. */
  predicate SignsFirst(w: World, e: Ev, k: nat) {
    e in w.sigs && k in w.sigs[e] && forall j | j in w.sigs[e] :: k <= j
  }

  /** This member has the key at the position. */
  predicate MemberAt(w: World, pre: Pre, k: nat) {
    pre in w.habs && pre in w.kevers && k < |w.kevers[pre].keys| && w.habs[pre].mkey == w.kevers[pre].keys[k]
  }

  /** An entry is added behind those of its prefix, once. */
  lemma AddsLast(m: Escrow, pre: Pre, p: Pend)
    ensures var m' := Add(m, pre, p); var before := if pre in m then m[pre] else [];
      && m'.Keys == m.Keys + {pre} && (forall q | q in m && q != pre :: m'[q] == m[q])
      && m'[pre] == if p in before then before else before + [p]
  {
  }

  /** A sign round leaves an entry alone until the log holds an event at its number.  Then
      all entries of the group are taken out, and one whose event is signed goes on: to
      wait for its seal when the group has a delegator and its latest event is delegated,
      submitted to the Anchorer by the member whose key signed first and by no other;
      else to wait for receipts, sent to the witnesses by that member alone. */
  lemma SignStep(s: Group, w: World, pre: Pre, p: Pend, k: nat)
    requires Logs(w, pre, p.sn) && Signed(w, Held(w, pre, p.sn)) ==> SignsFirst(w, Held(w, pre, p.sn), k)
    ensures var out := s.(gpse := s.gpse - {pre});
      SignItem(s, w, pre, p) ==
        if !Logs(w, pre, p.sn) then (s, Pass)
        else if pre !in w.habs then (out, Fail(KeyError))
        else if pre !in w.kevers then (out, Fail(AttributeError))
        else if !Signed(w, Held(w, pre, p.sn)) then (out, Pass)
        else if k >= |w.kevers[pre].keys| then (out, Fail(IndexError))
        else if w.kevers[pre].delpre.Some? && w.kevers[pre].last.delegated then
          if !MemberAt(w, pre, k) then (out.(gdee := Add(s.gdee, pre, p)), Pass)
          else
            var published := s.swain.(publishers := s.swain.publishers + {pre});
            if !HasDelegator(w, pre) then (out.(swain := published), Fail(ValidationError))
            else
              var submitted := published.(dpwe := s.swain.dpwe + {Held(w, pre, p.sn)});
              (out.(swain := submitted, gdee := Add(s.gdee, pre, p)), Pass)
        else
          var msgs := if MemberAt(w, pre, k) then [(pre, p.sn)] else [];
          (out.(msgs := s.msgs + msgs, gpwe := Add(s.gpwe, pre, p)), Pass)
  {
    hide Add;
    hide Delegation;
    DelegationStep(s.swain, w, pre, Some(p.sn), false);
    assert s.msgs + [] == s.msgs;
  }

  /** An approve round: the member with the first key records the entry when the Anchorer has
      a record at the latest number of the log; another member records a seal that some
      entry of the delegator's log holds, and asks for receipts next. */
  lemma ApproveStep(s: Group, w: World, pre: Pre, p: Pend)
    ensures var (s', r) := ApproveItem(s, w, pre, p);
      && r == (if pre !in w.habs || pre !in w.kevers then Fail(KeyError)
               else if w.kevers[pre].keys == [] then Fail(IndexError) else Pass)
      && (r != Pass ==> s' == s)
      && (r == Pass && MemberAt(w, pre, 0) ==>
            s' == if (pre, w.kevers[pre].last.sn) in s.swain.cdel
                  then s.(gdee := s.gdee - {pre}, cgms := map[(pre, p.sn) := p.diger] + s.cgms) else s)
      && (r == Pass && !MemberAt(w, pre, 0) ==>
            s' == if w.kevers[pre].delpre.Some? && exists sn: nat :: Seals(w, w.kevers[pre].delpre.value, sn, p.diger)
                  then s.(swain := s.swain.(aess := s'.swain.aess), gdee := s.gdee - {pre}, gpwe := Add(s.gpwe, pre, p))
                  else s)
  {
    hide Add;
    hide Seals;
    hide FetchSealing;
    if pre in w.kevers && w.kevers[pre].delpre.Some? {
      SealFound(w, w.kevers[pre].delpre.value, p.diger);
    }
    PutIs(s.cgms, pre, p);
    hide Put;
    hide Sealing;
  }

  lemma SealFound(w: World, pre: Pre, e: Ev)
    ensures Sealing(w, pre, e).Some? <==> exists sn: nat :: Seals(w, pre, sn, e)
  {
    if pre in w.kels { FetchSealingFinds(w, pre, e, 0); }
  }

  lemma PutIs(m: map<(Pre, nat), Ev>, pre: Pre, p: Pend)
    ensures Put(m, pre, p) == map[(pre, p.sn) := p.diger] + m
  {
    if (pre, p.sn) in m { assert map[(pre, p.sn) := p.diger] + m == m; }
    assert (pre, p.sn) !in m ==> map[(pre, p.sn) := p.diger] + m == m[(pre, p.sn) := p.diger];
  }

  /** A receipt round records an entry whose event has as many receipts as witnesses; the
      member with the first key, when there are witnesses, only once its Receiptor has
      reported the event.  Without them the other members ask for receipts, and that
      member does not. */
  lemma ReceiptStep(s: Group, w: World, pre: Pre, p: Pend)
    ensures var (s', r) := ReceiptItem(s, w, pre, p);
      var got := if p.diger.pre == pre && p.diger in w.wigs then |w.wigs[p.diger]| else 0;
      && r == (if pre !in w.habs || pre !in w.kevers then Fail(KeyError)
               else if w.kevers[pre].keys == [] then Fail(IndexError) else Pass)
      && (r != Pass ==> s' == s)
      && (r == Pass && got == w.kevers[pre].wits ==>
            s' == if MemberAt(w, pre, 0) && w.kevers[pre].wits > 0 && (pre, p.sn) !in w.gcues then s
                  else s.(gpwe := s.gpwe - {pre}, cgms := map[(pre, p.sn) := p.diger] + s.cgms))
      && (r == Pass && got != w.kevers[pre].wits ==>
            s' == s.(gets := s.gets + if MemberAt(w, pre, 0) then [] else [(pre, p.sn)]))
  {
    PutIs(s.cgms, pre, p);
    hide Put;
    assert s.gets + [] == s.gets;
  }
}
