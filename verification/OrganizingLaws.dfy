/** What the contact store of app/organizing.py promises: its index of fields is
    that of its records, so that listing and searching by it agree with get. */
module OrganizingLaws {
  import opened Results
  import opened Organizing

  /** Every record is signed as it is, and the index is the flattening of the
      records, the id aside. */
  ghost predicate Indexed(b: Book) {
    && b.cigs == b.data
    && (forall pre: Pre, f: Field | f != ID :: (pre, f) in b.fields <==> pre in b.data && f in b.data[pre])
    && (forall pre: Pre, f: Field | f != ID && (pre, f) in b.fields :: b.fields[(pre, f)] == b.data[pre][f])
    && (forall pre: Pre | (pre, ID) in b.fields :: pre in b.data)
  }

  /** The record of a prefix as get gives it. */
  ghost function Record(b: Book, pre: Pre): Option<Data> {
    if pre in b.data then Some(b.data[pre][ID := pre]) else None
  }

  lemma GetIsRecord(b: Book, pre: Pre)
    requires Indexed(b)
    ensures Get(b, pre) == Ok(Record(b, pre))
  {
  }

  lemma PinAllIs(fields: map<(Pre, Field), Val>, pre: Pre, data: Data)
    ensures var after := PinAll(fields, pre, data);
      && (forall q: Pre, f: Field :: (q, f) in after <==> (q, f) in fields || (q == pre && f in data))
      && (forall q: Pre, f: Field | (q, f) in after ::
            after[(q, f)] == if q == pre && f in data then data[f] else fields[(q, f)])
  {
  }

  /** Records and index stay alike when both take the same data on. */
  lemma PinnedIndexed(b: Book, pre: Pre, was: Data, data: Data)
    requires Indexed(b) && was == if pre in b.data then b.data[pre][ID := pre] else map[]
    ensures Indexed(Book(b.cigs[pre := was + data], b.data[pre := was + data], PinAll(b.fields, pre, data)))
  {
    hide PinAll;
    PinAllIs(b.fields, pre, data);
  }

  /** An update adds its data to the record and leaves the other records. */
  lemma {:induction false} UpdateMeans(b: Book, pre: Pre, data: Data)
    requires Indexed(b)
    ensures var (b', r) := Update(b, pre, data); var was := Record(b, pre);
      && r == Pass && Indexed(b')
      && Record(b', pre) == Some(((if was.None? then map[] else was.value) + data)[ID := pre])
      && (forall q: Pre | q != pre :: Record(b', q) == Record(b, q))
      && (forall q: Pre, f: Field | q != pre :: (q, f) in b'.fields <==> (q, f) in b.fields)
  {
    hide PinAll;
    hide Get;
    GetIsRecord(b, pre);
    PinAllIs(b.fields, pre, data);
    var was := Record(b, pre);
    PinnedIndexed(b, pre, if was.None? then map[] else was.value, data);
    hide Indexed;
  }

  lemma RemMeans(b: Book, pre: Pre)
    requires Indexed(b)
    ensures var b' := Rem(b, pre);
      && Indexed(b') && Record(b', pre) == None && (forall f: Field :: (pre, f) !in b'.fields)
      && (forall q: Pre | q != pre :: Record(b', q) == Record(b, q))
  {
  }

  lemma {:induction false} ReplaceMeans(b: Book, pre: Pre, data: Data)
    requires Indexed(b)
    ensures var (b', r) := Replace(b, pre, data);
      && r == Pass && Indexed(b') && Record(b', pre) == Some(data[ID := pre])
      && (forall q: Pre | q != pre :: Record(b', q) == Record(b, q))
      && (forall f: Field :: (pre, f) in b'.fields <==> f in data)
  {
    hide Update;
    hide Indexed;
    RemMeans(b, pre);
    UpdateMeans(Rem(b, pre), pre, data);
    assert map[] + data == data;
    ReplaceFields(b, pre, data);
  }

  lemma ReplaceFields(b: Book, pre: Pre, data: Data)
    requires Indexed(b)
    ensures forall f: Field :: (pre, f) in Replace(b, pre, data).0.fields <==> f in data
  {
  }

  /** set changes the one field of the record. */
  lemma SetMeans(b: Book, pre: Pre, field: Field, val: Val)
    requires Indexed(b)
    ensures var (b', r) := Set(b, pre, field, val); var was := Record(b, pre);
      && r == Pass && Indexed(b')
      && Record(b', pre) == Some((if was.None? then map[] else was.value)[field := val][ID := pre])
      && (forall q: Pre | q != pre :: Record(b', q) == Record(b, q))
  {
    hide Replace;
    GetIsRecord(b, pre);
    var was := Record(b, pre);
    var data := (if was.None? then map[] else was.value)[field := val];
    ReplaceMeans(b, pre, data);
    var b1 := Replace(b, pre, data).0;
    assert b1.data[pre][ID := pre] == data[ID := pre];
    assert field != ID ==> field in data[ID := pre] && data[ID := pre][field] == val;
    PinAgain(b1, pre, field, val);
  }

  lemma PinAgain(b: Book, pre: Pre, field: Field, val: Val)
    requires Indexed(b) && pre in b.data && (field != ID ==> field in b.data[pre] && b.data[pre][field] == val)
    ensures Indexed(b.(fields := b.fields[(pre, field) := val]))
  {
  }

  /** unset takes the one field out; without the record or the field it raises and
      changes nothing. */
  lemma {:induction false} UnsetMeans(b: Book, pre: Pre, field: Field)
    requires Indexed(b)
    ensures var (b', r) := Unset(b, pre, field); var was := Record(b, pre);
      && Indexed(b')
      && (forall q: Pre | q != pre :: Record(b', q) == Record(b, q))
      && match was
         case None => r == Fail(TypeError) && b' == b
         case Some(data) =>
           if field in data then r == Pass && Record(b', pre) == Some((data - {field})[ID := pre])
           else r == Fail(KeyError) && b' == b
  {
    hide Replace;
    GetIsRecord(b, pre);
    var was := Record(b, pre);
    if was.Some? && field in was.value {
      ReplaceMeans(b, pre, was.value - {field});
      Unpin(Replace(b, pre, was.value - {field}).0, pre, field);
    }
  }

  lemma Unpin(b: Book, pre: Pre, field: Field)
    requires Indexed(b) && (pre, field) !in b.fields
    ensures Indexed(b.(fields := b.fields - {(pre, field)}))
  {
  }

  /** After any run of calls the index is the flattening of the records, and get
      never finds a bad signature. */
  lemma {:induction false} RunsIndexed(ops: seq<Op>)
    ensures Indexed(Run(ops))
  {
    hide Indexed;
    if ops == [] {
      NothingIndexed();
    } else {
      hide Do;
      RunsIndexed(ops[..|ops| - 1]);
      DoIndexed(Run(ops[..|ops| - 1]), ops[|ops| - 1]);
    }
  }

  lemma {:induction false} DoIndexed(b: Book, op: Op)
    requires Indexed(b)
    ensures Indexed(Do(b, op).0)
  {
    hide Indexed;
    hide Record;
    hide Update;
    hide Replace;
    hide Set;
    hide Unset;
    hide Rem;
    match op
    case DoUpdate(pre, data) => UpdateMeans(b, pre, data);
    case DoReplace(pre, data) => ReplaceMeans(b, pre, data);
    case DoSet(pre, field, val) => SetMeans(b, pre, field, val);
    case DoUnset(pre, field) => UnsetMeans(b, pre, field);
    case DoRem(pre) => RemMeans(b, pre);
  }

  lemma NothingIndexed()
    ensures Indexed(Book(map[], map[], map[]))
  {
  }

  /** The items of an index, each once, those of a prefix together. */
  ghost predicate Enumerates(items: seq<Item>, fields: map<(Pre, Field), Val>) {
    && (forall i | 0 <= i < |items| :: items[i].0 in fields && fields[items[i].0] == items[i].1)
    && (forall k | k in fields :: (k, fields[k]) in items)
    && (forall i, j | 0 <= i < j < |items| :: items[i].0 != items[j].0)
    && Grouped(Pres(items))
  }

  /** The index as far as the first n items. */
  ghost function Part(items: seq<Item>, n: nat): map<(Pre, Field), Val>
    requires n <= |items|
  {
    if n == 0 then map[] else Part(items, n - 1)[items[n - 1].0 := items[n - 1].1]
  }

  /** The prefix of each item. */
  function Pres(items: seq<Item>): (ps: seq<Pre>)
    ensures |ps| == |items| && forall i | 0 <= i < |items| :: ps[i] == items[i].0.0
  {
    seq(|items|, i requires 0 <= i < |items| => items[i].0.0)
  }

  /** The same prefixes come together. */
  ghost predicate Grouped(ps: seq<Pre>) {
    forall i, j, k | 0 <= i < j < k < |ps| && ps[i] == ps[k] :: ps[j] == ps[i]
  }

  /** The first n prefixes, neighbours that are the same made one. */
  ghost function Heads(ps: seq<Pre>, n: nat): seq<Pre>
    requires n <= |ps|
  {
    if n == 0 then [] else
    var hs := Heads(ps, n - 1);
    if hs != [] && hs[|hs| - 1] == ps[n - 1] then hs else hs + [ps[n - 1]]
  }

  /** What list makes of a prefix: its id, and its fields in the index. */
  ghost function Listed(fields: map<(Pre, Field), Val>, pre: Pre): Data {
    map[ID := pre] + map f | f in (set k | k in fields && k.0 == pre :: k.1) :: fields[(pre, f)]
  }

  lemma ListedGrows(fields: map<(Pre, Field), Val>, k: (Pre, Field), v: Val, pre: Pre)
    ensures Listed(fields[k := v], pre) == if pre == k.0 then Listed(fields, pre)[k.1 := v] else Listed(fields, pre)
  {
    var fields' := fields[k := v];
    assert forall f :: (pre, f) in fields' <==> (pre, f) in fields || (pre, f) == k;
    if pre == k.0 {
      assert Listed(fields', pre).Keys == Listed(fields, pre)[k.1 := v].Keys;
    } else {
      assert Listed(fields', pre).Keys == Listed(fields, pre).Keys;
    }
  }

  ghost predicate HeadsSo(ps: seq<Pre>, n: nat)
    requires n <= |ps|
  {
    var hs := Heads(ps, n);
    && (forall i | 0 <= i < n :: ps[i] in hs)
    && (forall h | h in hs :: h in ps[..n])
    && (forall i, j | 0 <= i < j < |hs| :: hs[i] != hs[j])
    && (n > 0 ==> hs != [] && hs[|hs| - 1] == ps[n - 1])
  }

  /** A prefix that begins now has not been before. */
  lemma NewHead(ps: seq<Pre>, n: nat)
    requires Grouped(ps) && 1 < n <= |ps| && ps[n - 2] != ps[n - 1]
    ensures ps[n - 1] !in ps[..n - 1]
  {
    forall i | 0 <= i < n - 1 ensures ps[i] != ps[n - 1] {
      assert i < n - 2 ==> ps[i] != ps[n - 1];
    }
  }

  /** The prefixes so far, each once, the last item's last. */
  lemma {:induction false} HeadsAre(ps: seq<Pre>, n: nat)
    requires Grouped(ps) && n <= |ps|
    ensures HeadsSo(ps, n)
  {
    if n == 0 {
    } else {
      HeadsAre(ps, n - 1);
      if n > 1 && ps[n - 2] == ps[n - 1] {
        SameHead(ps, n);
      } else {
        if n > 1 { NewHead(ps, n); }
        OneMoreHead(ps, n);
      }
    }
  }

  lemma SameHead(ps: seq<Pre>, n: nat)
    requires 1 < n <= |ps| && ps[n - 2] == ps[n - 1] && HeadsSo(ps, n - 1)
    ensures HeadsSo(ps, n)
  {
    assert Heads(ps, n) == Heads(ps, n - 1);
    hide Heads;
    assert ps[..n] == ps[..n - 1] + [ps[n - 1]];
  }

  lemma OneMoreHead(ps: seq<Pre>, n: nat)
    requires 0 < n <= |ps| && ps[n - 1] !in ps[..n - 1] && HeadsSo(ps, n - 1)
    ensures HeadsSo(ps, n)
  {
    var hs, pre := Heads(ps, n - 1), ps[n - 1];
    assert pre !in hs;
    assert Heads(ps, n) == hs + [pre] by {
      assert hs != [] ==> hs[|hs| - 1] in hs;
    }
    hide Heads;
    assert ps[..n] == ps[..n - 1] + [pre];
  }

  /** list so far: one record for each prefix so far, from the index so far. */
  ghost predicate FoldSo(items: seq<Item>, n: nat)
    requires n <= |items|
  {
    var s, hs := ListTo(items, n), Heads(Pres(items), n);
    && (n == 0 ==> s.key == None && s.contacts == [])
    && (n > 0 ==>
          && hs != [] && s.key == Some(hs[|hs| - 1])
          && s.data == Listed(Part(items, n), hs[|hs| - 1]) && |s.contacts| == |hs| - 1)
    && (forall i | 0 <= i < |s.contacts| && i < |hs| :: s.contacts[i] == Listed(Part(items, n), hs[i]))
  }

  lemma ListedNone(fields: map<(Pre, Field), Val>, pre: Pre)
    requires forall k | k in fields :: k.0 != pre
    ensures Listed(fields, pre) == map[ID := pre]
  {
  }

  lemma {:induction false} PartKeys(items: seq<Item>, n: nat)
    requires n <= |items|
    ensures forall k | k in Part(items, n) :: k.0 in Pres(items)[..n]
  {
    if n == 0 {
    } else {
      PartKeys(items, n - 1);
      assert Pres(items)[..n] == Pres(items)[..n - 1] + [items[n - 1].0.0];
    }
  }

  lemma {:induction false} FoldIs(items: seq<Item>, n: nat)
    requires Grouped(Pres(items)) && n <= |items|
    ensures FoldSo(items, n)
  {
    hide FoldSo;
    hide Grouped;
    if n == 0 {
      FoldNone(items);
    } else {
      var ps, m := Pres(items), n - 1;
      FoldIs(items, m);
      HeadsAre(ps, m);
      HeadsAre(ps, n);
      if m > 0 && ps[m - 1] == ps[m] {
        FoldSame(items, n);
      } else {
        FreshListed(items, n);
        FoldNew(items, n);
      }
    }
  }

  lemma FoldNone(items: seq<Item>)
    ensures FoldSo(items, 0)
  {
    assert Heads(Pres(items), 0) == [];
  }

  /** One more item of the prefix that is open. */
  lemma {:induction false} FoldSame(items: seq<Item>, n: nat)
    requires 1 < n <= |items| && Pres(items)[n - 2] == Pres(items)[n - 1]
    requires FoldSo(items, n - 1) && HeadsSo(Pres(items), n - 1)
    ensures FoldSo(items, n)
  {
    hide Listed;
    hide Part;
    hide Pres;
    var hs, fields := Heads(Pres(items), n - 1), Part(items, n - 1);
    var (k, v) := items[n - 1];
    assert Heads(Pres(items), n) == hs && hs[|hs| - 1] == k.0;
    PartGrows(items, n);
    ListedGrows(fields, k, v, k.0);
    forall i | 0 <= i < |hs| - 1 ensures Listed(fields[k := v], hs[i]) == Listed(fields, hs[i]) {
      ListedGrows(fields, k, v, hs[i]);
    }
  }

  /** An item that opens a prefix closes the one before. */
  lemma {:induction false} FoldNew(items: seq<Item>, n: nat)
    requires 0 < n <= |items| && (n == 1 || Pres(items)[n - 2] != Pres(items)[n - 1])
    requires FoldSo(items, n - 1) && HeadsSo(Pres(items), n - 1) && HeadsSo(Pres(items), n)
    requires Listed(Part(items, n - 1), items[n - 1].0.0) == map[ID := items[n - 1].0.0]
    ensures FoldSo(items, n)
  {
    hide Listed;
    hide Part;
    hide Pres;
    var hs, fields := Heads(Pres(items), n - 1), Part(items, n - 1);
    var (k, v) := items[n - 1];
    assert Heads(Pres(items), n) == hs + [k.0];
    PartGrows(items, n);
    ListedGrows(fields, k, v, k.0);
    forall i | 0 <= i < |hs| ensures Listed(fields[k := v], hs[i]) == Listed(fields, hs[i]) {
      assert (hs + [k.0])[i] == hs[i];
      ListedGrows(fields, k, v, hs[i]);
    }
  }

  lemma PartGrows(items: seq<Item>, n: nat)
    requires 0 < n <= |items|
    ensures Part(items, n) == Part(items, n - 1)[items[n - 1].0 := items[n - 1].1]
  {
  }

  /** Nothing is listed yet of a prefix that begins now. */
  lemma FreshListed(items: seq<Item>, n: nat)
    requires Grouped(Pres(items)) && 0 < n <= |items|
    requires n == 1 || Pres(items)[n - 2] != Pres(items)[n - 1]
    ensures Listed(Part(items, n - 1), items[n - 1].0.0) == map[ID := items[n - 1].0.0]
  {
    hide Listed;
    hide Pres;
    var pre := items[n - 1].0.0;
    if n == 1 {
      ListedNone(map[], pre);
    } else {
      PartKeys(items, n - 1);
      hide Part;
      NewHead(Pres(items), n);
      hide Grouped;
      ListedNone(Part(items, n - 1), pre);
    }
  }

  lemma {:induction false} PartIs(items: seq<Item>, fields: map<(Pre, Field), Val>, n: nat)
    requires Enumerates(items, fields) && n <= |items|
    ensures forall k | k in Part(items, n) :: k in fields && Part(items, n)[k] == fields[k]
    ensures forall i | 0 <= i < n :: items[i].0 in Part(items, n)
  {
    hide Grouped;
    hide Pres;
    if n == 0 {
    } else {
      PartIs(items, fields, n - 1);
      hide Part;
      PartGrows(items, n);
      assert items[n - 1].0 in fields && fields[items[n - 1].0] == items[n - 1].1;
      hide Enumerates;
    }
  }

  lemma PartWhole(items: seq<Item>, fields: map<(Pre, Field), Val>)
    requires Enumerates(items, fields)
    ensures Part(items, |items|) == fields
  {
    PartIs(items, fields, |items|);
    forall k | k in fields ensures k in Part(items, |items|) {
      var i :| 0 <= i < |items| && items[i] == (k, fields[k]);
    }
  }

  /** The prefixes that have fields. */
  ghost function Fielded(fields: map<(Pre, Field), Val>): set<Pre> { set k | k in fields :: k.0 }

  lemma {:induction false} HeadsFielded(items: seq<Item>, fields: map<(Pre, Field), Val>, pre: Pre)
    requires Enumerates(items, fields) && HeadsSo(Pres(items), |items|)
    ensures pre in Heads(Pres(items), |items|) <==> pre in Fielded(fields)
  {
    hide Grouped;
    hide Heads;
    var n, ps := |items|, Pres(items);
    assert ps[..n] == ps;
    if pre in Heads(ps, n) {
      assert pre in ps;
      var i :| 0 <= i < n && ps[i] == pre;
      assert items[i].0 in fields;
    }
    if pre in Fielded(fields) {
      ItemOf(items, fields, pre);
    }
  }

  lemma ItemOf(items: seq<Item>, fields: map<(Pre, Field), Val>, pre: Pre)
    requires Enumerates(items, fields) && pre in Fielded(fields)
    ensures exists i :: 0 <= i < |items| && Pres(items)[i] == pre
  {
    hide Grouped;
    var k :| k in fields && k.0 == pre;
    assert (k, fields[k]) in items;
    var i :| 0 <= i < |items| && items[i] == (k, fields[k]);
    assert Pres(items)[i] == pre;
  }

  lemma {:induction false} ListRecords(items: seq<Item>)
    requires FoldSo(items, |items|)
    ensures var hs := Heads(Pres(items), |items|);
      |ListAll(items)| == |hs| && forall i | 0 <= i < |hs| :: ListAll(items)[i] == Listed(Part(items, |items|), hs[i])
  {
    hide Listed;
    hide Part;
    if items == [] {
      assert Heads(Pres(items), 0) == [];
    }
  }

  /** list returns one record for each prefix that has fields in the index. */
  lemma ListIsListed(items: seq<Item>, fields: map<(Pre, Field), Val>)
    requires Enumerates(items, fields)
    ensures var hs := Heads(Pres(items), |items|);
      && |ListAll(items)| == |hs|
      && (forall i | 0 <= i < |hs| :: ListAll(items)[i] == Listed(fields, hs[i]))
      && (forall i, j | 0 <= i < j < |hs| :: hs[i] != hs[j])
      && (forall pre :: pre in hs <==> pre in Fielded(fields))
  {
    hide Listed;
    hide Part;
    hide FoldSo;
    hide Fielded;
    hide ListAll;
    hide Heads;
    hide Pres;
    FoldIs(items, |items|);
    ListRecords(items);
    HeadsAre(Pres(items), |items|);
    PartWhole(items, fields);
    forall pre ensures pre in Heads(Pres(items), |items|) <==> pre in Fielded(fields) {
      HeadsFielded(items, fields, pre);
    }
  }

  /** What list gives for a prefix is what get gives, just when the index has no id
      for it or the right one; an id among the data of an update shows in list
      and not in get. */
  lemma ListedIsRecord(b: Book, pre: Pre)
    requires Indexed(b) && pre in Fielded(b.fields)
    ensures Record(b, pre).Some?
    ensures Listed(b.fields, pre) == Record(b, pre).value <==> ((pre, ID) in b.fields ==> b.fields[(pre, ID)] == pre)
  {
    var l := Listed(b.fields, pre);
    var r := Record(b, pre).value;
    assert forall f: Field :: f in l <==> f == ID || (pre, f) in b.fields;
    assert forall f: Field | f != ID :: f in l <==> f in r;
    assert l.Keys == r.Keys;
    assert forall f: Field | f != ID && f in l :: l[f] == r[f];
    assert l[ID] == if (pre, ID) in b.fields then b.fields[(pre, ID)] else pre;
  }

  /** After any run of calls list returns, for each prefix that has fields, one
      record, and that is the one of get unless the index has another id. */
  lemma {:induction false} ListAgrees(ops: seq<Op>, items: seq<Item>, i: nat)
    requires Enumerates(items, Run(ops).fields) && i < |ListAll(items)|
    ensures i < |Heads(Pres(items), |items|)|
    ensures var b, pre := Run(ops), Heads(Pres(items), |items|)[i];
      && Get(b, pre).Ok? && Get(b, pre).value.Some?
      && (ListAll(items)[i] == Get(b, pre).value.value <==> ((pre, ID) in b.fields ==> b.fields[(pre, ID)] == pre))
  {
    hide Listed;
    hide Indexed;
    RunsIndexed(ops);
    ListIsListed(items, Run(ops).fields);
    var pre := Heads(Pres(items), |items|)[i];
    assert pre in Heads(Pres(items), |items|);
    ListedIsRecord(Run(ops), pre);
    GetIsRecord(Run(ops), pre);
  }

  lemma MatchesLast(items: seq<Item>, field: Field, val: Val)
    requires items != []
    ensures var n := |items| - 1;
      Matches(items, field, val)
        == Matches(items[..n], field, val) + if items[n] == ((items[n].0.0, field), val) then [items[n].0.0] else []
  {
  }

  lemma {:induction false} MatchesAre(items: seq<Item>, field: Field, val: Val, pre: Pre)
    ensures pre in Matches(items, field, val) <==> ((pre, field), val) in items
  {
    if items == [] {
    } else {
      var n := |items| - 1;
      MatchesAre(items[..n], field, val, pre);
      MatchesLast(items, field, val);
      assert items == items[..n] + [items[n]];
    }
  }

  lemma {:induction false} MatchesOnce(items: seq<Item>, field: Field, val: Val)
    requires forall i, j | 0 <= i < j < |items| :: items[i].0 != items[j].0
    ensures var found := Matches(items, field, val); forall i, j | 0 <= i < j < |found| :: found[i] != found[j]
  {
    hide Matches;
    if items != [] {
      var n := |items| - 1;
      MatchesOnce(items[..n], field, val);
      MatchesLast(items, field, val);
      var found, pre := Matches(items[..n], field, val), items[n].0.0;
      if items[n] == ((pre, field), val) && pre in found {
        MatchesAre(items[..n], field, val, pre);
        assert false;
      }
    } else {
      NoMatches(field, val);
    }
  }

  lemma NoMatches(field: Field, val: Val)
    ensures Matches([], field, val) == []
  {
  }

  /** The id of pre in the index after one more call, id the one before: what the call
      gives; pre, which get puts among the data, after set and unset of a record; none
      once the record is replaced or removed. */
  function IdAfter(b: Book, op: Op, pre: Pre, id: Option<Val>): Option<Val> {
    if op.pre != pre then id else
    match op
    case DoUpdate(_, data) => if ID in data then Some(data[ID]) else id
    case DoReplace(_, data) => if ID in data then Some(data[ID]) else None
    case DoSet(_, field, val) => if field == ID then Some(val) else if pre in b.data then Some(pre) else None
    case DoUnset(_, field) =>
      if pre !in b.data || (field != ID && field !in b.data[pre]) then id
      else if field == ID then None else Some(pre)
    case DoRem(_) => None
  }

  function LastId(ops: seq<Op>, pre: Pre): Option<Val> {
    if ops == [] then None else
    var fore := ops[..|ops| - 1];
    IdAfter(Run(fore), ops[|ops| - 1], pre, LastId(fore, pre))
  }

  function IndexId(b: Book, pre: Pre): Option<Val> {
    if (pre, ID) in b.fields then Some(b.fields[(pre, ID)]) else None
  }

  lemma ReplaceId(b: Book, pre: Pre, data: Data, q: Pre)
    requires Indexed(b)
    ensures IndexId(Replace(b, pre, data).0, q)
      == if q != pre then IndexId(b, q) else if ID in data then Some(data[ID]) else None
  {
    hide PinAll;
    hide Indexed;
    RemMeans(b, pre);
    GetIsRecord(Rem(b, pre), pre);
    PinAllIs(Rem(b, pre).fields, pre, data);
  }

  lemma UpdateId(b: Book, pre: Pre, data: Data, q: Pre)
    requires Indexed(b)
    ensures IndexId(Update(b, pre, data).0, q) == if q == pre && ID in data then Some(data[ID]) else IndexId(b, q)
  {
    hide PinAll;
    hide Get;
    hide Indexed;
    GetIsRecord(b, pre);
    PinAllIs(b.fields, pre, data);
  }

  lemma SetId(b: Book, pre: Pre, field: Field, val: Val, q: Pre)
    requires Indexed(b)
    ensures IndexId(Set(b, pre, field, val).0, q) == IdAfter(b, DoSet(pre, field, val), q, IndexId(b, q))
  {
    hide Replace;
    hide Get;
    hide Indexed;
    GetIsRecord(b, pre);
    var was := Record(b, pre);
    var data := (if was.None? then map[] else was.value)[field := val];
    ReplaceId(b, pre, data, q);
    ReplaceMeans(b, pre, data);
  }

  lemma UnsetId(b: Book, pre: Pre, field: Field, q: Pre)
    requires Indexed(b)
    ensures IndexId(Unset(b, pre, field).0, q) == IdAfter(b, DoUnset(pre, field), q, IndexId(b, q))
  {
    hide Replace;
    hide Get;
    hide Indexed;
    GetIsRecord(b, pre);
    if pre in b.data {
      var was := Record(b, pre).value;
      ReplaceId(b, pre, was - {field}, q);
      ReplaceMeans(b, pre, was - {field});
    }
  }

  lemma DoId(b: Book, op: Op, pre: Pre)
    requires Indexed(b)
    ensures IndexId(Do(b, op).0, pre) == IdAfter(b, op, pre, IndexId(b, pre))
  {
    hide Indexed;
    match op
    case DoUpdate(q, data) =>
      hide Update;
      UpdateId(b, q, data, pre);
    case DoReplace(q, data) =>
      hide Replace;
      ReplaceId(b, q, data, pre);
    case DoSet(q, field, val) =>
      hide Set;
      SetId(b, q, field, val, pre);
    case DoUnset(q, field) =>
      hide Unset;
      UnsetId(b, q, field, pre);
    case DoRem(q) =>
  }

  /** The id in the index is the one the calls leave. */
  lemma {:induction false} LastIdIs(ops: seq<Op>, pre: Pre)
    ensures IndexId(Run(ops), pre) == LastId(ops, pre)
  {
    hide Do;
    hide IdAfter;
    if ops == [] {
    } else {
      LastIdIs(ops[..|ops| - 1], pre);
      RunsIndexed(ops[..|ops| - 1]);
      DoId(Run(ops[..|ops| - 1]), ops[|ops| - 1], pre);
    }
  }

  /** findExact finds, each once, exactly the prefixes whose record has the value; by id
      it finds exactly those whose id the calls have left in the index, whereas the
      id of every record is its prefix. */
  lemma FindExactFinds(ops: seq<Op>, items: seq<Item>, field: Field, val: Val)
    requires Enumerates(items, Run(ops).fields)
    ensures var found := Matches(items, field, val); forall i, j | 0 <= i < j < |found| :: found[i] != found[j]
    ensures forall pre :: pre in Matches(items, field, val) <==>
      if field == ID then LastId(ops, pre) == Some(val)
      else var r := Get(Run(ops), pre); r.Ok? && r.value.Some? && field in r.value.value && r.value.value[field] == val
    ensures forall pre | pre in Matches(items, field, val) ::
      var r := Get(Run(ops), pre); r.Ok? && r.value.Some? && ID in r.value.value && r.value.value[ID] == pre
  {
    hide Grouped;
    hide Run;
    hide LastId;
    var b := Run(ops);
    RunsIndexed(ops);
    MatchesOnce(items, field, val);
    forall pre
      ensures pre in Matches(items, field, val) <==> (pre, field) in b.fields && b.fields[(pre, field)] == val
    {
      MatchesAre(items, field, val, pre);
      if (pre, field) in b.fields && b.fields[(pre, field)] == val {
        assert ((pre, field), b.fields[(pre, field)]) in items;
      }
    }
    forall pre: Pre ensures IndexId(b, pre) == LastId(ops, pre) {
      LastIdIs(ops, pre);
    }
  }

  /** An id among the data of an update shows in list and not in get. */
  lemma ForeignIdShows(pre: Pre, other: Val)
    requires other != pre
    ensures var b := Run([DoUpdate(pre, map[ID := other])]);
      && Enumerates([((pre, ID), other)], b.fields)
      && ListAll([((pre, ID), other)]) == [map[ID := other]]
      && Get(b, pre) == Ok(Some(map[ID := pre]))
  {
    hide Update;
    hide Enumerates;
    hide ListAll;
    var ops := [DoUpdate(pre, map[ID := other])];
    assert ops[..0] == [];
    assert Run(ops) == Update(Book(map[], map[], map[]), pre, map[ID := other]).0;
    ForeignIdStored(pre, other);
    ForeignIdListed(pre, other);
  }

  lemma ForeignIdStored(pre: Pre, other: Val)
    ensures var data: Data := map[ID := other];
      Update(Book(map[], map[], map[]), pre, data).0
        == Book(map[pre := data], map[pre := data], map[(pre, ID) := other])
  {
    var data: Data := map[ID := other];
    assert map[] + data == data;
    PinAllIs(map[], pre, data);
    assert PinAll(map[], pre, data) == map[(pre, ID) := other];
  }

  lemma ForeignIdListed(pre: Pre, other: Val)
    ensures var items: seq<Item> := [((pre, ID), other)];
      Enumerates(items, map[(pre, ID) := other]) && ListAll(items) == [map[ID := other]]
    ensures map[ID := other][ID := pre] == map[ID := pre]
  {
    var items: seq<Item> := [((pre, ID), other)];
    assert ListTo(items, 0) == Fold(None, map[], []);
    assert map[ID := pre][ID := other] == map[ID := other];
    assert ListTo(items, 1) == Fold(Some(pre), map[ID := other], []);
  }
}
