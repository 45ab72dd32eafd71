/** The BaseOrganizer of app/organizing.py as an object over its databases. */
module OrganizerObject {
  import opened Results
  import opened Organizing
  import opened OrganizingLaws

  lemma PinNone(fields: map<(Pre, Field), Val>, pre: Pre)
    ensures PinAll(fields, pre, map[]) == fields
  {
  }

  lemma PinMore(fields: map<(Pre, Field), Val>, pre: Pre, data: Data, f: Field, val: Val)
    ensures PinAll(fields, pre, data[f := val]) == PinAll(fields, pre, data)[(pre, f) := val]
  {
    hide PinAll;
    PinAllIs(fields, pre, data);
    PinAllIs(fields, pre, data[f := val]);
    var a, b := PinAll(fields, pre, data[f := val]), PinAll(fields, pre, data)[(pre, f) := val];
    forall k: (Pre, Field) ensures (k in a <==> k in b) && (k in a ==> a[k] == b[k]) {
      var (q, g) := k;
    }
  }

  class Organizer {
    var cigsdb: map<Pre, Data>
    var datadb: map<Pre, Data>
    var fielddb: map<(Pre, Field), Val>

    function Abs(): Book
      reads this
    {
      Book(cigsdb, datadb, fielddb)
    }

    constructor ()
      ensures Abs() == Book(map[], map[], map[])
    {
      cigsdb, datadb, fielddb := map[], map[], map[];
    }

    /** Pins the fields of data one by one, in whatever order they come. */
    method PinFields(pre: Pre, data: Data)
      modifies this`fielddb
      ensures fielddb == PinAll(old(fielddb), pre, data)
    {
      hide PinAll;
      var todo := data.Keys;
      ghost var done: Data := map[];
      PinNone(fielddb, pre);
      while todo != {}
        invariant todo <= data.Keys && done.Keys == data.Keys - todo
        invariant forall f | f in done :: done[f] == data[f]
        invariant fielddb == PinAll(old(fielddb), pre, done)
        decreases |todo|
      {
        var f :| f in todo;
        todo := todo - {f};
        PinMore(old(fielddb), pre, done, f, data[f]);
        fielddb := fielddb[(pre, f) := data[f]];
        done := done[f := data[f]];
      }
      assert done == data;
    }

    method Update(pre: Pre, data: Data) returns (r: Outcome)
      modifies this
      ensures (Abs(), r) == Organizing.Update(old(Abs()), pre, data)
    {
      hide PinAll;
      var found := Get(Abs(), pre);
      if found.Err? { return Fail(found.error); }
      var existing: Data := if found.value.None? then map[] else found.value.value;
      existing := existing + data;
      cigsdb := cigsdb[pre := existing];
      datadb := datadb[pre := existing];
      PinFields(pre, data);
      return Pass;
    }

    method Rem(pre: Pre)
      modifies this
      ensures Abs() == Organizing.Rem(old(Abs()), pre)
    {
      cigsdb := cigsdb - {pre};
      datadb := datadb - {pre};
      fielddb := Trim(fielddb, pre);
    }

    method Replace(pre: Pre, data: Data) returns (r: Outcome)
      modifies this
      ensures (Abs(), r) == Organizing.Replace(old(Abs()), pre, data)
    {
      Rem(pre);
      r := Update(pre, data);
    }

    method Set(pre: Pre, field: Field, val: Val) returns (r: Outcome)
      modifies this
      ensures (Abs(), r) == Organizing.Set(old(Abs()), pre, field, val)
    {
      hide Organizing.Replace;
      var found := Get(Abs(), pre);
      if found.Err? { return Fail(found.error); }
      var data: Data := if found.value.None? then map[] else found.value.value;
      data := data[field := val];
      r := Replace(pre, data);
      if r.Fail? { return; }
      fielddb := fielddb[(pre, field) := val];
    }

    method Unset(pre: Pre, field: Field) returns (r: Outcome)
      modifies this
      ensures (Abs(), r) == Organizing.Unset(old(Abs()), pre, field)
    {
      hide Organizing.Replace;
      var found := Get(Abs(), pre);
      if found.Err? { return Fail(found.error); }
      if found.value.None? { return Fail(TypeError); }
      var data := found.value.value;
      if field !in data { return Fail(KeyError); }
      data := data - {field};
      r := Replace(pre, data);
      if r.Fail? { return; }
      fielddb := fielddb - {(pre, field)};
    }

    /** list, over the items of the index in the order of their keys. */
    method List(items: seq<Item>) returns (contacts: seq<Data>)
      ensures contacts == ListAll(items)
    {
      var key: Option<Pre>, data: Data := None, map[];
      contacts := [];
      for n := 0 to |items|
        invariant ListTo(items, n) == Fold(key, data, contacts)
      {
        var ((pre, field), val) := items[n];
        if key != Some(pre) {
          if key.Some? { contacts := contacts + [data]; }
          data := map[ID := pre];
          key := Some(pre);
        }
        data := data[field := val];
      }
      if key.Some? { contacts := contacts + [data]; }
    }

    /** findExact: the record of every prefix whose field has the value. */
    method FindExact(items: seq<Item>, field: Field, val: Val) returns (found: seq<Result<Option<Data>>>)
      ensures |found| == |Matches(items, field, val)|
      ensures forall i | 0 <= i < |found| :: found[i] == Get(Abs(), Matches(items, field, val)[i])
    {
      var pres := [];
      for n := 0 to |items|
        invariant pres == Matches(items[..n], field, val)
      {
        assert items[..n + 1][..n] == items[..n];
        var ((pre, f), v) := items[n];
        if f == field && v == val { pres := pres + [pre]; }
      }
      assert items[..|items|] == items;
      found := [];
      for n := 0 to |pres|
        invariant |found| == n && forall i | 0 <= i < n :: found[i] == Get(Abs(), pres[i])
      {
        found := found + [Get(Abs(), pres[n])];
      }
    }
  }
}
