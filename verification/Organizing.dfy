/** app/organizing.py: contact records, and the index of their fields. */
module Organizing {
  import opened Results

  type Pre = nat
  type Field = nat
  type Val = nat
  type Data = map<Field, Val>

  /** The field "id". */
  const ID: Field := 0

  /** The signatures, by what they sign; the records; the index of fields. */
  datatype Book = Book(cigs: map<Pre, Data>, data: map<Pre, Data>, fields: map<(Pre, Field), Val>)

  /** get of a whole record, which names its prefix as its id. */
  function Get(b: Book, pre: Pre): Result<Option<Data>> {
    if pre !in b.data then Ok(None)
    else if pre !in b.cigs || b.cigs[pre] != b.data[pre] then Err(ValidationError)
    else Ok(Some(b.data[pre][ID := pre]))
  }

  /** The index with every field of data pinned under pre. */
  function PinAll(fields: map<(Pre, Field), Val>, pre: Pre, data: Data): map<(Pre, Field), Val> {
    fields + map k | k in (set f | f in data :: (pre, f)) :: data[k.1]
  }

  /** The index without the fields of pre. */
  function Trim(fields: map<(Pre, Field), Val>, pre: Pre): map<(Pre, Field), Val> {
    map k | k in fields && k.0 != pre :: fields[k]
  }

  function Update(b: Book, pre: Pre, data: Data): (Book, Outcome) {
    match Get(b, pre)
    case Err(e) => (b, Fail(e))
    case Ok(found) =>
      var existing := (if found.None? then map[] else found.value) + data;
      (Book(b.cigs[pre := existing], b.data[pre := existing], PinAll(b.fields, pre, data)), Pass)
  }

  function Rem(b: Book, pre: Pre): Book {
    Book(b.cigs - {pre}, b.data - {pre}, Trim(b.fields, pre))
  }

  function Replace(b: Book, pre: Pre, data: Data): (Book, Outcome) {
    Update(Rem(b, pre), pre, data)
  }

  function Set(b: Book, pre: Pre, field: Field, val: Val): (Book, Outcome) {
    match Get(b, pre)
    case Err(e) => (b, Fail(e))
    case Ok(found) =>
      var data := (if found.None? then map[] else found.value)[field := val];
      var (b1, r) := Replace(b, pre, data);
      if r.Fail? then (b1, r) else (b1.(fields := b1.fields[(pre, field) := val]), Pass)
  }

  function Unset(b: Book, pre: Pre, field: Field): (Book, Outcome) {
    match Get(b, pre)
    case Err(e) => (b, Fail(e))
    case Ok(None) => (b, Fail(TypeError))
    case Ok(Some(data)) =>
      if field !in data then (b, Fail(KeyError)) else
      var (b1, r) := Replace(b, pre, data - {field});
      if r.Fail? then (b1, r) else (b1.(fields := b1.fields - {(pre, field)}), Pass)
  }

  type Item = ((Pre, Field), Val)

  /** list, over the index in the order of its keys: a record is closed when the
      prefix changes. */
  datatype Fold = Fold(key: Option<Pre>, data: Data, contacts: seq<Data>)

  function ListTo(items: seq<Item>, n: nat): Fold
    requires n <= |items|
  {
    if n == 0 then Fold(None, map[], []) else
    var s := ListTo(items, n - 1);
    var ((pre, field), val) := items[n - 1];
    var s1 := if s.key == Some(pre) then s
              else Fold(Some(pre), map[ID := pre], if s.key.Some? then s.contacts + [s.data] else s.contacts);
    s1.(data := s1.data[field := val])
  }

  function ListAll(items: seq<Item>): seq<Data> {
    var s := ListTo(items, |items|);
    if s.key.Some? then s.contacts + [s.data] else s.contacts
  }

  /** The prefixes findExact finds, in the order of the index. */
  function Matches(items: seq<Item>, field: Field, val: Val): seq<Pre> {
    if items == [] then [] else
    var ((pre, f), v) := items[|items| - 1];
    Matches(items[..|items| - 1], field, val) + if f == field && v == val then [pre] else []
  }

  /** A call that writes. */
  datatype Op =
    | DoUpdate(pre: Pre, data: Data)
    | DoReplace(pre: Pre, data: Data)
    | DoSet(pre: Pre, field: Field, val: Val)
    | DoUnset(pre: Pre, field: Field)
    | DoRem(pre: Pre)

  function Do(b: Book, op: Op): (Book, Outcome) {
    match op
    case DoUpdate(pre, data) => Update(b, pre, data)
    case DoReplace(pre, data) => Replace(b, pre, data)
    case DoSet(pre, field, val) => Set(b, pre, field, val)
    case DoUnset(pre, field) => Unset(b, pre, field)
    case DoRem(pre) => (Rem(b, pre), Pass)
  }

  function Run(ops: seq<Op>): Book {
    if ops == [] then Book(map[], map[], map[]) else Do(Run(ops[..|ops| - 1]), ops[|ops| - 1]).0
  }
}
