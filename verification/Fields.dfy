/** The insertion-ordered field list of a message (`Fields` in lxmf/src/fields.rs). */
module Fields {
  import opened Octets
  import opened Msgpack

  datatype Field = Field(id: Byte, value: Value)

  datatype FieldError = UnsupportedFieldKey | NotAMap

  /** The position of `id`, or the length of the list. */
  function IndexOf(entries: seq<Field>, id: Byte): (k: nat)
    ensures k <= |entries|
    ensures k < |entries| ==> entries[k].id == id
    ensures forall j :: 0 <= j < k ==> entries[j].id != id
  {
    if entries == [] || entries[0].id == id then 0 else 1 + IndexOf(entries[1..], id)
  }

  function Inserted(entries: seq<Field>, id: Byte, value: Value): seq<Field> {
    var k := IndexOf(entries, id);
    if k < |entries| then entries[k := Field(id, value)] else entries + [Field(id, value)]
  }

  function Removed(entries: seq<Field>, id: Byte): seq<Field> {
    var k := IndexOf(entries, id);
    if k < |entries| then entries[..k] + entries[k + 1..] else entries
  }

  function Get(entries: seq<Field>, id: Byte): Option<Value> {
    var k := IndexOf(entries, id);
    if k < |entries| then Some(entries[k].value) else None
  }

  class Fields {
    var entries: seq<Field>

    constructor ()
      ensures entries == []
    {
      entries := [];
    }

    method Insert(id: Byte, value: Value)
      modifies this
      ensures entries == Inserted(old(entries), id, value)
    {
      var k := Position(id);
      if k < |entries| {
        entries := entries[k := Field(id, value)];
      } else {
        entries := entries + [Field(id, value)];
      }
    }

    method Remove(id: Byte) returns (value: Option<Value>)
      modifies this
      ensures value == Get(old(entries), id)
      ensures entries == Removed(old(entries), id)
    {
      var k := Position(id);
      if k == |entries| {
        return None;
      }
      value := Some(entries[k].value);
      entries := entries[..k] + entries[k + 1..];
    }

    /** The linear search shared by `insert`, `get`, `remove` and `contains_key`. */
    method Position(id: Byte) returns (k: nat)
      ensures k == IndexOf(entries, id)
    {
      k := 0;
      while k < |entries| && entries[k].id != id
        invariant k <= |entries|
        invariant forall j :: 0 <= j < k ==> entries[j].id != id
      {
        k := k + 1;
      }
    }
  }

  // ---- A dictionary that remembers insertion order ------------------------------------------

  predicate Distinct(entries: seq<Field>) {
    forall i, j :: 0 <= i < j < |entries| ==> entries[i].id != entries[j].id
  }

  function Ids(entries: seq<Field>): (ids: seq<Byte>)
    ensures |ids| == |entries|
    ensures forall k :: 0 <= k < |ids| ==> ids[k] == entries[k].id
  {
    seq(|entries|, k requires 0 <= k < |entries| => entries[k].id)
  }

  /** What any reader of the list sees: a finite map. */
  ghost function Dictionary(entries: seq<Field>): map<Byte, Value> {
    map id: Byte | IndexOf(entries, id) < |entries| :: entries[IndexOf(entries, id)].value
  }

  /** Inserting is dictionary update, keeps ids unique, and never moves an id already present. */
  lemma InsertedIsUpdate(entries: seq<Field>, id: Byte, value: Value)
    requires Distinct(entries)
    ensures var after := Inserted(entries, id, value);
            && Distinct(after)
            && Dictionary(after) == Dictionary(entries)[id := value]
            && Ids(after) == (if id in Dictionary(entries) then Ids(entries) else Ids(entries) + [id])
  {
    var after := Inserted(entries, id, value);
    forall other: Byte
      ensures other in Dictionary(after) <==> other in Dictionary(entries)[id := value]
      ensures other in Dictionary(after) ==> Dictionary(after)[other] == Dictionary(entries)[id := value][other]
    {
      InsertedGet(entries, id, value, other);
    }
  }

  lemma InsertedGet(entries: seq<Field>, id: Byte, value: Value, other: Byte)
    ensures Get(Inserted(entries, id, value), other) == if other == id then Some(value) else Get(entries, other)
  {
    var after := Inserted(entries, id, value);
    var k, j := IndexOf(entries, other), IndexOf(after, other);
    if other != id && k < |entries| {
      assert after[k].id == other;
    }
    if other != id && j < |entries| {
      assert entries[j].id == other;
    }
    if other == id {
      assert after[IndexOf(entries, id)].id == id;
    }
  }

  /** Removing deletes the id from the dictionary and leaves the order of the others. */
  lemma RemovedIsDeletion(entries: seq<Field>, id: Byte)
    requires Distinct(entries)
    ensures var after := Removed(entries, id);
            Distinct(after) && Dictionary(after) == Dictionary(entries) - {id}
  {
    hide Removed, Distinct;
    RemovedIsDistinct(entries, id);
    var after := Removed(entries, id);
    forall other: Byte
      ensures other in Dictionary(after) <==> other in Dictionary(entries) && other != id
      ensures other in Dictionary(after) ==> Dictionary(after)[other] == Dictionary(entries)[other]
    {
      RemovedGet(entries, id, other);
    }
  }

  lemma RemovedIsDistinct(entries: seq<Field>, id: Byte)
    requires Distinct(entries)
    ensures Distinct(Removed(entries, id))
  {
    hide IndexOf;
    var k, after := IndexOf(entries, id), Removed(entries, id);
    forall i, j | 0 <= i < j < |after| ensures after[i].id != after[j].id {
      assert after[i] == entries[if i < k then i else i + 1];
      assert after[j] == entries[if j < k then j else j + 1];
    }
  }

  lemma RemovedGet(entries: seq<Field>, id: Byte, other: Byte)
    requires Distinct(entries)
    ensures Get(Removed(entries, id), other) == if other == id then None else Get(entries, other)
  {
    var after := Removed(entries, id);
    var k, i, j := IndexOf(entries, id), IndexOf(entries, other), IndexOf(after, other);
    if other != id && i < |entries| {
      assert after[if i < k then i else i - 1] == entries[i];
    }
    if j < |after| {
      assert entries[if j < k then j else j + 1] == after[j];
    }
  }

  // ---- The wire form ------------------------------------------------------------------------

  /** `Fields::pack`: the map head, then every id as an unsigned integer followed by its value. */
  function PackFields(entries: seq<Field>): Bytes {
    WriteMapLen(Len32(|entries|)) + PackFieldEntries(entries)
  }

  function PackFieldEntries(entries: seq<Field>): Bytes {
    if entries == [] then [] else WriteUint(entries[0].id) + Pack(entries[0].value) + PackFieldEntries(entries[1..])
  }

  method PackInto(fields: Fields, out: Bytes) returns (packed: Bytes)
    ensures packed == out + PackFields(fields.entries)
  {
    var entries := fields.entries;
    packed := out + WriteMapLen(Len32(|entries|));
    for k := 0 to |entries|
      invariant packed + PackFieldEntries(entries[k..]) == out + PackFields(entries)
    {
      packed := packed + (WriteUint(entries[k].id) + Pack(entries[k].value));
      assert entries[k..][1..] == entries[k + 1..];
    }
  }

  /** The MessagePack map a receiver finds in place of the field list. */
  function Lift(entries: seq<Field>): (lifted: seq<Entry>)
    ensures |lifted| == |entries|
    ensures forall k :: 0 <= k < |entries| ==> lifted[k] == Entry(Int(entries[k].id), entries[k].value)
  {
    if entries == [] then [] else [Entry(Int(entries[0].id), entries[0].value)] + Lift(entries[1..])
  }

  /** The sender's field-list encoding and the receiver's re-encoding of the generic map are the
      same bytes; the message id rests on this. */
  lemma {:induction false} PackFieldsIsPackMap(entries: seq<Field>)
    ensures PackFields(entries) == Pack(Map(Lift(entries)))
  {
    PackFieldEntriesIsPackEntries(entries);
  }

  lemma {:induction false} PackFieldEntriesIsPackEntries(entries: seq<Field>)
    ensures PackFieldEntries(entries) == PackEntries(Lift(entries))
  {
    if entries != [] {
      PackFieldEntriesIsPackEntries(entries[1..]);
      assert Lift(entries)[1..] == Lift(entries[1..]);
      assert PackEntry(Lift(entries)[0]) == WriteUint(entries[0].id) + Pack(entries[0].value);
    }
  }

  function FromEntries(entries: seq<Entry>, sofar: seq<Field>): Result<seq<Field>, FieldError>
    decreases |entries|
  {
    if entries == [] then Ok(sofar)
    else
      match entries[0].key
      case Int(i) =>
        if 0 <= i <= 0xff then FromEntries(entries[1..], Inserted(sofar, i, entries[0].value))
        else Err(UnsupportedFieldKey)
      case _ => Err(UnsupportedFieldKey)
  }

  /** `Fields::from_value`. */
  function FromValue(v: Value): Result<seq<Field>, FieldError> {
    if v.Map? then FromEntries(v.entries, []) else Err(NotAMap)
  }

  method ReadFields(v: Value) returns (r: Result<seq<Field>, FieldError>)
    ensures r == FromValue(v)
  {
    if !v.Map? {
      return Err(NotAMap);
    }
    var fields := new Fields();
    for k := 0 to |v.entries|
      invariant FromEntries(v.entries[k..], fields.entries) == FromValue(v)
    {
      var e := v.entries[k];
      assert v.entries[k..][1..] == v.entries[k + 1..];
      if !e.key.Int? || !(0 <= e.key.i <= 0xff) {
        return Err(UnsupportedFieldKey);
      }
      fields.Insert(e.key.i, e.value);
    }
    r := Ok(fields.entries);
  }

  /** Reading the lifted list gives the list back: ids were unique, so nothing merges. */
  lemma FieldsRoundTrip(entries: seq<Field>)
    requires Distinct(entries)
    ensures FromValue(Map(Lift(entries))) == Ok(entries)
  {
    FromEntriesAppends(entries, []);
    assert [] + entries == entries;
  }

  lemma {:induction false} FromEntriesAppends(entries: seq<Field>, sofar: seq<Field>)
    requires Distinct(sofar + entries)
    ensures FromEntries(Lift(entries), sofar) == Ok(sofar + entries)
    decreases |entries|
  {
    if entries == [] {
      assert sofar + entries == sofar;
    } else {
      var all := sofar + entries;
      assert all[|sofar|] == entries[0];
      assert forall j :: 0 <= j < |sofar| ==> all[j] == sofar[j];
      assert Inserted(sofar, entries[0].id, entries[0].value) == sofar + [entries[0]];
      assert sofar + [entries[0]] + entries[1..] == all;
      assert Lift(entries)[1..] == Lift(entries[1..]);
      FromEntriesAppends(entries[1..], sofar + [entries[0]]);
    }
  }

  /** Every list that can be read has unique ids, and reads exactly when all keys are one-byte
      integers. */
  lemma {:induction false} FromEntriesIsDistinct(entries: seq<Entry>, sofar: seq<Field>)
    requires Distinct(sofar)
    ensures FromEntries(entries, sofar).Ok? ==> Distinct(FromEntries(entries, sofar).value)
    ensures FromEntries(entries, sofar).Ok? <==>
            forall k :: 0 <= k < |entries| ==> entries[k].key.Int? && 0 <= entries[k].key.i <= 0xff
    decreases |entries|
  {
    hide Inserted, Distinct, Dictionary, Ids;
    if entries != [] && entries[0].key.Int? && 0 <= entries[0].key.i <= 0xff {
      InsertedIsUpdate(sofar, entries[0].key.i, entries[0].value);
      FromEntriesIsDistinct(entries[1..], Inserted(sofar, entries[0].key.i, entries[0].value));
      assert forall k :: 1 <= k < |entries| ==> entries[k] == entries[1..][k - 1];
    }
  }

  /** There are 256 ids, so a list without duplicates is short. */
  lemma DistinctIsShort(entries: seq<Field>)
    requires Distinct(entries)
    ensures |entries| <= 256
  {
    IdSetSize(entries, |entries|);
    BoundedSetSize(set k | 0 <= k < |entries| :: entries[k].id, 256);
  }

  lemma {:induction false} IdSetSize(entries: seq<Field>, n: nat)
    requires Distinct(entries) && n <= |entries|
    ensures |set k | 0 <= k < n :: entries[k].id| == n
  {
    if n > 0 {
      IdSetSize(entries, n - 1);
      var before: set<int> := set k | 0 <= k < n - 1 :: entries[k].id;
      assert entries[n - 1].id !in before;
      assert (set k | 0 <= k < n :: entries[k].id) == before + {entries[n - 1].id};
    }
  }

  lemma {:induction false} BoundedSetSize(s: set<int>, n: nat)
    requires forall x :: x in s ==> 0 <= x < n
    ensures |s| <= n
  {
    if n > 0 {
      BoundedSetSize(s - {n - 1}, n - 1);
    } else {
      assert forall x :: x !in s;
    }
  }

  lemma LiftIsWellFormed(entries: seq<Field>)
    requires |entries| < TWO_32
    requires forall k :: 0 <= k < |entries| ==> WellFormed(entries[k].value)
    ensures WellFormed(Map(Lift(entries)))
  {
  }
}
