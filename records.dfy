/** DataRecord: the unit of extracted data. A record has an identifier, a type and
    named field values; two records are equal when identifier and type are equal,
    whatever their fields. */
module Records {
  import opened Wrappers
  import Strings

  /** A field value as the crawler stores it: a string, an int, or null. */
  datatype FieldValue = Null | Text(s: string) | Number(n: int)

  /** String.valueOf / StringBuilder.append of a field value. */
  function Render(v: FieldValue): string {
    match v
    case Null => "null"
    case Text(s) => s
    case Number(n) => Strings.IntToString(n)
  }

  datatype Field = Field(name: string, value: FieldValue)

  predicate DistinctNames(fs: seq<Field>) {
    forall i, j :: 0 <= i < j < |fs| ==> fs[i].name != fs[j].name
  }

  /** The field map, in iteration order; every name occurs once. */
  type FieldList = fs: seq<Field> | DistinctNames(fs) witness []

  /** The identity of a record under equals/hashCode. */
  datatype RecordKey = RecordKey(identifier: string, recordType: string)

  function Position(fs: seq<Field>, name: string): (k: int)
    ensures -1 <= k < |fs|
    ensures k >= 0 ==> fs[k].name == name
    ensures k == -1 <==> forall i :: 0 <= i < |fs| ==> fs[i].name != name
  {
    if fs == [] then -1
    else if fs[|fs| - 1].name == name then |fs| - 1
    else Position(fs[..|fs| - 1], name)
  }

  /** The map view of a field list. */
  function AsMap(fs: seq<Field>): map<string, FieldValue> {
    if fs == [] then map[] else AsMap(fs[..|fs| - 1])[fs[|fs| - 1].name := fs[|fs| - 1].value]
  }

  datatype DataRecord = DataRecord(identifier: string, recordType: string, entries: FieldList) {

    function Key(): RecordKey {
      RecordKey(identifier, recordType)
    }

    /** The fields as a map from name to value. */
    function Fields(): map<string, FieldValue> {
      AsMap(entries)
    }

    /** getFieldValue: the stored value, or null when the name is not set. */
    function GetFieldValue(name: string): (v: FieldValue)
      ensures name in Fields() ==> v == Fields()[name]
      ensures name !in Fields() ==> v == Null
    {
      var k := Position(entries, name);
      LookupAgreesWithMap(entries, name);
      if k < 0 then Null else entries[k].value
    }

    /** getFieldCount: the number of distinct names set. */
    function FieldCount(): (n: nat)
      ensures n == |Fields()|
    {
      MapSize(entries);
      |entries|
    }

    /** setField: the map gains `name` bound to `v`; an existing name keeps its place. */
    function SetField(name: string, v: FieldValue): (r: DataRecord)
      ensures r.Key() == Key()
      ensures r.Fields() == Fields()[name := v]
    {
      var k := Position(entries, name);
      if k >= 0 then
        var fs := entries[k := Field(name, v)];
        assert DistinctNames(fs) by {
          forall i, j | 0 <= i < j < |fs| ensures fs[i].name != fs[j].name {
            assert fs[i].name == entries[i].name && fs[j].name == entries[j].name;
          }
        }
        UpdateInPlace(entries, k, v);
        DataRecord(identifier, recordType, fs)
      else
        var fs := entries + [Field(name, v)];
        assert fs[..|fs| - 1] == entries;
        DataRecord(identifier, recordType, fs)
    }

    /** equals: identifier and type agree; fields are not compared. */
    predicate Equals(other: DataRecord) {
      identifier == other.identifier && recordType == other.recordType
    }

    /** hashCode: 31 * identifier.hashCode() + type.hashCode(), with int overflow. */
    function HashCode(): (h: int)
      ensures Strings.IsInt32(h)
    {
      Strings.Wrap32(31 * Strings.StringHash(identifier) + Strings.StringHash(recordType))
    }
  }

  /** The constructor: a null identifier or type is rejected; a new record has no fields. */
  function NewRecord(identifier: Option<string>, recordType: Option<string>): (r: Result<DataRecord>)
    ensures identifier.None? ==> r == Failure(IllegalArgument("Cannot have null identifier"))
    ensures identifier.Some? && recordType.None? ==> r == Failure(IllegalArgument("Cannot have null type"))
    ensures identifier.Some? && recordType.Some? ==>
      r.Success? && r.value.Key() == RecordKey(identifier.value, recordType.value) && r.value.FieldCount() == 0
  {
    if identifier.None? then Failure(IllegalArgument("Cannot have null identifier"))
    else if recordType.None? then Failure(IllegalArgument("Cannot have null type"))
    else Success(DataRecord(identifier.value, recordType.value, []))
  }

  /** A record built from two non-null strings. */
  function Record(identifier: string, recordType: string): (r: DataRecord)
    ensures r.Key() == RecordKey(identifier, recordType) && r.Fields() == map[]
  {
    DataRecord(identifier, recordType, [])
  }

  // ---------------------------------------------------------------- map view

  lemma {:induction false} LookupAgreesWithMap(fs: FieldList, name: string)
    ensures name in AsMap(fs) <==> Position(fs, name) >= 0
    ensures Position(fs, name) >= 0 ==> AsMap(fs)[name] == fs[Position(fs, name)].value
  {
    if fs != [] {
      var init: FieldList := fs[..|fs| - 1];
      LookupAgreesWithMap(init, name);
    }
  }

  lemma {:induction false} MapKeys(fs: FieldList)
    ensures AsMap(fs).Keys == set i | 0 <= i < |fs| :: fs[i].name
  {
    if fs != [] {
      var init: FieldList := fs[..|fs| - 1];
      MapKeys(init);
      assert (set i | 0 <= i < |fs| :: fs[i].name)
          == (set i | 0 <= i < |init| :: init[i].name) + {fs[|fs| - 1].name};
    }
  }

  lemma {:induction false} MapSize(fs: FieldList)
    ensures |AsMap(fs)| == |fs|
  {
    if fs != [] {
      var init: FieldList := fs[..|fs| - 1];
      MapSize(init);
      LookupAgreesWithMap(init, fs[|fs| - 1].name);
    }
  }

  lemma {:induction false} UpdateInPlace(fs: FieldList, k: nat, v: FieldValue)
    requires k < |fs|
    requires DistinctNames(fs[k := Field(fs[k].name, v)])
    ensures AsMap(fs[k := Field(fs[k].name, v)]) == AsMap(fs)[fs[k].name := v]
  {
    var fs': FieldList := fs[k := Field(fs[k].name, v)];
    var init: FieldList := fs[..|fs| - 1];
    if k == |fs| - 1 {
      assert fs'[..|fs'| - 1] == init;
    } else {
      var init': FieldList := fs'[..|fs'| - 1];
      assert init' == init[k := Field(fs[k].name, v)];
      UpdateInPlace(init, k, v);
    }
  }

  // ---------------------------------------------------------------- properties

  /** A value set under a name is the value read back under that name. */
  lemma SetThenGet(r: DataRecord, name: string, v: FieldValue)
    ensures r.SetField(name, v).GetFieldValue(name) == v
  {
  }

  /** Setting one name leaves every other name's value as it was. */
  lemma SetKeepsOthers(r: DataRecord, name: string, other: string, v: FieldValue)
    requires other != name
    ensures r.SetField(name, v).GetFieldValue(other) == r.GetFieldValue(other)
  {
  }

  /** Overwriting an existing name keeps the count; a new name adds one. */
  lemma SetFieldCount(r: DataRecord, name: string, v: FieldValue)
    ensures name in r.Fields() ==> r.SetField(name, v).FieldCount() == r.FieldCount()
    ensures name !in r.Fields() ==> r.SetField(name, v).FieldCount() == r.FieldCount() + 1
  {
  }

  /** equals ignores the fields: equal records differ at most in their fields, so
      equality is agreement of the keys a writer's batch is indexed by, and setting
      a field never changes what a record equals. */
  lemma EqualsIgnoresFields(a: DataRecord, b: DataRecord, name: string, v: FieldValue)
    ensures a.Equals(b) <==> a.(entries := b.entries) == b
    ensures a.Equals(b) <==> a.Key() == b.Key()
    ensures a.SetField(name, v).Equals(b) <==> a.Equals(b)
  {
  }

  /** equals is an equivalence relation. */
  lemma EqualsIsEquivalence(a: DataRecord, b: DataRecord, c: DataRecord)
    ensures a.Equals(a)
    ensures a.Equals(b) ==> b.Equals(a)
    ensures a.Equals(b) && b.Equals(c) ==> a.Equals(c)
  {
  }

  /** Equal records have equal hash codes, whatever their fields. */
  lemma EqualsImpliesSameHash(a: DataRecord, b: DataRecord)
    requires a.Equals(b)
    ensures a.HashCode() == b.HashCode()
  {
  }
}
