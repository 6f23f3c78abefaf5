/** The duplicate filter among the enhancers. It keeps every record it has let
    through and drops (returns null for) a record that its detector judges a
    duplicate of one of them. The detector is DataRecord.equals unless the
    "customDetector" property names a class that can be loaded; class loading
    is the parameter `load`. The cache never loses entries. */
module Dedup {
  import opened Wrappers
  import opened Strings
  import opened Records

  /** The default isDuplicate: two nulls are duplicates, null is no duplicate of a
      record, and a record is a duplicate of what it equals. */
  function IsDuplicate(r1: Option<DataRecord>, r2: Option<DataRecord>): (b: bool)
    ensures r1.None? ==> (b <==> r2.None?)
    ensures r1.Some? ==> (b <==> r2.Some? && r1.value.Key() == r2.value.Key())
  {
    if r1.None? && r2.None? then true
    else if r1.Some? then r2.Some? && r1.value.Equals(r2.value)
    else false
  }

  /** The detector in use: the enhancer itself, or a loaded DuplicateDetector. */
  datatype Detector = Default | Custom(isDuplicate: (DataRecord, DataRecord) -> bool)

  /** detector.isDuplicate(cached, candidate). */
  predicate Judges(d: Detector, cached: DataRecord, candidate: DataRecord) {
    match d
    case Default => IsDuplicate(Some(cached), Some(candidate))
    case Custom(f) => f(cached, candidate)
  }

  /** Some cached record makes `rec` a duplicate. */
  predicate Seen(d: Detector, cache: seq<DataRecord>, rec: DataRecord) {
    exists i :: 0 <= i < |cache| && Judges(d, cache[i], rec)
  }

  const COMPARATOR_PROPERTY: string := "customDetector"

  /** The detector init selects: a custom one only for a non-blank class name that loads. */
  function ChooseDetector(props: Option<map<string, string>>,
                          load: string -> Option<(DataRecord, DataRecord) -> bool>): (d: Detector)
    ensures d.Custom? <==>
      props.Some? && COMPARATOR_PROPERTY in props.value
      && Trim(props.value[COMPARATOR_PROPERTY]) != [] && load(props.value[COMPARATOR_PROPERTY]).Some?
    ensures d.Custom? ==> d.isDuplicate == load(props.value[COMPARATOR_PROPERTY]).value
  {
    if props.Some? && COMPARATOR_PROPERTY in props.value && |Trim(props.value[COMPARATOR_PROPERTY])| > 0 then
      match load(props.value[COMPARATOR_PROPERTY])
      case Some(f) => Custom(f)
      case None => Default
    else Default
  }

  /** The detector of the test suite: records with the same identifier are duplicates. */
  function SameIdentifier(): (DataRecord, DataRecord) -> bool {
    (a: DataRecord, b: DataRecord) => a.identifier == b.identifier
  }

  class DeduplicationEnhancer {
    var detector: Detector
    var seenRecords: seq<DataRecord>

    /** No cached record is a duplicate of one cached before it. */
    ghost predicate Valid()
      reads this
    {
      forall i, j :: 0 <= i < j < |seenRecords| ==> !Judges(detector, seenRecords[i], seenRecords[j])
    }

    /** The enhancer before init: the default detector and an empty cache. */
    constructor ()
      ensures Valid() && detector == Default && seenRecords == []
    {
      detector := Default;
      seenRecords := [];
    }

    /** init: selects the detector; the cache is untouched. */
    method Init(props: Option<map<string, string>>,
                load: string -> Option<(DataRecord, DataRecord) -> bool>)
      modifies this
      ensures detector == ChooseDetector(props, load)
      ensures seenRecords == old(seenRecords)
      ensures old(seenRecords) == [] ==> Valid()
    {
      detector := Default;
      if props.Some? && COMPARATOR_PROPERTY in props.value {
        var comparatorClass := props.value[COMPARATOR_PROPERTY];
        if |Trim(comparatorClass)| > 0 {
          var loaded := load(comparatorClass);
          if loaded.Some? {
            detector := Custom(loaded.value);
          }
        }
      }
    }

    /** checkIfSeen: true iff some cached record makes `rec` a duplicate; otherwise
        `rec` joins the cache. The scan stops at the first duplicate. */
    method CheckIfSeen(rec: DataRecord) returns (seen: bool)
      requires Valid()
      modifies this
      ensures Valid() && detector == old(detector)
      ensures seen == Seen(detector, old(seenRecords), rec)
      ensures seenRecords == if seen then old(seenRecords) else old(seenRecords) + [rec]
    {
      var k := 0;
      while k < |seenRecords|
        invariant 0 <= k <= |seenRecords|
        invariant forall i :: 0 <= i < k ==> !Judges(detector, seenRecords[i], rec)
      {
        if Judges(detector, seenRecords[k], rec) {
          return true;
        }
        k := k + 1;
      }
      seenRecords := seenRecords + [rec];
      seen := false;
    }

    /** enhanceData: the record itself when it is new (and it is then cached), None
        (Java null) when it is a duplicate (and the cache is unchanged). */
    method EnhanceData(rec: DataRecord) returns (r: Option<DataRecord>)
      requires Valid()
      modifies this
      ensures Valid() && detector == old(detector)
      ensures Seen(detector, old(seenRecords), rec) ==> r.None? && seenRecords == old(seenRecords)
      ensures !Seen(detector, old(seenRecords), rec) ==> r == Some(rec) && seenRecords == old(seenRecords) + [rec]
    {
      var seen := CheckIfSeen(rec);
      if seen {
        return None;
      }
      return Some(rec);
    }
  }

  /** With the default detector a record is dropped exactly when an equal one was let
      through: the type counts as much as the identifier. */
  lemma DefaultSeenIsKeyMatch(cache: seq<DataRecord>, rec: DataRecord)
    ensures Seen(Default, cache, rec) <==> exists i :: 0 <= i < |cache| && cache[i].Key() == rec.Key()
  {
  }

  /** With the identifier-only detector a record is dropped when one with the same
      identifier was let through, whatever its type. */
  lemma SameIdentifierSeen(cache: seq<DataRecord>, rec: DataRecord)
    ensures Seen(Custom(SameIdentifier()), cache, rec)
        <==> exists i :: 0 <= i < |cache| && cache[i].identifier == rec.identifier
  {
  }

  /** The scenario of the default-detector test: "1" and "2" pass, a second "2" of the
      same type is dropped, and "2" of another type passes. */
  method DefaultDetectorScenario() returns (a: Option<DataRecord>, b: Option<DataRecord>,
                                          c: Option<DataRecord>, d: Option<DataRecord>)
    ensures a.Some? && b.Some? && c.None? && d.Some?
  {
    var e := new DeduplicationEnhancer();
    e.Init(Some(map[]), _ => None);
    a := e.EnhanceData(Record("1", "TEST"));
    b := e.EnhanceData(Record("2", "TEST"));
    assert e.seenRecords == [Record("1", "TEST"), Record("2", "TEST")];
    c := e.EnhanceData(Record("2", "TEST"));
    assert Judges(Default, e.seenRecords[1], Record("2", "TEST"));
    d := e.EnhanceData(Record("2", "BLAH"));
  }

  /** The scenario of the custom-detector test: with the identifier-only detector the
      "2" of another type is dropped as well. */
  method CustomDetectorScenario() returns (a: Option<DataRecord>, b: Option<DataRecord>,
                                         c: Option<DataRecord>, d: Option<DataRecord>)
    ensures a.Some? && b.Some? && c.None? && d.None?
  {
    var e := new DeduplicationEnhancer();
    var className := "org." + "cataractsoftware.datasponge.enhancer.TestDedupeDetector";
    assert className[0] == 'o' && !IsTrimmed(className[0]);
    var props := map[COMPARATOR_PROPERTY := className];
    e.Init(Some(props), _ => Some(SameIdentifier()));
    assert e.detector == Custom(SameIdentifier());
    a := e.EnhanceData(Record("1", "TEST"));
    assert !Judges(e.detector, Record("1", "TEST"), Record("2", "TEST"));
    b := e.EnhanceData(Record("2", "TEST"));
    assert e.seenRecords == [Record("1", "TEST"), Record("2", "TEST")];
    assert Judges(e.detector, e.seenRecords[1], Record("2", "TEST"));
    c := e.EnhanceData(Record("2", "TEST"));
    assert Judges(e.detector, e.seenRecords[1], Record("2", "BLAH"));
    d := e.EnhanceData(Record("2", "BLAH"));
  }
}
