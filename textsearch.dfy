/** The text-search extractor: it reports where a search string occurs in the body
    of a fetched document. FULLTEXT reports the whole body once, FIRST and LAST
    the context around the first or last occurrence, ALL the context around every
    occurrence it visits. With ignoreCase the search runs over the upper-cased
    body with the upper-cased search string, while the reported text is cut from
    the original body. Java `int` arithmetic on the window bounds wraps. */
module TextSearch {
  import opened Wrappers
  import opened Strings
  import opened Records

  datatype Mode = FullText | First | Last | All

  const MODE_PROPERTY_KEY := "textsearchextractor.mode"
  const PREFIX_LENGTH_KEY := "textsearchextractor.prefixlength"
  const SUFFIX_LENGTH_KEY := "textsearchextractor.suffixlength"
  const SEARCHSTRING_KEY := "textsearchextractor.searchstring"
  const IGNORE_CASE_KEY := "textsearchextractor.ignorecase"
  const SUPPORTED_FILETYPES := "textsearchextractor.supportedfiletypes"
  const DEFAULT_PREFIX := "10"
  const DEFAULT_SUFFIX := "10"
  const RECORD_TYPE := "TextMatch"
  const MATCH_TEXT_FIELD := "matchText"
  const IDX_FIELD := "matchStartIdx"

  /** Mode.valueOf: the constant with that exact name, else IllegalArgumentException. */
  function ModeValueOf(name: string): (r: Result<Mode>)
    ensures r.Success? <==> name in {"FULLTEXT", "FIRST", "LAST", "ALL"}
  {
    if name == "FULLTEXT" then Success(FullText)
    else if name == "FIRST" then Success(First)
    else if name == "LAST" then Success(Last)
    else if name == "ALL" then Success(All)
    else Failure(IllegalArgument("No enum constant org.cataractsoftware.datasponge.extractor.TextSearchExtractor.Mode." + name))
  }

  /** The configuration fields of an extractor. */
  datatype Settings = Settings(
    prefixLength: int,
    suffixLength: int,
    ignoreCase: bool,
    mode: Mode,
    searchString: Option<string>,
    supportedFiletypes: seq<string>)

  /** Properties.getProperty(key, default). */
  function Property(props: map<string, string>, key: string, default: string): string {
    if key in props then props[key] else default
  }

  /** init: the mode (when given) goes through Mode.valueOf of its upper case, the
      lengths through Integer.parseInt (default "10"), ignoreCase through
      Boolean.parseBoolean (default "true"), the file types are the lower-cased
      list split on ',' (default ""), and with ignoreCase the search string is
      upper-cased, which throws for a missing one; without ignoreCase a missing
      search string stays null. A failure leaves the fields assigned before it
      in place. */
  function Configure(s: Settings, props: map<string, string>): (r: (Settings, Outcome))
    ensures MODE_PROPERTY_KEY in props && ModeValueOf(ToUpper(props[MODE_PROPERTY_KEY])).Failure? ==>
      r == (s, Fail(ModeValueOf(ToUpper(props[MODE_PROPERTY_KEY])).error))
    ensures r.1.Pass? ==>
      && ParseInt(Property(props, PREFIX_LENGTH_KEY, DEFAULT_PREFIX)) == Success(r.0.prefixLength)
      && ParseInt(Property(props, SUFFIX_LENGTH_KEY, DEFAULT_SUFFIX)) == Success(r.0.suffixLength)
      && r.0.ignoreCase == ParseBoolean(Some(Property(props, IGNORE_CASE_KEY, "true")))
      && r.0.supportedFiletypes == Split(ToLower(Property(props, SUPPORTED_FILETYPES, "")), ',')
      && r.0.searchString == (if SEARCHSTRING_KEY !in props then None
                              else if r.0.ignoreCase then Some(ToUpper(props[SEARCHSTRING_KEY]))
                              else Some(props[SEARCHSTRING_KEY]))
    ensures r.1 == Fail(NullPointer) ==> SEARCHSTRING_KEY !in props && r.0.ignoreCase
    ensures r.1.Pass? ==> r.0.mode == (if MODE_PROPERTY_KEY in props then ModeValueOf(ToUpper(props[MODE_PROPERTY_KEY])).value else s.mode)
  {
    var modeResult := if MODE_PROPERTY_KEY in props then ModeValueOf(ToUpper(props[MODE_PROPERTY_KEY])) else Success(s.mode);
    if modeResult.Failure? then (s, Fail(modeResult.error))
    else
      var s1 := s.(mode := modeResult.value);
      var prefix := ParseInt(Property(props, PREFIX_LENGTH_KEY, DEFAULT_PREFIX));
      if prefix.Failure? then (s1, Fail(prefix.error))
      else
        var s2 := s1.(prefixLength := prefix.value);
        var suffix := ParseInt(Property(props, SUFFIX_LENGTH_KEY, DEFAULT_SUFFIX));
        if suffix.Failure? then (s2, Fail(suffix.error))
        else
          var ignoreCase := ParseBoolean(Some(Property(props, IGNORE_CASE_KEY, "true")));
          var searchString := if SEARCHSTRING_KEY in props then Some(props[SEARCHSTRING_KEY]) else None;
          var types := Split(ToLower(Property(props, SUPPORTED_FILETYPES, "")), ',');
          var s3 := s2.(suffixLength := suffix.value, ignoreCase := ignoreCase,
                        searchString := searchString, supportedFiletypes := types);
          if !ignoreCase then (s3, Pass)
          else if searchString.None? then (s3, Fail(NullPointer))
          else (s3.(searchString := Some(ToUpper(searchString.value))), Pass)
  }

  /** The settings of a new extractor: both lengths 0, ignoreCase, FULLTEXT, no search string. */
  const INITIAL: Settings := Settings(0, 0, true, FullText, None, [])

  /** With only a search string configured, init yields the documented defaults:
      10 characters either side, ignoreCase, the mode unchanged (FULLTEXT for a new
      extractor), the search string upper-cased and the type list [""]. */
  lemma ConfigureDefaults(s: Settings, search: string)
    ensures var r := Configure(s, map[SEARCHSTRING_KEY := search]);
      r.1 == Pass && r.0 == Settings(10, 10, true, s.mode, Some(ToUpper(search)), [""])
  {
    var props := map[SEARCHSTRING_KEY := search];
    assert ParseInt(DEFAULT_PREFIX) == Success(10) by {
      assert DEFAULT_PREFIX == IntToString(10);
      ParseIntOfIntToString(10);
    }
    assert EqualsIgnoreCase("true", "true");
    assert ToLower("") == "" && Split("", ',') == [""];
  }

  /** Without a search string, init throws when ignoreCase holds; otherwise it may
      pass, and then every search of a body throws the NullPointerException instead. */
  lemma ConfigureNeedsSearchString(s: Settings, props: map<string, string>, url: string, body: string)
    requires SEARCHSTRING_KEY !in props
    ensures ParseBoolean(Some(Property(props, IGNORE_CASE_KEY, "true"))) ==> Configure(s, props).1.Fail?
    ensures Configure(s, props).1.Pass? ==>
      !Configure(s, props).0.ignoreCase && Search(Configure(s, props).0, url, Some(body)) == Failure(NullPointer)
  {
  }

  // ---------------------------------------------------------------- the context window

  /** The first index of the window: matchIdx - prefixLength when that (as an int) is not negative, else 0. */
  function WindowStart(matchIdx: int, prefixLength: int): int {
    if Wrap32(matchIdx - prefixLength) >= 0 then Wrap32(matchIdx - prefixLength) else 0
  }

  /** The end of the window: matchIdx + suffixLength (as an int) when below len - 1, else len - 1. */
  function WindowEnd(matchIdx: int, suffixLength: int, len: int): int {
    if Wrap32(matchIdx + suffixLength) < len - 1 then Wrap32(matchIdx + suffixLength) else len - 1
  }

  function MatchRecord(url: string, matchText: string, matchIdx: int): DataRecord {
    Record(url, RECORD_TYPE).SetField(MATCH_TEXT_FIELD, Text(matchText)).SetField(IDX_FIELD, Number(matchIdx))
  }

  /** extractMatchText: None (null) for a negative index; otherwise a record keyed by
      `url` holding the window around the match and the match index, or the
      exception String.substring raises for a window outside the text. */
  function ExtractMatchText(prefixLength: int, suffixLength: int, url: string, text: string, matchIdx: int)
    : (r: Result<Option<DataRecord>>)
    ensures matchIdx < 0 ==> r == Success(None)
    ensures r.Success? && r.value.Some? ==>
      var start, end := WindowStart(matchIdx, prefixLength), WindowEnd(matchIdx, suffixLength, |text|);
      0 <= start <= end < |text|
      && r.value.value.Key() == RecordKey(url, RECORD_TYPE)
      && r.value.value.Fields() == map[MATCH_TEXT_FIELD := Text(text[start..end]), IDX_FIELD := Number(matchIdx)]
    ensures matchIdx >= 0 ==>
      (r.Failure? <==> WindowStart(matchIdx, prefixLength) > WindowEnd(matchIdx, suffixLength, |text|))
    ensures matchIdx >= 0 && r.Success? ==> r.value.Some?
  {
    if matchIdx >= 0 then
      var start := WindowStart(matchIdx, prefixLength);
      var end := WindowEnd(matchIdx, suffixLength, |text|);
      if start < 0 || end > |text| || start > end then Failure(IndexOutOfBounds(start, end, |text|))
      else Success(Some(MatchRecord(url, text[start..end], matchIdx)))
    else Success(None)
  }

  /** For a match inside the text and non-negative lengths that do not overflow, the
      window is text[max(i - prefix, 0) .. min(i + suffix, len - 1)], which never
      holds the last character of the text. */
  lemma WindowOfMatch(prefixLength: int, suffixLength: int, url: string, text: string, i: int)
    requires 0 <= i < |text| && 0 <= prefixLength <= INT_MAX && 0 <= suffixLength && IsInt32(i + suffixLength)
    ensures var r := ExtractMatchText(prefixLength, suffixLength, url, text, i);
      var start := if i - prefixLength >= 0 then i - prefixLength else 0;
      var end := if i + suffixLength < |text| - 1 then i + suffixLength else |text| - 1;
      r.Success? && r.value.Some? && start <= i && end < |text|
      && r.value.value.GetFieldValue(MATCH_TEXT_FIELD) == Text(text[start..end])
      && r.value.value.GetFieldValue(IDX_FIELD) == Number(i)
  {
    assert IsInt32(i - prefixLength);
  }

  /** An empty body searched for the empty string fails in FIRST mode: the window would end at -1. */
  lemma EmptyBodyWindowFails(prefixLength: int, suffixLength: int, url: string)
    requires 0 <= prefixLength && 0 <= suffixLength <= INT_MAX
    ensures ExtractMatchText(prefixLength, suffixLength, url, "", 0).Failure?
  {
  }

  // ---------------------------------------------------------------- the search

  /** The text the search runs over. */
  function Searchable(body: string, ignoreCase: bool): (t: string)
    ensures |t| == |body|
  {
    if ignoreCase then ToUpper(body) else body
  }

  /** The indices the ALL loop visits after `from`: each next occurrence at or after
      from + 1, for as long as the previous one lies before |text| - 2. */
  function AllMatches(text: string, needle: string, from: int): (idxs: seq<int>)
    decreases |text| - from
  {
    var idx := IndexOfFrom(text, needle, from + 1);
    if idx < 0 then []
    else if idx < |text| - 2 && from + 1 <= |text| && from >= -1 then [idx] + AllMatches(text, needle, idx)
    else [idx]
  }

  /** A loop over match indices that gathers what extract(k, i) yields for the k-th
      index i: the first exception ends it, and null adds nothing. */
  function Collect<R>(extract: (int, int) -> Result<Option<R>>, idxs: seq<int>): Result<seq<R>> {
    if idxs == [] then Success([])
    else
      match Collect(extract, idxs[..|idxs| - 1])
      case Failure(e) => Failure(e)
      case Success(rs) =>
        match extract(|idxs| - 1, idxs[|idxs| - 1])
        case Failure(e) => Failure(e)
        case Success(None) => Success(rs)
        case Success(Some(rec)) => Success(rs + [rec])
  }

  /** One index more: its exception ends the loop, null leaves the list, a record joins it. */
  lemma CollectExtend<R>(extract: (int, int) -> Result<Option<R>>, xs: seq<int>, rs: seq<R>, i: int)
    requires Collect(extract, xs) == Success(rs)
    ensures var e := extract(|xs|, i);
      (e.Failure? ==> Collect(extract, xs + [i]) == Failure(e.error))
      && (e == Success(None) ==> Collect(extract, xs + [i]) == Success(rs))
      && (e.Success? && e.value.Some? ==> Collect(extract, xs + [i]) == Success(rs + [e.value.value]))
  {
    assert (xs + [i])[..|xs|] == xs;
  }

  /** An exception ends the loop: later indices do not change the outcome. */
  lemma {:induction false} CollectFailureEnds<R>(extract: (int, int) -> Result<Option<R>>, xs: seq<int>, ys: seq<int>)
    requires Collect(extract, xs).Failure?
    ensures Collect(extract, xs + ys) == Collect(extract, xs)
    decreases |ys|
  {
    if ys != [] {
      var ys' := ys[..|ys| - 1];
      CollectFailureEnds(extract, xs, ys');
      assert (xs + ys)[..|xs + ys| - 1] == xs + ys';
    } else {
      assert xs + ys == xs;
    }
  }

  /** When no index yields null, a loop without exception keeps the list in step with
      the indices: the k-th element is what the k-th index yields. */
  lemma {:induction false} CollectInStep<R>(extract: (int, int) -> Result<Option<R>>, idxs: seq<int>)
    requires forall k :: 0 <= k < |idxs| ==> extract(k, idxs[k]) != Success(None)
    requires Collect(extract, idxs).Success?
    ensures var rs := Collect(extract, idxs).value;
      |rs| == |idxs| && forall k :: 0 <= k < |rs| ==> extract(k, idxs[k]) == Success(Some(rs[k]))
  {
    if idxs != [] {
      var init, last := idxs[..|idxs| - 1], idxs[|idxs| - 1];
      assert idxs == init + [last];
      assert forall k :: 0 <= k < |init| ==> init[k] == idxs[k];
      CollectInStep(extract, init);
    }
  }

  /** extractMatchText for the k-th index of the ALL loop: keyed url + k. */
  function ExtractAt(prefixLength: int, suffixLength: int, url: string, body: string): (int, int) -> Result<Option<DataRecord>> {
    (k, i) => ExtractMatchText(prefixLength, suffixLength, url + IntToString(k), body, i)
  }

  /** The records of the ALL loop for the visited indices: the k-th is keyed url + k;
      the first exception ends the search. */
  function AllRecords(prefixLength: int, suffixLength: int, url: string, body: string, idxs: seq<int>)
    : Result<seq<DataRecord>>
  {
    Collect(ExtractAt(prefixLength, suffixLength, url, body), idxs)
  }

  /** The list FIRST and LAST return: the extracted record, if any. */
  function OneRecord(e: Result<Option<DataRecord>>): (r: Result<seq<DataRecord>>)
    ensures e.Failure? ==> r == Failure(e.error)
    ensures e.Success? ==> r.Success? && (r.value == [] <==> e.value.None?)
  {
    match e
    case Failure(err) => Failure(err)
    case Success(rec) => Success(if rec.Some? then [rec.value] else [])
  }

  /** performSearch: the records the extractor reports for `body` (null gives none).
      A missing search string is a NullPointerException. */
  function Search(s: Settings, url: string, body: Option<string>): (r: Result<seq<DataRecord>>)
    ensures body.None? ==> r == Success([])
    ensures body.Some? && s.searchString.None? ==> r == Failure(NullPointer)
  {
    if body.None? then Success([])
    else if s.searchString.None? then Failure(NullPointer)
    else
      var text := Searchable(body.value, s.ignoreCase);
      var needle := s.searchString.value;
      match s.mode
      case FullText =>
        if Contains(text, needle)
        then Success([Record(url, RECORD_TYPE).SetField(MATCH_TEXT_FIELD, Text(body.value))
                                               .SetField(IDX_FIELD, Number(IndexOf(text, needle)))])
        else Success([])
      case First =>
        OneRecord(ExtractMatchText(s.prefixLength, s.suffixLength, url, body.value, IndexOf(text, needle)))
      case Last =>
        OneRecord(ExtractMatchText(s.prefixLength, s.suffixLength, url, body.value, LastIndexOf(text, needle)))
      case All =>
        AllRecords(s.prefixLength, s.suffixLength, url, body.value, AllMatches(text, needle, 0))
  }

  // ---------------------------------------------------------------- properties of the search

  /** FULLTEXT yields one record exactly when the searchable text contains the search
      string; it holds the whole original body and the first occurrence. */
  lemma FullTextOnce(s: Settings, url: string, body: string)
    requires s.mode == FullText && s.searchString.Some?
    ensures var r := Search(s, url, Some(body));
      var text := Searchable(body, s.ignoreCase);
      r.Success?
      && (|r.value| == 1 <==> Contains(text, s.searchString.value))
      && (|r.value| != 1 ==> r.value == [])
      && (|r.value| == 1 ==>
            r.value[0].Key() == RecordKey(url, RECORD_TYPE)
            && r.value[0].GetFieldValue(MATCH_TEXT_FIELD) == Text(body)
            && r.value[0].GetFieldValue(IDX_FIELD) == Number(IndexOf(text, s.searchString.value)))
  {
  }

  /** FIRST and LAST yield at most one record, none when the search string is absent,
      and otherwise one at indexOf, respectively lastIndexOf. */
  lemma FirstLastAtMostOne(s: Settings, url: string, body: string)
    requires (s.mode == First || s.mode == Last) && s.searchString.Some?
    ensures var r := Search(s, url, Some(body));
      var text := Searchable(body, s.ignoreCase);
      var i := if s.mode == First then IndexOf(text, s.searchString.value) else LastIndexOf(text, s.searchString.value);
      (r.Success? ==> |r.value| <= 1)
      && (i < 0 ==> r == Success([]))
      && (r.Success? && |r.value| == 1 ==> r.value[0].GetFieldValue(IDX_FIELD) == Number(i) && StartsWithAt(text, s.searchString.value, i))
  {
  }

  /** Each index is an occurrence after `from`, and the indices strictly increase. */
  predicate OccurrencesAfter(text: string, needle: string, from: int, idxs: seq<int>) {
    (forall k :: 0 <= k < |idxs| ==> from < idxs[k] && StartsWithAt(text, needle, idxs[k]))
    && (forall k, l :: 0 <= k < l < |idxs| ==> idxs[k] < idxs[l])
  }

  /** The ALL loop visits true occurrences, in strictly increasing order, all after
      `from`: so, in a non-empty text, a match at index 0 is never visited. */
  lemma {:induction false} AllMatchesAreOccurrences(text: string, needle: string, from: int)
    requires 0 <= from < |text|
    ensures OccurrencesAfter(text, needle, from, AllMatches(text, needle, from))
    decreases |text| - from
  {
    var idx := IndexOfFrom(text, needle, from + 1);
    var idxs := AllMatches(text, needle, from);
    if idx >= 0 && idx < |text| - 2 {
      AllMatchesAreOccurrences(text, needle, idx);
      var rest := AllMatches(text, needle, idx);
      assert idxs == [idx] + rest;
      assert forall k :: 0 < k < |idxs| ==> idxs[k] == rest[k - 1];
    } else if idx >= 0 {
      assert idxs == [idx];
    }
  }

  /** No occurrence after `from` and up to the last index is missing, and the loop
      stopped either because no occurrence follows or because the last index lies at
      |text| - 2 or later. */
  ghost predicate CompleteAfter(text: string, needle: string, from: int, idxs: seq<int>) {
    (forall j :: from < j && StartsWithAt(text, needle, j) && (idxs == [] || j <= idxs[|idxs| - 1])
       ==> exists k :: 0 <= k < |idxs| && idxs[k] == j)
    && (idxs == [] ==> forall j :: from < j ==> !StartsWithAt(text, needle, j))
    && (idxs != [] ==> idxs[|idxs| - 1] >= |text| - 2
                       || forall j :: idxs[|idxs| - 1] < j ==> !StartsWithAt(text, needle, j))
  }

  /** The ALL loop misses no occurrence between `from` and the last index it visits. */
  lemma {:induction false} AllMatchesComplete(text: string, needle: string, from: int)
    requires 0 <= from < |text|
    ensures CompleteAfter(text, needle, from, AllMatches(text, needle, from))
    decreases |text| - from
  {
    var idx := IndexOfFrom(text, needle, from + 1);
    IndexOfFromSpec(text, needle, from + 1);
    var idxs := AllMatches(text, needle, from);
    if idx >= 0 && idx < |text| - 2 {
      AllMatchesComplete(text, needle, idx);
      var rest := AllMatches(text, needle, idx);
      assert idxs == [idx] + rest;
      assert idxs[|idxs| - 1] == if rest == [] then idx else rest[|rest| - 1];
      forall j | from < j && StartsWithAt(text, needle, j) && j <= idxs[|idxs| - 1]
        ensures exists k :: 0 <= k < |idxs| && idxs[k] == j
      {
        if j == idx {
          assert idxs[0] == j;
        } else {
          assert j > idx;
          var k :| 0 <= k < |rest| && rest[k] == j;
          assert idxs[k + 1] == j;
        }
      }
    } else if idx >= 0 {
      assert idxs == [idx];
    }
  }

  /** A record extractMatchText builds is keyed by the url and holds the match index. */
  lemma ExtractedRecord(prefixLength: int, suffixLength: int, url: string, text: string, matchIdx: int)
    requires ExtractMatchText(prefixLength, suffixLength, url, text, matchIdx).Success?
    requires ExtractMatchText(prefixLength, suffixLength, url, text, matchIdx).value.Some?
    ensures var rec := ExtractMatchText(prefixLength, suffixLength, url, text, matchIdx).value.value;
      rec.Key() == RecordKey(url, RECORD_TYPE) && rec.GetFieldValue(IDX_FIELD) == Number(matchIdx)
  {
  }

  /** The record keyed url + k that holds the match index i. */
  ghost predicate Numbered(url: string, k: int, i: int, rec: DataRecord) {
    rec.Key() == RecordKey(url + IntToString(k), RECORD_TYPE) && rec.GetFieldValue(IDX_FIELD) == Number(i)
  }

  /** The k-th ALL record is keyed url + k and holds the k-th visited index. */
  lemma AllRecordsNumbered(prefixLength: int, suffixLength: int, url: string, body: string, idxs: seq<int>)
    requires forall k :: 0 <= k < |idxs| ==> idxs[k] >= 0
    requires AllRecords(prefixLength, suffixLength, url, body, idxs).Success?
    ensures var rs := AllRecords(prefixLength, suffixLength, url, body, idxs).value;
      |rs| == |idxs| && forall k :: 0 <= k < |rs| ==> Numbered(url, k, idxs[k], rs[k])
  {
    var extract := ExtractAt(prefixLength, suffixLength, url, body);
    CollectInStep(extract, idxs);
    var rs := AllRecords(prefixLength, suffixLength, url, body, idxs).value;
    forall k | 0 <= k < |rs|
      ensures Numbered(url, k, idxs[k], rs[k])
    {
      ExtractedRecord(prefixLength, suffixLength, url + IntToString(k), body, idxs[k]);
    }
  }

  /** An exception ends the ALL loop: later indices do not change the outcome. */
  lemma FailureEndsAllRecords(prefixLength: int, suffixLength: int, url: string, body: string,
                               xs: seq<int>, ys: seq<int>)
    requires AllRecords(prefixLength, suffixLength, url, body, xs).Failure?
    ensures AllRecords(prefixLength, suffixLength, url, body, xs + ys) == AllRecords(prefixLength, suffixLength, url, body, xs)
  {
    CollectFailureEnds(ExtractAt(prefixLength, suffixLength, url, body), xs, ys);
  }

  /** What ALL promises of its records: true occurrences at strictly increasing
      indices, each at least 1, the k-th keyed url + k, and at least one record
      whenever an occurrence lies past index 0. */
  ghost predicate AllReport(text: string, needle: string, url: string, rs: seq<DataRecord>) {
    (forall k :: 0 <= k < |rs| ==>
       rs[k].Key() == RecordKey(url + IntToString(k), RECORD_TYPE)
       && exists i :: i >= 1 && StartsWithAt(text, needle, i) && rs[k].GetFieldValue(IDX_FIELD) == Number(i))
    && (forall k, l, i, j ::
          (0 <= k < l < |rs| && rs[k].GetFieldValue(IDX_FIELD) == Number(i)
           && rs[l].GetFieldValue(IDX_FIELD) == Number(j)) ==> i < j)
    && ((exists j :: j >= 1 && StartsWithAt(text, needle, j)) ==> |rs| >= 1)
  }

  /** The k-th record of the ALL loop over a non-empty text is keyed url + k and
      holds an occurrence at index 1 or later. */
  lemma AllRecordsAreOccurrences(prefixLength: int, suffixLength: int, url: string, body: string, text: string, needle: string)
    requires 0 < |text|
    requires AllRecords(prefixLength, suffixLength, url, body, AllMatches(text, needle, 0)).Success?
    ensures var rs := AllRecords(prefixLength, suffixLength, url, body, AllMatches(text, needle, 0)).value;
      forall k :: 0 <= k < |rs| ==>
        rs[k].Key() == RecordKey(url + IntToString(k), RECORD_TYPE)
        && exists i :: i >= 1 && StartsWithAt(text, needle, i) && rs[k].GetFieldValue(IDX_FIELD) == Number(i)
  {
    var idxs := AllMatches(text, needle, 0);
    var rs := AllRecords(prefixLength, suffixLength, url, body, idxs).value;
    AllMatchesAreOccurrences(text, needle, 0);
    AllRecordsNumbered(prefixLength, suffixLength, url, body, idxs);
    forall k | 0 <= k < |rs|
      ensures exists i :: i >= 1 && StartsWithAt(text, needle, i) && rs[k].GetFieldValue(IDX_FIELD) == Number(i)
    {
      assert rs[k].GetFieldValue(IDX_FIELD) == Number(idxs[k]);
    }
  }

  /** The indices of the ALL records strictly increase. */
  lemma AllRecordsIncrease(prefixLength: int, suffixLength: int, url: string, body: string, text: string, needle: string)
    requires 0 < |text|
    requires AllRecords(prefixLength, suffixLength, url, body, AllMatches(text, needle, 0)).Success?
    ensures var rs := AllRecords(prefixLength, suffixLength, url, body, AllMatches(text, needle, 0)).value;
      forall k, l, i, j ::
        (0 <= k < l < |rs| && rs[k].GetFieldValue(IDX_FIELD) == Number(i)
         && rs[l].GetFieldValue(IDX_FIELD) == Number(j)) ==> i < j
  {
    var idxs := AllMatches(text, needle, 0);
    var rs := AllRecords(prefixLength, suffixLength, url, body, idxs).value;
    AllMatchesAreOccurrences(text, needle, 0);
    AllRecordsNumbered(prefixLength, suffixLength, url, body, idxs);
    forall k, l, i, j | 0 <= k < l < |rs| && rs[k].GetFieldValue(IDX_FIELD) == Number(i)
                        && rs[l].GetFieldValue(IDX_FIELD) == Number(j)
      ensures i < j
    {
      assert i == idxs[k] && j == idxs[l];
    }
  }

  /** The ALL loop over a non-empty text reports something whenever an occurrence lies past index 0. */
  lemma AllRecordsNonEmpty(prefixLength: int, suffixLength: int, url: string, body: string, text: string, needle: string)
    requires 0 < |text|
    requires AllRecords(prefixLength, suffixLength, url, body, AllMatches(text, needle, 0)).Success?
    ensures (exists j :: j >= 1 && StartsWithAt(text, needle, j)) ==>
      |AllRecords(prefixLength, suffixLength, url, body, AllMatches(text, needle, 0)).value| >= 1
  {
    var idxs := AllMatches(text, needle, 0);
    AllMatchesAreOccurrences(text, needle, 0);
    AllMatchesComplete(text, needle, 0);
    AllRecordsNumbered(prefixLength, suffixLength, url, body, idxs);
  }

  /** Over an empty body the ALL loop can only visit index 0, where the window fails. */
  lemma EmptyAllRecords(prefixLength: int, suffixLength: int, url: string, body: string, text: string, needle: string)
    requires |text| == |body| == 0
    requires AllRecords(prefixLength, suffixLength, url, body, AllMatches(text, needle, 0)).Success?
    ensures AllRecords(prefixLength, suffixLength, url, body, AllMatches(text, needle, 0)).value == []
  {
  }

  /** ALL mode: a search that ends without an exception meets AllReport. */
  lemma AllModeReport(s: Settings, url: string, body: string)
    requires s.mode == All && s.searchString.Some?
    requires Search(s, url, Some(body)).Success?
    ensures AllReport(Searchable(body, s.ignoreCase), s.searchString.value, url, Search(s, url, Some(body)).value)
  {
    var text := Searchable(body, s.ignoreCase);
    var needle := s.searchString.value;
    assert Search(s, url, Some(body)) == AllRecords(s.prefixLength, s.suffixLength, url, body, AllMatches(text, needle, 0));
    if |text| == 0 {
      EmptyAllRecords(s.prefixLength, s.suffixLength, url, body, text, needle);
    } else {
      AllRecordsAreOccurrences(s.prefixLength, s.suffixLength, url, body, text, needle);
      AllRecordsIncrease(s.prefixLength, s.suffixLength, url, body, text, needle);
      AllRecordsNonEmpty(s.prefixLength, s.suffixLength, url, body, text, needle);
    }
  }

  /** One turn of the ALL loop: the next occurrence after `from`, and whether the loop goes on. */
  lemma AllMatchesStep(text: string, needle: string, from: int)
    requires from >= 0
    ensures var idx := IndexOfFrom(text, needle, from + 1);
      (idx < 0 ==> AllMatches(text, needle, from) == [])
      && (idx >= 0 && idx >= |text| - 2 ==> AllMatches(text, needle, from) == [idx])
      && (idx >= 0 && idx < |text| - 2 ==>
            from < idx && AllMatches(text, needle, from) == [idx] + AllMatches(text, needle, idx))
  {
  }

  /** One visited index more: its window either fails, and so does the loop, or adds its record. */
  lemma AllRecordsExtend(prefixLength: int, suffixLength: int, url: string, body: string,
                         visited: seq<int>, records: seq<DataRecord>, i: int)
    requires AllRecords(prefixLength, suffixLength, url, body, visited) == Success(records)
    requires |records| == |visited| && i >= 0
    ensures var e := ExtractMatchText(prefixLength, suffixLength, url + IntToString(|records|), body, i);
      (e.Failure? ==> AllRecords(prefixLength, suffixLength, url, body, visited + [i]) == Failure(e.error))
      && (e.Success? ==>
            e.value.Some?
            && AllRecords(prefixLength, suffixLength, url, body, visited + [i]) == Success(records + [e.value.value]))
  {
    CollectExtend(ExtractAt(prefixLength, suffixLength, url, body), visited, records, i);
  }

  /** A turn of the ALL loop in terms of the indices still to visit: the next one is
      visited, and the loop goes on from it only while it lies before |text| - 2. */
  lemma AllLoopStep(text: string, needle: string, all: seq<int>, visited: seq<int>, from: int)
    requires from >= 0
    requires all == visited + AllMatches(text, needle, from)
    ensures var idx := IndexOfFrom(text, needle, from + 1);
      var go := idx >= 0 && idx < |text| - 2;
      (idx < 0 ==> all == visited)
      && (idx >= 0 ==> all == (visited + [idx]) + (if go then AllMatches(text, needle, idx) else []))
      && (go ==> from < idx <= |text|)
  {
    AllMatchesStep(text, needle, from);
    var idx := IndexOfFrom(text, needle, from + 1);
    if idx >= 0 {
      var rest := if idx < |text| - 2 then AllMatches(text, needle, idx) else [];
      assert (visited + [idx]) + rest == visited + ([idx] + rest);
    }
  }

  /** The body of the ALL loop for the match at `i`: the records so far, extended by
      the window at `i` or ended by its exception. */
  method ExtractNext(prefixLength: int, suffixLength: int, url: string, body: string,
                     ghost visited: seq<int>, records: seq<DataRecord>, i: int)
    returns (r: Result<seq<DataRecord>>)
    requires AllRecords(prefixLength, suffixLength, url, body, visited) == Success(records)
    requires |records| == |visited| && i >= 0
    ensures r == AllRecords(prefixLength, suffixLength, url, body, visited + [i])
    ensures r.Success? ==> |r.value| == |records| + 1
  {
    var extracted := ExtractMatchText(prefixLength, suffixLength, url + IntToString(|records|), body, i);
    AllRecordsExtend(prefixLength, suffixLength, url, body, visited, records, i);
    if extracted.Failure? {
      return Failure(extracted.error);
    }
    r := Success(records + [extracted.value.value]);
  }

  /** The ALL branch of performSearch: the do-while loop over the occurrences of
      `needle` in `text`, cutting each window from `body`. */
  method SearchAll(prefixLength: int, suffixLength: int, url: string, body: string, text: string, needle: string)
    returns (r: Result<seq<DataRecord>>)
    ensures r == AllRecords(prefixLength, suffixLength, url, body, AllMatches(text, needle, 0))
  {
    ghost var all := AllMatches(text, needle, 0);
    var records: seq<DataRecord> := [];
    ghost var visited: seq<int> := [];
    var lastIdx := 0;
    var go := true;
    while go
      invariant go ==> 0 <= lastIdx <= |text|
      invariant AllRecords(prefixLength, suffixLength, url, body, visited) == Success(records)
      invariant go ==> all == visited + AllMatches(text, needle, lastIdx)
      invariant !go ==> all == visited
      invariant |records| == |visited|
      decreases if go then |text| - lastIdx + 3 else 0
    {
      ghost var from := lastIdx;
      AllLoopStep(text, needle, all, visited, from);
      lastIdx := IndexOfFrom(text, needle, lastIdx + 1);
      go := lastIdx >= 0 && lastIdx < |text| - 2;
      if lastIdx >= 0 {
        ghost var rest := if go then AllMatches(text, needle, lastIdx) else [];
        var next := ExtractNext(prefixLength, suffixLength, url, body, visited, records, lastIdx);
        if next.Failure? {
          FailureEndsAllRecords(prefixLength, suffixLength, url, body, visited + [lastIdx], rest);
          return next;
        }
        records := next.value;
        visited := visited + [lastIdx];
      }
    }
    r := Success(records);
  }

  // ---------------------------------------------------------------- the extractor

  class TextSearchExtractor {
    var prefixLength: int
    var suffixLength: int
    var ignoreCase: bool
    var mode: Mode
    var searchString: Option<string>
    var supportedFiletypes: seq<string>

    function Current(): Settings
      reads this
    {
      Settings(prefixLength, suffixLength, ignoreCase, mode, searchString, supportedFiletypes)
    }

    /** A new extractor: lengths 0, ignoreCase, FULLTEXT, no search string and no file types. */
    constructor ()
      ensures Current() == INITIAL
    {
      prefixLength, suffixLength, ignoreCase := 0, 0, true;
      mode, searchString, supportedFiletypes := FullText, None, [];
    }

    /** init: the fields become Configure's settings and the outcome is Configure's. */
    method Init(props: map<string, string>) returns (o: Outcome)
      modifies this
      ensures (Current(), o) == Configure(old(Current()), props)
    {
      if MODE_PROPERTY_KEY in props {
        var m := ModeValueOf(ToUpper(props[MODE_PROPERTY_KEY]));
        if m.Failure? {
          return Fail(m.error);
        }
        mode := m.value;
      }
      var prefix := ParseInt(Property(props, PREFIX_LENGTH_KEY, DEFAULT_PREFIX));
      if prefix.Failure? {
        return Fail(prefix.error);
      }
      prefixLength := prefix.value;
      var suffix := ParseInt(Property(props, SUFFIX_LENGTH_KEY, DEFAULT_SUFFIX));
      if suffix.Failure? {
        return Fail(suffix.error);
      }
      suffixLength := suffix.value;
      ignoreCase := ParseBoolean(Some(Property(props, IGNORE_CASE_KEY, "true")));
      searchString := if SEARCHSTRING_KEY in props then Some(props[SEARCHSTRING_KEY]) else None;
      supportedFiletypes := Split(ToLower(Property(props, SUPPORTED_FILETYPES, "")), ',');
      if ignoreCase {
        if searchString.None? {
          return Fail(NullPointer);
        }
        searchString := Some(ToUpper(searchString.value));
      }
      o := Pass;
    }

    /** performSearch, with ALL mode's do-while loop. */
    method PerformSearch(url: string, body: Option<string>) returns (r: Result<seq<DataRecord>>)
      ensures r == Search(Current(), url, body)
    {
      if body.None? {
        return Success([]);
      }
      if searchString.None? {
        return Failure(NullPointer);
      }
      var text := if ignoreCase then ToUpper(body.value) else body.value;
      var needle := searchString.value;
      if mode != All {
        return Search(Current(), url, body);
      }
      r := SearchAll(prefixLength, suffixLength, url, body.value, text, needle);
    }

    /** shouldSearch: every name passes an empty type list; otherwise the lower-cased
        name must end with one of the types. */
    method ShouldSearch(name: string) returns (b: bool)
      ensures b == (supportedFiletypes == []
                    || exists k :: 0 <= k < |supportedFiletypes| && EndsWith(ToLower(name), supportedFiletypes[k]))
    {
      if |supportedFiletypes| > 0 {
        var lower := ToLower(name);
        for k := 0 to |supportedFiletypes|
          invariant forall l :: 0 <= l < k ==> !EndsWith(lower, supportedFiletypes[l])
        {
          if EndsWith(lower, supportedFiletypes[k]) {
            return true;
          }
        }
        return false;
      }
      return true;
    }
  }

  /** With the default type list [""], every file name is searched. */
  lemma DefaultTypesAcceptAll(name: string)
    ensures EndsWith(ToLower(name), Split(ToLower(""), ',')[0])
  {
    assert ToLower("") == "" && Split("", ',') == [""];
  }
}
