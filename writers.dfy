/** The batched data writers. A writer collects records in a pending set (records
    equal under DataRecord.equals count once) and, at each flush, writes every
    pending record once between a start-of-batch and an end-of-batch hook. Two
    formats are modelled: the CSV file writer, whose rows hold the configured
    fields in order, and the print writer, whose lines hold the identifier
    and every field. The file or console is the string `out`. */
module Writers {
  import opened Wrappers
  import opened Strings
  import opened Records

  // ---------------------------------------------------------------- CSV rows

  /** The strings of `xs` from the first non-empty one on. */
  function DropLeadingEmpty(xs: seq<string>): (r: seq<string>)
    ensures |r| <= |xs| && r == xs[|xs| - |r|..]
    ensures forall i :: 0 <= i < |xs| - |r| ==> xs[i] == ""
    ensures r == [] || r[0] != ""
  {
    if xs != [] && xs[0] == "" then DropLeadingEmpty(xs[1..]) else xs
  }

  /** The rendered values of the configured fields, in order; a missing field renders as "null". */
  function FieldValues(record: DataRecord, fields: seq<string>): (vs: seq<string>)
    ensures |vs| == |fields|
  {
    if fields == [] then []
    else FieldValues(record, fields[..|fields| - 1]) + [Render(record.GetFieldValue(fields[|fields| - 1]))]
  }

  /** A CSV row: a delimiter goes in only once the row is non-empty, so the values are
      joined by the delimiter after the leading empty ones are dropped; then a newline. */
  function CsvRow(record: DataRecord, fields: seq<string>, delimiter: string): string {
    Join(DropLeadingEmpty(FieldValues(record, fields)), delimiter) + "\n"
  }

  lemma {:induction false} JoinLength(xs: seq<string>, d: string)
    requires xs != []
    ensures |Join(xs, d)| >= |xs[0]|
  {
    if |xs| > 1 {
      JoinLength(xs[..|xs| - 1], d);
    }
  }

  lemma JoinSnoc(xs: seq<string>, v: string, d: string)
    requires xs != []
    ensures Join(xs + [v], d) == Join(xs, d) + d + v
  {
    assert (xs + [v])[..|xs|] == xs;
  }

  lemma {:induction false} DropLeadingEmptySnoc(xs: seq<string>, v: string)
    ensures DropLeadingEmpty(xs + [v]) ==
      if DropLeadingEmpty(xs) == [] then (if v == "" then [] else [v])
      else DropLeadingEmpty(xs) + [v]
  {
    var ys := xs + [v];
    if xs == [] {
      assert ys == [v] && ys[1..] == [];
    } else if xs[0] == "" {
      assert ys[0] == "" && ys[1..] == xs[1..] + [v];
      DropLeadingEmptySnoc(xs[1..], v);
      assert DropLeadingEmpty(ys) == DropLeadingEmpty(xs[1..] + [v]);
      assert DropLeadingEmpty(xs) == DropLeadingEmpty(xs[1..]);
    } else {
      assert ys[0] != "";
      assert DropLeadingEmpty(ys) == ys && DropLeadingEmpty(xs) == xs;
    }
  }

  /** One more value: the delimiter goes in first only when the row so far is non-empty. */
  lemma CsvStep(xs: seq<string>, v: string, d: string)
    ensures var row := Join(DropLeadingEmpty(xs), d);
      Join(DropLeadingEmpty(xs + [v]), d) == (if |row| > 0 then row + d else row) + v
  {
    DropLeadingEmptySnoc(xs, v);
    var done := DropLeadingEmpty(xs);
    if done != [] {
      JoinLength(done, d);
      JoinSnoc(done, v, d);
    }
  }

  lemma FieldValuesSnoc(record: DataRecord, fields: seq<string>, k: nat)
    requires k < |fields|
    ensures FieldValues(record, fields[..k + 1])
         == FieldValues(record, fields[..k]) + [Render(record.GetFieldValue(fields[k]))]
  {
    assert fields[..k + 1][..k] == fields[..k];
  }

  /** CSVFileWriter.writeItem's row, built field by field as the StringBuilder loop does. */
  method BuildCsvRow(record: DataRecord, fields: seq<string>, delimiter: string) returns (row: string)
    ensures row == CsvRow(record, fields, delimiter)
  {
    var builder := "";
    for k := 0 to |fields|
      invariant builder == Join(DropLeadingEmpty(FieldValues(record, fields[..k])), delimiter)
    {
      var value := Render(record.GetFieldValue(fields[k]));
      FieldValuesSnoc(record, fields, k);
      CsvStep(FieldValues(record, fields[..k]), value, delimiter);
      if |builder| > 0 {
        builder := builder + delimiter;
      }
      builder := builder + value;
    }
    assert fields[..|fields|] == fields;
    row := builder + "\n";
  }

  lemma {:induction false} FieldValuesHead(record: DataRecord, fields: seq<string>)
    requires fields != []
    ensures FieldValues(record, fields)
         == [Render(record.GetFieldValue(fields[0]))] + FieldValues(record, fields[1..])
  {
    if |fields| > 1 {
      var init := fields[..|fields| - 1];
      FieldValuesHead(record, init);
      assert fields[1..][..|fields| - 2] == init[1..];
    }
  }

  /** When no configured value renders empty, a row is the values joined by the delimiter. */
  lemma CsvRowOfNonEmptyValues(record: DataRecord, fields: seq<string>, delimiter: string)
    requires forall i :: 0 <= i < |fields| ==> Render(record.GetFieldValue(fields[i])) != ""
    ensures CsvRow(record, fields, delimiter) == Join(FieldValues(record, fields), delimiter) + "\n"
  {
    if fields != [] {
      FieldValuesHead(record, fields);
    }
  }

  /** The quirk: an empty leading value contributes neither its text nor the delimiter
      after it, so the row reads as if that field were not configured. */
  lemma CsvRowSkipsEmptyLead(record: DataRecord, fields: seq<string>, delimiter: string)
    requires |fields| > 0 && Render(record.GetFieldValue(fields[0])) == ""
    ensures CsvRow(record, fields, delimiter) == CsvRow(record, fields[1..], delimiter)
  {
    var vs := FieldValues(record, fields);
    FieldValuesHead(record, fields);
    assert vs[0] == "" && vs[1..] == FieldValues(record, fields[1..]);
  }

  // ---------------------------------------------------------------- print lines

  /** One segment `delimiter + name + "=" + value` per field, in iteration order. */
  function Segments(fs: seq<Field>, delimiter: string): string {
    if fs == [] then ""
    else Segments(fs[..|fs| - 1], delimiter) + delimiter + fs[|fs| - 1].name + "=" + Render(fs[|fs| - 1].value)
  }

  /** PrintWriter.writeItem's line: the identifier, then the field segments, then a newline. */
  function PrintLine(record: DataRecord, delimiter: string): (line: string)
    ensures StartsWith(line, record.identifier)
    ensures record.entries == [] ==> line == record.identifier + "\n"
  {
    record.identifier + Segments(record.entries, delimiter) + "\n"
  }

  /** Setting a new field adds exactly one segment. It lands at the end of the line
      because fields are kept in first-insertion order; HashMap iteration order could
      put it anywhere. */
  lemma PrintLineOfNewField(record: DataRecord, name: string, v: FieldValue, delimiter: string)
    requires name !in record.Fields()
    ensures PrintLine(record.SetField(name, v), delimiter)
         == record.identifier + Segments(record.entries, delimiter)
            + delimiter + name + "=" + Render(v) + "\n"
  {
    LookupAgreesWithMap(record.entries, name);
    var fs := record.SetField(name, v).entries;
    assert fs == record.entries + [Field(name, v)];
    assert fs[..|fs| - 1] == record.entries;
  }

  lemma PrintStep(identifier: string, fs: seq<Field>, k: nat, delimiter: string)
    requires k < |fs|
    ensures identifier + Segments(fs[..k + 1], delimiter)
         == identifier + Segments(fs[..k], delimiter) + delimiter + fs[k].name + "=" + Render(fs[k].value)
  {
    assert fs[..k + 1][..k] == fs[..k];
  }

  /** PrintWriter.writeItem's line, built entry by entry as the StringBuilder loop does. */
  method BuildPrintLine(record: DataRecord, delimiter: string) returns (line: string)
    ensures line == PrintLine(record, delimiter)
  {
    var builder := record.identifier;
    var fs: seq<Field> := record.entries;
    for k := 0 to |fs|
      invariant builder == record.identifier + Segments(fs[..k], delimiter)
    {
      PrintStep(record.identifier, fs, k, delimiter);
      builder := builder + delimiter + fs[k].name + "=" + Render(fs[k].value);
    }
    assert fs[..|fs|] == fs;
    line := builder + "\n";
  }

  /** The delimiter PrintWriter.getDelimiter returns. */
  const PRINT_DELIMITER: string := "\t"

  // ---------------------------------------------------------------- CSV configuration

  const FILENAME := "csvwriter.filename"
  const MODE := "csvwriter.mode"
  const HEADER_FLAG := "csvwriter.includeheader"
  const FIELDS := "csvwriter.fieldorder"
  const DELIM := "csvwriter.delimiter"

  datatype CsvSettings = CsvSettings(
    fileName: string,
    append: bool,
    fieldsToWrite: seq<string>,
    delimiter: string,
    header: Option<string>)

  /** Properties.getProperty(key, default). */
  function Property(props: map<string, string>, key: string, default: string): string {
    if key in props then props[key] else default
  }

  /** CSVFileWriter.init, apart from the file itself: a missing or blank field order is
      an IllegalStateException, and so is a missing file name or a file that cannot be
      opened (`canOpen`). The fields are the field order split on ';', the delimiter
      defaults to ",", append mode is the mode "append" in any case, and the header
      (written only when includeheader parses true) is the field order with every ';'
      replaced by the delimiter. */
  function CsvInit(props: map<string, string>, canOpen: (string, bool) -> bool): (r: Result<CsvSettings>)
    ensures (FIELDS !in props || Trim(props[FIELDS]) == []) ==>
      r == Failure(IllegalState(FIELDS + " must be non-empty in the property file when using CSVFileWriter"))
    ensures (FIELDS in props && Trim(props[FIELDS]) != []
             && (FILENAME !in props
                 || !canOpen(props[FILENAME], EqualsIgnoreCase(Property(props, MODE, "overwrite"), "append")))) ==>
      r == Failure(IllegalState("Could not configure CSVFileWriter"))
    ensures (FIELDS in props && Trim(props[FIELDS]) != [] && FILENAME in props
             && canOpen(props[FILENAME], EqualsIgnoreCase(Property(props, MODE, "overwrite"), "append"))) ==>
      r.Success?
    ensures r.Success? ==>
      && FIELDS in props && FILENAME in props
      && r.value.fileName == props[FILENAME]
      && r.value.fieldsToWrite == Split(props[FIELDS], ';')
      && r.value.delimiter == Property(props, DELIM, ",")
      && (r.value.append <==> EqualsIgnoreCase(Property(props, MODE, "overwrite"), "append"))
      && (r.value.header.Some? <==> ParseBoolean(Some(Property(props, HEADER_FLAG, "false"))))
      && (r.value.header.Some? ==>
            r.value.header.value == Join(SplitAll(props[FIELDS], ';'), r.value.delimiter) + "\n")
  {
    var append := EqualsIgnoreCase(Property(props, MODE, "overwrite"), "append");
    var delimiter := Property(props, DELIM, ",");
    if FIELDS !in props || |Trim(props[FIELDS])| == 0 then
      Failure(IllegalState(FIELDS + " must be non-empty in the property file when using CSVFileWriter"))
    else
      var headerString := props[FIELDS];
      var fields := Split(headerString, ';');
      if FILENAME !in props || !canOpen(props[FILENAME], append) then
        Failure(IllegalState("Could not configure CSVFileWriter"))
      else
        var header := if ParseBoolean(Some(Property(props, HEADER_FLAG, "false")))
          then Some(ReplaceChar(headerString, ';', delimiter) + "\n") else None;
        ReplaceCharIsJoin(headerString, ';', delimiter);
        Success(CsvSettings(props[FILENAME], append, fields, delimiter, header))
  }

  /** The header names the configured fields in order: splitting it (without its
      newline) on a one-character delimiter gives back the pieces of the field order. */
  lemma CsvHeaderNamesFields(props: map<string, string>, canOpen: (string, bool) -> bool)
    requires CsvInit(props, canOpen).Success?
    requires CsvInit(props, canOpen).value.header.Some?
    ensures var s := CsvInit(props, canOpen).value;
      Join(SplitAll(props[FIELDS], ';'), [';']) == props[FIELDS]
      && s.header.value[..|s.header.value| - 1] == ReplaceChar(props[FIELDS], ';', s.delimiter)
  {
    var s := CsvInit(props, canOpen).value;
    SplitAllJoin(props[FIELDS], ';');
    ReplaceCharIsJoin(props[FIELDS], ';', s.delimiter);
  }

  // ---------------------------------------------------------------- the writer

  datatype Format = Csv(fieldsToWrite: seq<string>, delimiter: string) | Print(delimiter: string)

  /** What a writer does, in order, as the hooks of AbstractDataWriter see it. */
  datatype Event = BatchStarted | ItemWritten(record: DataRecord) | BatchCompleted | OutputFlushed

  /** The text writeItem emits for one record. */
  function Row(format: Format, record: DataRecord): string {
    match format
    case Csv(fields, d) => CsvRow(record, fields, d)
    case Print(d) => PrintLine(record, d)
  }

  /** The row writeItem builds, by the format's own loop. */
  method BuildRow(format: Format, record: DataRecord) returns (text: string)
    ensures text == Row(format, record)
  {
    match format {
      case Csv(fields, d) =>
        text := BuildCsvRow(record, fields, d);
      case Print(d) =>
        text := BuildPrintLine(record, d);
    }
  }

  /** The text of a batch: the rows of its records in the order they were written. */
  function Rows(format: Format, rs: seq<DataRecord>): string {
    if rs == [] then "" else Rows(format, rs[..|rs| - 1]) + Row(format, rs[|rs| - 1])
  }

  /** One writeItem event per record, in order. */
  function Writes(rs: seq<DataRecord>): (es: seq<Event>)
    ensures |es| == |rs|
  {
    if rs == [] then [] else Writes(rs[..|rs| - 1]) + [ItemWritten(rs[|rs| - 1])]
  }

  /** completeBatch: the base hook, and for a CSV file a flush to disk. */
  function Completion(format: Format): seq<Event> {
    if format.Csv? then [BatchCompleted, OutputFlushed] else [BatchCompleted]
  }

  /** `rs` lists the records of `batch` (a set keyed by record identity) once each. */
  predicate ListsOnce(rs: seq<DataRecord>, batch: map<RecordKey, DataRecord>) {
    (forall i, j :: 0 <= i < j < |rs| ==> rs[i].Key() != rs[j].Key())
    && (forall i :: 0 <= i < |rs| ==> rs[i].Key() in batch && batch[rs[i].Key()] == rs[i])
    && (forall k :: k in batch ==> exists i :: 0 <= i < |rs| && rs[i].Key() == k)
  }

  /** A writer's batch, output and hook calls. */
  type Snapshot = (map<RecordKey, DataRecord>, string, seq<Event>)

  /** A flush by an open writer of `format` that took it from `before` to `after`: the
      batch is cleared, `written` lists each of its records exactly once, and startBatch,
      one writeItem per record in that order and completeBatch were run. */
  ghost predicate Flushed(format: Format, before: Snapshot, after: Snapshot, written: seq<DataRecord>) {
    && after.0 == map[]
    && ListsOnce(written, before.0)
    && after.2 == before.2 + [BatchStarted] + Writes(written) + Completion(format)
    && after.1 == before.1 + Rows(format, written)
  }

  /** A listing of a batch has exactly as many records as the batch. */
  lemma {:induction false} ListsOnceCount(rs: seq<DataRecord>, batch: map<RecordKey, DataRecord>)
    requires ListsOnce(rs, batch)
    ensures |rs| == |batch|
  {
    var keys := set i | 0 <= i < |rs| :: rs[i].Key();
    assert keys == batch.Keys;
    KeysCount(rs);
  }

  lemma {:induction false} KeysCount(rs: seq<DataRecord>)
    requires forall i, j :: 0 <= i < j < |rs| ==> rs[i].Key() != rs[j].Key()
    ensures |set i | 0 <= i < |rs| :: rs[i].Key()| == |rs|
  {
    if rs != [] {
      var init := rs[..|rs| - 1];
      KeysCount(init);
      assert (set i | 0 <= i < |rs| :: rs[i].Key())
          == (set i | 0 <= i < |init| :: init[i].Key()) + {rs[|rs| - 1].Key()};
    }
  }

  /** Concatenation is associative. */
  lemma Associative<T>(a: seq<T>, b: seq<T>, c: seq<T>)
    ensures (a + b) + c == a + (b + c)
  {
  }

  /** The loop state of flushBatch: `rs` lists, once each, the records of `batch` outside `rest`. */
  predicate Partial(rs: seq<DataRecord>, batch: map<RecordKey, DataRecord>, rest: set<RecordKey>) {
    (forall i, j :: 0 <= i < j < |rs| ==> rs[i].Key() != rs[j].Key())
    && (forall i :: 0 <= i < |rs| ==> rs[i].Key() in batch && batch[rs[i].Key()] == rs[i] && rs[i].Key() !in rest)
    && (forall k :: k in batch && k !in rest ==> exists i :: 0 <= i < |rs| && rs[i].Key() == k)
  }

  lemma PartialStep(rs: seq<DataRecord>, batch: map<RecordKey, DataRecord>, rest: set<RecordKey>, key: RecordKey)
    requires Partial(rs, batch, rest) && key in rest && key in batch && batch[key].Key() == key
    ensures Partial(rs + [batch[key]], batch, rest - {key})
  {
    var rs' := rs + [batch[key]];
    forall k | k in batch && k !in rest - {key}
      ensures exists i :: 0 <= i < |rs'| && rs'[i].Key() == k
    {
      if k == key {
        assert rs'[|rs|].Key() == k;
      } else {
        var i :| 0 <= i < |rs| && rs[i].Key() == k;
        assert rs'[i].Key() == k;
      }
    }
  }

  class DataWriter {
    const format: Format
    /** The pending records, by identity. */
    var pending: map<RecordKey, DataRecord>
    /** Everything written to the file or the console so far. */
    var out: string
    /** The hook calls of every batch so far. */
    var trace: seq<Event>
    /** Whether finish has closed the CSV file. */
    var closed: bool

    ghost predicate Valid()
      reads this
    {
      forall k :: k in pending ==> pending[k].Key() == k
    }

    /** A CSV file writer after a successful init: in append mode the existing
        contents of the file are kept; the header, if any, is written first. */
    constructor Csv(settings: CsvSettings, existing: string)
      ensures Valid()
      ensures format == Format.Csv(settings.fieldsToWrite, settings.delimiter)
      ensures pending == map[] && trace == [] && !closed
      ensures out == (if settings.append then existing else "")
                     + (if settings.header.Some? then settings.header.value else "")
    {
      format := Format.Csv(settings.fieldsToWrite, settings.delimiter);
      pending := map[];
      trace := [];
      closed := false;
      out := (if settings.append then existing else "")
             + (if settings.header.Some? then settings.header.value else "");
    }

    /** A print writer: its delimiter is a tab unless a subclass supplies another. */
    constructor Print(delimiter: string)
      ensures Valid()
      ensures format == Format.Print(delimiter)
      ensures pending == map[] && out == "" && trace == [] && !closed
    {
      format := Format.Print(delimiter);
      pending := map[];
      out := "";
      trace := [];
      closed := false;
    }

    /** addItem: HashSet.add, which keeps the pending record equal to `record` if there is one. */
    method AddItem(record: DataRecord)
      requires Valid()
      modifies this
      ensures Valid()
      ensures record.Key() in old(pending) ==> pending == old(pending)
      ensures record.Key() !in old(pending) ==> pending == old(pending)[record.Key() := record]
      ensures out == old(out) && trace == old(trace) && closed == old(closed)
    {
      if record.Key() !in pending {
        pending := pending[record.Key() := record];
      }
    }

    /** writeItem for either format. A closed CSV file refuses the write. */
    method WriteItem(record: DataRecord) returns (o: Outcome)
      modifies this
      ensures pending == old(pending) && closed == old(closed)
      ensures format.Csv? && closed ==>
        o == Fail(RuntimeFailure("Could not write item to file")) && out == old(out) && trace == old(trace)
      ensures !(format.Csv? && closed) ==>
        o == Pass && out == old(out) + Row(format, record) && trace == old(trace) + [ItemWritten(record)]
    {
      if format.Csv? && closed {
        return Fail(RuntimeFailure("Could not write item to file"));
      }
      var text := BuildRow(format, record);
      out := out + text;
      trace := trace + [ItemWritten(record)];
      o := Pass;
    }

    /** A writer's batch, output and hook calls: what finishing it leaves alone. */
    ghost function Contents(): Snapshot
      reads this
    {
      (pending, out, trace)
    }

    /** This writer's batch was written out from `before`, as Flushed says. */
    ghost predicate Wrote(before: Snapshot, written: seq<DataRecord>)
      reads this
    {
      Flushed(format, before, Contents(), written)
    }

    /** flushBatch: the pending set is taken and cleared, then startBatch, one writeItem
        per taken record in some order, and completeBatch, which for a CSV file also
        flushes it. An open writer writes every taken record exactly once and nothing
        else; a closed CSV file fails at its first write, or at the flush of an empty batch. */
    method FlushBatch() returns (o: Outcome, written: seq<DataRecord>)
      requires Valid()
      modifies this
      ensures Valid() && pending == map[] && closed == old(closed)
      ensures !(format.Csv? && closed) ==> o == Pass && Wrote(old(Contents()), written)
      ensures format.Csv? && closed ==>
        written == [] && out == old(out)
        && (if old(pending) == map[]
            then o == Fail(RuntimeFailure("could not flush batch to disk"))
                 && trace == old(trace) + [BatchStarted, BatchCompleted]
            else o == Fail(RuntimeFailure("Could not write item to file"))
                 && trace == old(trace) + [BatchStarted])
    {
      var items := pending;
      pending := map[];
      trace := trace + [BatchStarted];
      written := [];
      if format.Csv? && closed {
        if items == map[] {
          trace := trace + [BatchCompleted];
          return Fail(RuntimeFailure("could not flush batch to disk")), [];
        }
        return Fail(RuntimeFailure("Could not write item to file")), [];
      }
      ghost var trace0, out0 := trace, out;
      var rest := items.Keys;
      while rest != {}
        invariant rest <= items.Keys && items == old(pending)
        invariant forall k :: k in items ==> items[k].Key() == k
        invariant pending == map[] && closed == old(closed)
        invariant Partial(written, items, rest)
        invariant trace == trace0 + Writes(written)
        invariant out == out0 + Rows(format, written)
        decreases rest
      {
        var key :| key in rest;
        var record := items[key];
        var ok := WriteItem(record);
        PartialStep(written, items, rest, key);
        assert (written + [record])[..|written|] == written;
        Associative(trace0, Writes(written), [ItemWritten(record)]);
        Associative(out0, Rows(format, written), Row(format, record));
        written := written + [record];
        rest := rest - {key};
      }
      assert ListsOnce(written, items);
      trace := trace + Completion(format);
      o := Pass;
    }

    /** finish: a CSV file is closed (closing twice is harmless); the print writer does nothing. */
    method Finish()
      modifies this
      ensures closed == (old(closed) || format.Csv?)
      ensures pending == old(pending) && out == old(out) && trace == old(trace)
    {
      if format.Csv? {
        closed := true;
      }
    }
  }
}
