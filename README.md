# datasponge crawler core, modelled in Dafny

datasponge is a distributed web crawler. A coordinator publishes a crawl job,
each participating host enrolls, and the coordinator then assigns every
participant a node id. Every host runs a job executor. The executor seeds a
shared work queue with the job's start URLs and starts spider threads. A
spider thread takes the next URL off the queue and fetches the page or lists
the directory. It offers the links it finds back to the queue, runs the
extracted records through the enhancer chain (such as the duplicate filter)
and hands the survivors to a batched data writer (CSV file or console). The
extractors include a text search over page bodies.

This project models the sequential, in-memory core of that system and proves
what it promises:

| file | module | models |
|---|---|---|
| `wrappers.dfy` | `Wrappers` | `Option`, `Result`/`Outcome` and the Java exceptions that the code raises |
| `strings.dfy` | `Strings` | the `java.lang.String` operations the core relies on: `trim`, `indexOf`, `lastIndexOf`, `split`, `toUpperCase`, `Integer.parseInt`, `Boolean.parseBoolean`, `hashCode`, and 32-bit `int` wrap-around |
| `records.dfy` | `Records` | `DataRecord`: identity, field map, `equals`/`hashCode` |
| `model.dfy` | `Model` | the `Job`, `JobEnrollment`, `ManagementMessage` and `PluginConfig` beans |
| `workqueue.dfy` | `WorkQueue` | `CrawlerWorkqueue`: URL normalisation, `makeAbsolute`, admission, FIFO queue |
| `writers.dfy` | `Writers` | `AbstractDataWriter` batching, the `CSVFileWriter` and `PrintWriter` formats, and CSV `init` |
| `dedup.dfy` | `Dedup` | `DeduplicationEnhancer` |
| `textsearch.dfy` | `TextSearch` | `TextSearchExtractor`: `init`, the four search modes, the context window, `shouldSearch` |
| `spider.dfy` | `Spider` | `SpiderThread`: routing, link filtering, the enhancer chain, the idle-counter loop |
| `executor.dfy` | `Executor` | `JobExecutor`: `init`, seeding, worker monitoring, the ONCE/CONTINUOUS rule |
| `coordinator.dfy` | `Coordinator` | `JobCoordinator`: job, enrollment, assignment and output handling, and the completion sweep |

Objects whose fields the Java code updates in place are Dafny classes. Their
methods use `modifies` frames and state the new values of the fields they
change (a flush is stated by `Writers.Flushed`: the batch is empty, each old
pending record was written once, and the output and the event trace grew by
exactly those records). These are the
work queue, the writers, the duplicate filter, the text-search extractor, the
spider thread, the executor and the coordinator. The beans and `DataRecord`
are datatypes, and their setters are datatype updates. Each imperative method
is proved against a specification function: `Offer` for `enqueue`, `Search`
and `AllRecords` for `performSearch`, `CsvRow` and `PrintLine` for `writeItem`,
and `OfferAll`, `ItemVisit` and `Delivered` for a spider turn. The properties
the source promises are then lemmas about those functions.

A Java `null` is `None` where the model has an `Option`, and a Java exception
is a `Failure`/`Fail` value that names the exception class (and its message
where the code sets one). The nulls and exceptions the model does not cover
(the enhancers, several null fields and parameters, the state before `init`)
are listed under "## Left out".

## Model

All source paths are relative to the repository root.

| member | source | states |
|---|---|---|
| Strings.Wrap32 | src/main/java/org/cataractsoftware/datasponge/extractor/TextSearchExtractor.java:174 | the Java `int` value of an arithmetic result: in 32-bit range, congruent modulo 2^32, identity on values already in range |
| Strings.Trim | src/main/java/org/cataractsoftware/datasponge/crawler/CrawlerWorkqueue.java:94-95 | `String.trim`: the result is the infix of the url left once every leading and every trailing character <= ' ' is dropped; it neither starts nor ends with such a character, and it is empty exactly when every character is one |
| Strings.TrimKeepsOut | src/main/java/org/cataractsoftware/datasponge/crawler/CrawlerWorkqueue.java:95-97 | trimming adds no character: a '#' absent before trim is absent after it |
| Strings.TrimIdempotent | src/main/java/org/cataractsoftware/datasponge/crawler/CrawlerWorkqueue.java:95 | String.trim is idempotent: trimming a trimmed string changes nothing |
| Strings.IndexOfFrom | src/main/java/org/cataractsoftware/datasponge/crawler/CrawlerWorkqueue.java:123-124 | `indexOf(p, from)` returns -1 or an occurrence at or after the clamped start |
| Strings.IndexOfFromSpec | src/main/java/org/cataractsoftware/datasponge/crawler/CrawlerWorkqueue.java:123-124 | `indexOf(p, from)` is -1 exactly when no occurrence lies at or after the clamped start, and no occurrence lies before the index it returns |
| Strings.LastIndexOf | src/main/java/org/cataractsoftware/datasponge/crawler/CrawlerWorkqueue.java:139 | `lastIndexOf(p)` returns -1 or an occurrence |
| Strings.LastIndexOfSpec | src/main/java/org/cataractsoftware/datasponge/crawler/CrawlerWorkqueue.java:139 | `lastIndexOf(p)` is -1 exactly when there is no occurrence, and none lies after the index it returns |
| Strings.ToUpper | src/main/java/org/cataractsoftware/datasponge/extractor/TextSearchExtractor.java:124-126 | upper-casing keeps the length and maps each character on its own, so indices in the searched text are indices in the body |
| Strings.ParseInt | src/main/java/org/cataractsoftware/datasponge/extractor/TextSearchExtractor.java:208-209 | `Integer.parseInt` yields a value in the `int` range, or a NumberFormatException that names the input |
| Strings.ParseIntOfIntToString | src/main/java/org/cataractsoftware/datasponge/engine/JobCoordinator.java:188-189 | parsing the decimal text of any `int` gives back that `int` |
| Strings.IntToString | src/main/java/org/cataractsoftware/datasponge/engine/JobCoordinator.java:188-189 | `nodeId + ""`: a '-' exactly for a negative value, followed by at least one decimal digit and nothing else |
| Strings.EqualsIgnoreCase | src/main/java/org/cataractsoftware/datasponge/writer/CSVFileWriter.java:41 | `equalsIgnoreCase`: the same length, and the characters agree position by position up to letter case |
| Strings.ParseBoolean | src/main/java/org/cataractsoftware/datasponge/writer/CSVFileWriter.java:50 | `Boolean.parseBoolean`: true exactly for a non-null four-letter text that reads "true" in any letter case |
| Strings.Split | src/main/java/org/cataractsoftware/datasponge/writer/CSVFileWriter.java:47 | `String.split` on a literal character: the pieces of the text between separators, in order, with only empty trailing pieces dropped (the last kept piece of a text with a separator is non-empty); no piece contains the separator; a text without the separator is one piece |
| Strings.SplitAllWithoutSep | src/main/java/org/cataractsoftware/datasponge/writer/CSVFileWriter.java:47 | a text without the separator splits into the one piece that is the text |
| Strings.SplitAllJoin | src/main/java/org/cataractsoftware/datasponge/writer/CSVFileWriter.java:47 | joining the pieces between the separators, with the separator, gives back the string |
| Strings.ReplaceCharIsJoin | src/main/java/org/cataractsoftware/datasponge/writer/CSVFileWriter.java:51 | replacing every separator by `d` is joining the pieces between the separators with `d` |
| Strings.StringHash | src/main/java/org/cataractsoftware/datasponge/DataRecord.java:78-79 | `String.hashCode` is a 32-bit `int` |
| Records.Position | src/main/java/org/cataractsoftware/datasponge/DataRecord.java:43-45 | the position of a field name in the field list: -1 exactly when no field has that name, otherwise a field with that name |
| Records.DataRecord.GetFieldValue | src/main/java/org/cataractsoftware/datasponge/DataRecord.java:43-45 | `getFieldValue` is the mapped value, or null for a name that is not set |
| Records.DataRecord.FieldCount | src/main/java/org/cataractsoftware/datasponge/DataRecord.java:47-49 | `getFieldCount` is the size of the field map |
| Records.DataRecord.SetField | src/main/java/org/cataractsoftware/datasponge/DataRecord.java:39-41 | `setField` keeps the identity and makes the field map the old one with `name` mapped to the value |
| Records.NewRecord | src/main/java/org/cataractsoftware/datasponge/DataRecord.java:19-29 | the constructor throws IllegalArgumentException "Cannot have null identifier" or "Cannot have null type", identifier checked first; otherwise it gives a record with that identity and no fields |
| Records.Record | src/main/java/org/cataractsoftware/datasponge/DataRecord.java:26-28 | a new record has the given identity and an empty field map |
| Records.LookupAgreesWithMap | src/main/java/org/cataractsoftware/datasponge/DataRecord.java:40-44 | the field list and the field map agree: a name is in the map exactly when a field has it, with that field's value |
| Records.MapKeys | src/main/java/org/cataractsoftware/datasponge/DataRecord.java:51-53 | the map's names are exactly the names of the listed fields |
| Records.MapSize | src/main/java/org/cataractsoftware/datasponge/DataRecord.java:47-49 | the map has one entry per listed field |
| Records.UpdateInPlace | src/main/java/org/cataractsoftware/datasponge/DataRecord.java:39-41 | overwriting a field in place is the map update of that name |
| Records.SetThenGet | src/main/java/org/cataractsoftware/datasponge/DataRecord.java:39-45 | `getFieldValue(n)` after `setField(n, v)` is `v` |
| Records.SetKeepsOthers | src/main/java/org/cataractsoftware/datasponge/DataRecord.java:39-45 | `setField(n, v)` leaves every other name's value as it was |
| Records.SetFieldCount | src/main/java/org/cataractsoftware/datasponge/DataRecord.java:39-49 | overwriting a name keeps the field count; a new name adds one |
| Records.EqualsIgnoresFields | src/main/java/org/cataractsoftware/datasponge/DataRecord.java:63-74 | two records are equal exactly when they differ in nothing but their fields, and setting any field never changes which records a record equals |
| Records.DataRecord.HashCode | src/main/java/org/cataractsoftware/datasponge/DataRecord.java:76-81 | `hashCode` is a Java `int`; with EqualsImpliesSameHash it agrees with `equals` |
| Records.EqualsIsEquivalence | src/main/java/org/cataractsoftware/datasponge/DataRecord.java:64-74 | `equals` is reflexive, symmetric and transitive |
| Records.EqualsImpliesSameHash | src/main/java/org/cataractsoftware/datasponge/DataRecord.java:77-81 | equal records have equal `hashCode` |
| Model.NewJob | src/main/java/org/cataractsoftware/datasponge/model/Job.java:30-33 | a new job is SUBMITTED at the given time, with no guid, coordinator, mode, start urls or thread count |
| Model.StatusNamesDistinct | src/main/java/org/cataractsoftware/datasponge/model/Job.java:155-157 | the three status names are distinct, so `getJobStatus` identifies the status |
| Model.NewEnrollment | src/main/java/org/cataractsoftware/datasponge/model/JobEnrollment.java:10-22 | a new enrollment carries the job and host ids, `lastHeartbeat` 0 and `complete` false |
| Model.EnrollmentEquality | src/main/java/org/cataractsoftware/datasponge/model/JobEnrollment.java:66-85 | two enrollments are equal exactly when they differ in nothing but heartbeat and completion; recording a heartbeat or a completion keeps an enrollment equal to what it was and to every enrollment it equalled |
| Model.EnrollmentHashConsistent | src/main/java/org/cataractsoftware/datasponge/model/JobEnrollment.java:57-63 | equal enrollments have equal `hashCode` |
| WorkQueue.StripFragment | src/main/java/org/cataractsoftware/datasponge/crawler/CrawlerWorkqueue.java:96-98 | the result holds no '#'; if the url holds one, the result followed by '#' is a prefix of it; otherwise the url is unchanged |
| WorkQueue.MakeAbsolute | src/main/java/org/cataractsoftware/datasponge/crawler/CrawlerWorkqueue.java:117-148 | a link starting with "http" is returned trimmed; any other link fails with NullPointerException exactly when the page is null |
| WorkQueue.MakeAbsoluteRooted | src/main/java/org/cataractsoftware/datasponge/crawler/CrawlerWorkqueue.java:122-135 | a "/"-rooted link is appended, untrimmed, to the page up to its first '/' after the protocol, or to the whole page when there is none |
| WorkQueue.MakeAbsoluteRelative | src/main/java/org/cataractsoftware/datasponge/crawler/CrawlerWorkqueue.java:139-144 | any other link is appended after a '/' to the page's directory: up to its last '/' when that lies past the protocol, else the whole page |
| WorkQueue.RootFromSlash | src/main/java/org/cataractsoftware/datasponge/crawler/CrawlerWorkqueue.java:122-135 | the first-slash index cuts the page at its root, or the page is its own root when the index is not positive |
| WorkQueue.DirectoryFromSlash | src/main/java/org/cataractsoftware/datasponge/crawler/CrawlerWorkqueue.java:139-144 | the last-slash index cuts the page at its directory when it lies past the protocol, otherwise the page is its own directory |
| WorkQueue.Normalize | src/main/java/org/cataractsoftware/datasponge/crawler/CrawlerWorkqueue.java:94-100 | enqueue returns at once exactly for a null, blank or "/" url; the only failure is the NullPointerException of a relative url without a page; a url resolved without a page starts with "http"; a resolved url never carries a fragment when its page url has none |
| WorkQueue.MakeAbsoluteFragmentFree | src/main/java/org/cataractsoftware/datasponge/crawler/CrawlerWorkqueue.java:117-145 | makeAbsolute introduces no '#': a link and a page url without one resolve to a url without one |
| WorkQueue.AdmissionLimits | src/main/java/org/cataractsoftware/datasponge/crawler/CrawlerWorkqueue.java:102-105 | an empty include list admits nothing, and an admitted url is never admitted again |
| WorkQueue.Offer | src/main/java/org/cataractsoftware/datasponge/crawler/CrawlerWorkqueue.java:93-108 | a change is exactly one new url, the normalised one, not processed before, appended at the tail and added to the processed set |
| WorkQueue.OfferIdempotent | src/main/java/org/cataractsoftware/datasponge/crawler/CrawlerWorkqueue.java:102-106 | offering the same url again changes nothing, whatever the pending queue has become in between |
| WorkQueue.CrawlerWorkqueue.constructor | src/main/java/org/cataractsoftware/datasponge/crawler/CrawlerWorkqueue.java:44-51 | a new queue keeps the given lists and is empty, with nothing processed |
| WorkQueue.CrawlerWorkqueue.Enqueue | src/main/java/org/cataractsoftware/datasponge/crawler/CrawlerWorkqueue.java:93-108 | the new state is `Offer` of the old one; the queue stays duplicate-free and within the processed set; only a relative link without a page throws |
| WorkQueue.CrawlerWorkqueue.Admit | src/main/java/org/cataractsoftware/datasponge/crawler/CrawlerWorkqueue.java:102-105 | an admissible url joins the tail and the processed set; any other url changes nothing |
| WorkQueue.CrawlerWorkqueue.IsInList | src/main/java/org/cataractsoftware/datasponge/crawler/CrawlerWorkqueue.java:158-167 | true exactly when some pattern of the list matches the url |
| WorkQueue.CrawlerWorkqueue.Dequeue | src/main/java/org/cataractsoftware/datasponge/crawler/CrawlerWorkqueue.java:187-196 | removes and returns the head in FIFO order; an empty queue returns null and changes nothing; the processed set is untouched |
| WorkQueue.CrawlerWorkqueue.Reset | src/main/java/org/cataractsoftware/datasponge/crawler/CrawlerWorkqueue.java:169-177 | both the queue and the processed set become empty |
| WorkQueue.CrawlerWorkqueue.GetSize | src/main/java/org/cataractsoftware/datasponge/crawler/CrawlerWorkqueue.java:203-209 | the number of pending urls |
| WorkQueue.EnqueueAgain | src/main/java/org/cataractsoftware/datasponge/crawler/CrawlerWorkqueue.java:102-106 | an enqueue whose normalised url was admitted before changes nothing on the live queue, even after it has been dequeued |
| Writers.DropLeadingEmpty | src/main/java/org/cataractsoftware/datasponge/writer/CSVFileWriter.java:62-64 | a suffix of the values whose dropped part is all empty strings and which starts with a non-empty one (or is empty) |
| Writers.FieldValues | src/main/java/org/cataractsoftware/datasponge/writer/CSVFileWriter.java:61-65 | one rendered value per configured field |
| Writers.DropLeadingEmptySnoc | src/main/java/org/cataractsoftware/datasponge/writer/CSVFileWriter.java:62-65 | one more value extends the kept values, unless nothing was kept and it is empty too |
| Writers.CsvStep | src/main/java/org/cataractsoftware/datasponge/writer/CSVFileWriter.java:62-65 | one more value: the delimiter goes in first exactly when the row built so far is non-empty |
| Writers.FieldValuesSnoc | src/main/java/org/cataractsoftware/datasponge/writer/CSVFileWriter.java:61-65 | the values of one more field are those of the fields before it plus its rendered value |
| Writers.BuildCsvRow | src/main/java/org/cataractsoftware/datasponge/writer/CSVFileWriter.java:59-67 | the StringBuilder loop builds exactly `CsvRow` |
| Writers.FieldValuesHead | src/main/java/org/cataractsoftware/datasponge/writer/CSVFileWriter.java:61-65 | the values start with the first field's rendered value |
| Writers.CsvRowOfNonEmptyValues | src/main/java/org/cataractsoftware/datasponge/writer/CSVFileWriter.java:59-67 | when no configured value renders empty, the row is the values (missing ones rendering "null") joined by the delimiter, then a newline |
| Writers.CsvRowSkipsEmptyLead | src/main/java/org/cataractsoftware/datasponge/writer/CSVFileWriter.java:62-64 | an empty leading value contributes neither its text nor the delimiter after it: the row is the row without that field |
| Writers.PrintLine | src/main/java/org/cataractsoftware/datasponge/writer/PrintWriter.java:18-28 | the line starts with the identifier, and for a record without fields it is the identifier alone |
| Writers.PrintLineOfNewField | src/main/java/org/cataractsoftware/datasponge/writer/PrintWriter.java:21-26 | setting a new field adds exactly one segment `delimiter + name + "=" + value`; under the first-insertion field order this model adopts it lands at the end of the line (with HashMap iteration order it may land anywhere) |
| Writers.PrintStep | src/main/java/org/cataractsoftware/datasponge/writer/PrintWriter.java:23-25 | one more field adds its one segment |
| Writers.BuildPrintLine | src/main/java/org/cataractsoftware/datasponge/writer/PrintWriter.java:18-28 | the StringBuilder loop builds exactly `PrintLine`: identifier, one segment per field in iteration order, newline |
| Writers.CsvInit | src/main/java/org/cataractsoftware/datasponge/writer/CSVFileWriter.java:38-56 | a missing or blank field order is an IllegalStateException that names the property; a missing file name or a file that cannot be opened is "Could not configure CSVFileWriter"; every other input succeeds, with the fields the order split on ';', the delimiter defaulting to ",", append iff the mode is "append" in any case, and a header iff includeheader parses true |
| Writers.CsvHeaderNamesFields | src/main/java/org/cataractsoftware/datasponge/writer/CSVFileWriter.java:50-52 | the header, without its newline, is the field order with each ';' replaced by the delimiter, so it names the configured fields in order |
| Writers.BuildRow | src/main/java/org/cataractsoftware/datasponge/writer/AbstractDataWriter.java:68 | writeItem's text for either format is `Row` |
| Writers.Writes | src/main/java/org/cataractsoftware/datasponge/writer/AbstractDataWriter.java:55-57 | one writeItem event per record |
| Writers.ListsOnceCount | src/main/java/org/cataractsoftware/datasponge/writer/AbstractDataWriter.java:55-57 | a listing of a batch that names each record once has exactly as many entries as the batch |
| Writers.PartialStep | src/main/java/org/cataractsoftware/datasponge/writer/AbstractDataWriter.java:55-57 | writing one more record of the batch keeps the listing duplicate-free and complete for the records no longer remaining |
| Writers.DataWriter.Csv | src/main/java/org/cataractsoftware/datasponge/writer/CSVFileWriter.java:49-52 | a CSV writer after init: empty batch, not closed; the output keeps the old file only in append mode, followed by the header, if any |
| Writers.DataWriter.Print | src/main/java/org/cataractsoftware/datasponge/writer/PrintWriter.java:14 | a print writer with the given delimiter (a tab from `getDelimiter`), empty batch and output |
| Writers.DataWriter.AddItem | src/main/java/org/cataractsoftware/datasponge/writer/AbstractDataWriter.java:36-40 | HashSet.add: a record equal to a pending one leaves the batch unchanged; otherwise the record joins it; nothing is written |
| Writers.DataWriter.WriteItem | src/main/java/org/cataractsoftware/datasponge/writer/CSVFileWriter.java:59-73 | the record's row is appended to the output; a closed CSV file throws "Could not write item to file" and writes nothing |
| Writers.DataWriter.FlushBatch | src/main/java/org/cataractsoftware/datasponge/writer/AbstractDataWriter.java:47-60 | the batch is emptied; for an open writer every pending record is written exactly once and nothing else, between startBatch and completeBatch (both taken even for an empty batch), and the output grows by their rows in that order; a closed CSV file fails at its first write or at the flush |
| Writers.DataWriter.Finish | src/main/java/org/cataractsoftware/datasponge/writer/CSVFileWriter.java:76-82 | a CSV writer is closed; the print writer does nothing else; batch and output are unchanged |
| Dedup.IsDuplicate | src/main/java/org/cataractsoftware/datasponge/enhancer/DeduplicationEnhancer.java:105-113 | two nulls are duplicates, null is no duplicate of a record, and a record is a duplicate exactly of records with the same identity |
| Dedup.ChooseDetector | src/main/java/org/cataractsoftware/datasponge/enhancer/DeduplicationEnhancer.java:77-89 | the custom detector is chosen exactly when the properties exist, name a non-blank class and that class loads; otherwise the default |
| Dedup.DeduplicationEnhancer.constructor | src/main/java/org/cataractsoftware/datasponge/enhancer/DeduplicationEnhancer.java:28-29 | an empty cache |
| Dedup.DeduplicationEnhancer.Init | src/main/java/org/cataractsoftware/datasponge/enhancer/DeduplicationEnhancer.java:77-89 | the detector becomes `ChooseDetector`; the cache is untouched |
| Dedup.DeduplicationEnhancer.CheckIfSeen | src/main/java/org/cataractsoftware/datasponge/enhancer/DeduplicationEnhancer.java:50-68 | true exactly when some cached record makes the record a duplicate; otherwise it joins the cache; no cached record is a duplicate of an earlier one |
| Dedup.DeduplicationEnhancer.EnhanceData | src/main/java/org/cataractsoftware/datasponge/enhancer/DeduplicationEnhancer.java:33-39 | a duplicate yields null and leaves the cache; any other record is returned unchanged and cached |
| Dedup.DefaultSeenIsKeyMatch | src/main/java/org/cataractsoftware/datasponge/enhancer/DeduplicationEnhancer.java:105-113 | with the default detector a record is dropped exactly when one with the same identifier and type was let through |
| Dedup.SameIdentifierSeen | src/test/java/org/cataractsoftware/datasponge/enhancer/TestDedupeDetector.java:14-17 | with the identifier-only detector a record is dropped exactly when one with the same identifier was let through |
| Dedup.DefaultDetectorScenario | src/test/java/org/cataractsoftware/datasponge/enhancer/DeduplicationEnhancerTest.java:24-39 | "1" and "2" pass, a second "2"/TEST is dropped, "2"/BLAH passes |
| Dedup.CustomDetectorScenario | src/test/java/org/cataractsoftware/datasponge/enhancer/DeduplicationEnhancerTest.java:43-58 | with the identifier-only detector, "2"/BLAH is dropped after "2"/TEST as well |
| TextSearch.ModeValueOf | src/main/java/org/cataractsoftware/datasponge/extractor/TextSearchExtractor.java:44 | `Mode.valueOf` succeeds exactly for the four constant names |
| TextSearch.Configure | src/main/java/org/cataractsoftware/datasponge/extractor/TextSearchExtractor.java:203-217 | an unknown mode fails and leaves the settings; on success the lengths parse from their properties (default "10"), ignoreCase parses (default "true"), the types are the lower-cased list split on ',', the mode is the upper-cased property (or unchanged), and the search string is the property, upper-cased with ignoreCase; only a missing search string under ignoreCase throws the NullPointerException |
| TextSearch.ConfigureDefaults | src/main/java/org/cataractsoftware/datasponge/extractor/TextSearchExtractor.java:28-29 | with only a search string, init gives lengths 10 and 10, ignoreCase, the mode unchanged, the upper-cased search string and the type list [""] |
| TextSearch.ConfigureNeedsSearchString | src/main/java/org/cataractsoftware/datasponge/extractor/TextSearchExtractor.java:211-216 | without a search string init throws under ignoreCase; if it passes, ignoreCase is off and every search of a body throws |
| TextSearch.ExtractMatchText | src/main/java/org/cataractsoftware/datasponge/extractor/TextSearchExtractor.java:172-182 | a negative index gives null; otherwise the substring of the window throws exactly when the window's start lies past its end, and else the result is a record keyed by the url that holds the window text and the index |
| TextSearch.WindowOfMatch | src/main/java/org/cataractsoftware/datasponge/extractor/TextSearchExtractor.java:174-177 | for a match inside the text, the window is `body[max(i - prefix, 0) .. min(i + suffix, len - 1))` and the index field is `i` |
| TextSearch.EmptyBodyWindowFails | src/main/java/org/cataractsoftware/datasponge/extractor/TextSearchExtractor.java:174 | over an empty body the window end is -1, so the substring throws |
| TextSearch.Searchable | src/main/java/org/cataractsoftware/datasponge/extractor/TextSearchExtractor.java:123-126 | the searched text has the body's length |
| TextSearch.CollectExtend | src/main/java/org/cataractsoftware/datasponge/extractor/TextSearchExtractor.java:151-154 | one more index: an exception ends the loop, null adds nothing, a record is appended |
| TextSearch.CollectFailureEnds | src/main/java/org/cataractsoftware/datasponge/extractor/TextSearchExtractor.java:150-155 | after an exception, later indices do not change the outcome |
| TextSearch.CollectInStep | src/main/java/org/cataractsoftware/datasponge/extractor/TextSearchExtractor.java:153 | when no index yields null, the k-th record is what the k-th index yields |
| TextSearch.OneRecord | src/main/java/org/cataractsoftware/datasponge/extractor/TextSearchExtractor.java:137-146 | the FIRST/LAST list is empty exactly when the extracted record is null, and it fails with extractMatchText's exception |
| TextSearch.Search | src/main/java/org/cataractsoftware/datasponge/extractor/TextSearchExtractor.java:120-162 | a null body yields no records, and a missing search string makes a non-null body throw a NullPointerException |
| TextSearch.FullTextOnce | src/main/java/org/cataractsoftware/datasponge/extractor/TextSearchExtractor.java:128-135 | FULLTEXT yields one record exactly when the searched text contains the search string, with the whole original body and the first occurrence; otherwise none |
| TextSearch.FirstLastAtMostOne | src/main/java/org/cataractsoftware/datasponge/extractor/TextSearchExtractor.java:136-147 | FIRST/LAST yield at most one record, none when the string is absent, and it holds indexOf (lastIndexOf), an occurrence |
| TextSearch.AllMatchesAreOccurrences | src/main/java/org/cataractsoftware/datasponge/extractor/TextSearchExtractor.java:149-155 | the ALL loop visits true occurrences after its start, in strictly increasing order |
| TextSearch.AllMatchesComplete | src/main/java/org/cataractsoftware/datasponge/extractor/TextSearchExtractor.java:149-155 | the ALL loop misses no occurrence between its start and the last index it visits, and it stops only at the end of the occurrences or within the last two characters |
| TextSearch.ExtractedRecord | src/main/java/org/cataractsoftware/datasponge/extractor/TextSearchExtractor.java:175-177 | an extracted record is keyed by its url and the TextMatch type, and holds the match index |
| TextSearch.AllRecordsNumbered | src/main/java/org/cataractsoftware/datasponge/extractor/TextSearchExtractor.java:153 | the k-th ALL record has identifier url + k and holds the k-th visited index |
| TextSearch.FailureEndsAllRecords | src/main/java/org/cataractsoftware/datasponge/extractor/TextSearchExtractor.java:150-155 | an exception ends the ALL loop: later indices do not change the outcome |
| TextSearch.AllRecordsAreOccurrences | src/main/java/org/cataractsoftware/datasponge/extractor/TextSearchExtractor.java:149-155 | every ALL record over a non-empty text is keyed url + k and holds an occurrence at an index of at least 1 |
| TextSearch.AllRecordsIncrease | src/main/java/org/cataractsoftware/datasponge/extractor/TextSearchExtractor.java:149-155 | the indices of the ALL records strictly increase |
| TextSearch.AllRecordsNonEmpty | src/main/java/org/cataractsoftware/datasponge/extractor/TextSearchExtractor.java:149-155 | ALL over a non-empty text reports a record whenever an occurrence lies past index 0 |
| TextSearch.EmptyAllRecords | src/main/java/org/cataractsoftware/datasponge/extractor/TextSearchExtractor.java:149-155 | over an empty body a successful ALL search reports nothing |
| TextSearch.AllModeReport | src/main/java/org/cataractsoftware/datasponge/extractor/TextSearchExtractor.java:148-156 | an ALL search without exception reports true occurrences at strictly increasing indices of at least 1, the k-th keyed url + k |
| TextSearch.AllMatchesStep | src/main/java/org/cataractsoftware/datasponge/extractor/TextSearchExtractor.java:151-155 | one turn of the do-while: the next occurrence after the current index, and whether the loop goes on |
| TextSearch.AllRecordsExtend | src/main/java/org/cataractsoftware/datasponge/extractor/TextSearchExtractor.java:152-154 | one visited index more either fails the loop or appends the record keyed url + size |
| TextSearch.AllLoopStep | src/main/java/org/cataractsoftware/datasponge/extractor/TextSearchExtractor.java:150-155 | a loop turn in terms of the indices still to visit: the next index is the head of the rest, and the loop ends exactly when the rest does |
| TextSearch.ExtractNext | src/main/java/org/cataractsoftware/datasponge/extractor/TextSearchExtractor.java:152-154 | the records of one more visited index, one more of them when no exception |
| TextSearch.SearchAll | src/main/java/org/cataractsoftware/datasponge/extractor/TextSearchExtractor.java:148-156 | the do-while loop terminates and yields exactly `AllRecords` of the occurrences it visits |
| TextSearch.TextSearchExtractor.constructor | src/main/java/org/cataractsoftware/datasponge/extractor/TextSearchExtractor.java:35-41 | a new extractor: lengths 0, ignoreCase, FULLTEXT, no search string and no types |
| TextSearch.TextSearchExtractor.Init | src/main/java/org/cataractsoftware/datasponge/extractor/TextSearchExtractor.java:203-217 | the fields and the outcome are `Configure` of the old fields |
| TextSearch.TextSearchExtractor.PerformSearch | src/main/java/org/cataractsoftware/datasponge/extractor/TextSearchExtractor.java:120-162 | the records are `Search` of the current settings; a missing search string throws for a non-null body |
| TextSearch.TextSearchExtractor.ShouldSearch | src/main/java/org/cataractsoftware/datasponge/extractor/TextSearchExtractor.java:190-200 | true when the type list is empty, and otherwise exactly when the lower-cased name ends with a listed type |
| TextSearch.DefaultTypesAcceptAll | src/main/java/org/cataractsoftware/datasponge/extractor/TextSearchExtractor.java:212-213 | with the default "" the type list is [""], and every name passes |
| Spider.Enhance | src/main/java/org/cataractsoftware/datasponge/crawler/SpiderThread.java:112-120 | a null record stays null |
| Spider.EnhanceAppend | src/main/java/org/cataractsoftware/datasponge/crawler/SpiderThread.java:113-119 | the enhancers run in array order: two arrays back to back are their concatenation |
| Spider.EnhanceOne | src/main/java/org/cataractsoftware/datasponge/crawler/SpiderThread.java:114-117 | a null enhancer is skipped, a present one is applied to a present record |
| Spider.DroppedStaysDropped | src/main/java/org/cataractsoftware/datasponge/crawler/SpiderThread.java:115-117 | once the record is null no later enhancer runs and the result is null |
| Spider.Survivors | src/main/java/org/cataractsoftware/datasponge/crawler/SpiderThread.java:111-124 | at most one surviving record per extracted record |
| Spider.AddAllKeys | src/main/java/org/cataractsoftware/datasponge/crawler/SpiderThread.java:121-123 | the writer's batch grows by exactly the identities of the delivered records, and records already pending stay |
| Spider.FieldLinks | src/main/java/org/cataractsoftware/datasponge/crawler/SpiderThread.java:162-168 | at most one link per field |
| Spider.HoldsLinkSnoc | src/main/java/org/cataractsoftware/datasponge/crawler/SpiderThread.java:162-164 | a field among the first ones still holds its link in the longer list |
| Spider.FieldLinksSnoc | src/main/java/org/cataractsoftware/datasponge/crawler/SpiderThread.java:202-208 | the links of one more field follow those of the fields before it |
| Spider.FieldLinksMembership | src/main/java/org/cataractsoftware/datasponge/crawler/SpiderThread.java:162-168 | a link is offered exactly when some field holds it as text and the filter accepts it (not "."/".." for a listing, not "mailto:" for a page) |
| Spider.FoldAppend | src/main/java/org/cataractsoftware/datasponge/crawler/SpiderThread.java:201-210 | enqueueing two link lists back to back is enqueueing their concatenation |
| Spider.SpiderThread.constructor | src/main/java/org/cataractsoftware/datasponge/crawler/SpiderThread.java:59-74 | a new worker is busy, with the given queue, writer, extractors and enhancers |
| Spider.SpiderThread.IsBusy | src/main/java/org/cataractsoftware/datasponge/crawler/SpiderThread.java:76-78 | the busy flag |
| Spider.SpiderThread.OfferAllOne | src/main/java/org/cataractsoftware/datasponge/crawler/SpiderThread.java:167 | offering one link is one enqueue with the origin page |
| Spider.SpiderThread.OfferAllAppend | src/main/java/org/cataractsoftware/datasponge/crawler/SpiderThread.java:201-210 | offering two lists back to back is offering their concatenation |
| Spider.SpiderThread.OfferFieldLinks | src/main/java/org/cataractsoftware/datasponge/crawler/SpiderThread.java:162-168 | the queue after the field loop is `OfferAll` of the accepted links in field order |
| Spider.SpiderThread.OfferField | src/main/java/org/cataractsoftware/datasponge/crawler/SpiderThread.java:202-208 | one field's value is enqueued exactly when it is text the filter accepts |
| Spider.SpiderThread.OfferPageLinks | src/main/java/org/cataractsoftware/datasponge/crawler/SpiderThread.java:198-211 | the queue after the link loop is `OfferAll` of the page's accepted links |
| Spider.SpiderThread.ProcessFile | src/main/java/org/cataractsoftware/datasponge/crawler/SpiderThread.java:192-224 | page, escape and new queue are those of `FileVisit`: a fetched page, links offered only when asked |
| Spider.SpiderThread.ProcessItem | src/main/java/org/cataractsoftware/datasponge/crawler/SpiderThread.java:153-181 | page, escape and new queue are those of `ItemVisit` |
| Spider.SpiderThread.ProcessListing | src/main/java/org/cataractsoftware/datasponge/crawler/SpiderThread.java:158-175 | the listing loop offers the entries of directory records until a file record, which is fetched without link extraction |
| Spider.SpiderThread.ListingStep | src/main/java/org/cataractsoftware/datasponge/crawler/SpiderThread.java:159-173 | one listing record: a directory record adds its entries, a file record ends the loop, any other is skipped |
| Spider.SpiderThread.EnhanceRecord | src/main/java/org/cataractsoftware/datasponge/crawler/SpiderThread.java:112-120 | the enhancer loop computes `Chain`: array order, null enhancers skipped, stop at null |
| Spider.SpiderThread.Deliver | src/main/java/org/cataractsoftware/datasponge/crawler/SpiderThread.java:106-125 | every surviving record of the page is added to the writer and nothing is written yet; the worker dies exactly when the extractor throws, and then nothing reaches the writer |
| Spider.SpiderThread.Step | src/main/java/org/cataractsoftware/datasponge/crawler/SpiderThread.java:99-137 | a dequeued url resets the idle counter, its links are offered and its records delivered; an exception from fetching or extraction kills the worker with the batch unchanged; an empty poll sleeps and counts, or stops the worker once the counter exceeds MAX_IDLE_ITERATIONS |
| Spider.SpiderThread.Run | src/main/java/org/cataractsoftware/datasponge/crawler/SpiderThread.java:96-139 | on a queue that stays empty the worker stops after exactly four polls and three sleeps; it is busy until it stops; an escaping exception (from fetching or extraction) ends the loop with the worker still busy |
| Spider.Routing | src/main/java/org/cataractsoftware/datasponge/crawler/SpiderThread.java:156-178 | a url outside `file://` is fetched with link extraction; a listing led by a file record is fetched without it; nothing is offered unless the url is listed or fetched |
| Spider.FetchFailuresCaught | src/main/java/org/cataractsoftware/datasponge/crawler/SpiderThread.java:214-223 | file-not-found, HTTP status, malformed-url and IO failures give a null page, offer nothing and deliver nothing, so the extractor is not called; only a runtime exception escapes |
| Executor.SeedForm | src/main/java/org/cataractsoftware/datasponge/engine/JobExecutor.java:207 | a start url that `enqueue(s, null)` offers is offered as an absolute "http" url without fragment |
| Executor.SeedStep | src/main/java/org/cataractsoftware/datasponge/engine/JobExecutor.java:206-208 | one enqueue of the seeding loop keeps both seeding invariants |
| Executor.JobExecutor.constructor | src/main/java/org/cataractsoftware/datasponge/engine/JobExecutor.java:33-48 | five threads, 5000 ms sleep, no job, not done |
| Executor.JobExecutor.Init | src/main/java/org/cataractsoftware/datasponge/engine/JobExecutor.java:188-202 | a positive job thread count replaces the default; a missing crawl interval is 1000; the new queue gets the job's patterns; it is seeded only when asked, and then as SeedQueue promises from an empty queue; a null start set or no seeding leaves the queue empty |
| Executor.JobExecutor.SeedQueue | src/main/java/org/cataractsoftware/datasponge/engine/JobExecutor.java:204-210 | a null set seeds nothing; otherwise it fails exactly when some start url is relative; on success every start url the patterns let through is processed; whatever was added is the normalised form of a start url; the added urls are exactly those appended to the queue, each once |
| Executor.JobExecutor.TailStep | src/main/java/org/cataractsoftware/datasponge/crawler/CrawlerWorkqueue.java:104-107 | one enqueue keeps the queue's new tail and the new part of the processed set in step: both grow by the same fresh url or neither changes |
| Executor.JobExecutor.SeedOne | src/main/java/org/cataractsoftware/datasponge/engine/JobExecutor.java:207 | one `enqueue(item, null)`: it fails exactly for a relative url and then changes nothing; an admitted url was not processed and joins both the processed set and the end of the queue; otherwise the queue is unchanged and the patterns or the processed set reject the url |
| Executor.JobExecutor.AreStillWorking | src/main/java/org/cataractsoftware/datasponge/engine/JobExecutor.java:141-148 | true exactly when some worker is busy |
| Executor.JobExecutor.SpawnThreads | src/main/java/org/cataractsoftware/datasponge/engine/JobExecutor.java:161-173 | exactly `threadCount` (none for a non-positive count) new busy workers sharing the queue, the writer, the extractor and the enhancers |
| Executor.JobExecutor.MonitorTurn | src/main/java/org/cataractsoftware/datasponge/engine/JobExecutor.java:83-93 | while some worker is busy the writer flushes its batch: each pending record is written once, between startBatch and completeBatch, and the output grows by their rows; a closed CSV writer fails, which ends the crawl thread; once no worker is busy nothing changes |
| Executor.JobExecutor.EndIteration | src/main/java/org/cataractsoftware/datasponge/engine/JobExecutor.java:94-107 | the writer is finished, and a ONCE job is done |
| Executor.JobExecutor.ExecuteCrawl | src/main/java/org/cataractsoftware/datasponge/engine/JobExecutor.java:65-115 | done is cleared; a ONCE job runs exactly one iteration and is then done; any other mode runs every iteration and never becomes done; the writer of each iteration that ran is finished once, with its batch and output untouched; the writers of iterations that did not run are unchanged |
| Executor.JobExecutor.IsDone | src/main/java/org/cataractsoftware/datasponge/engine/JobExecutor.java:117-119 | the done flag |
| Coordinator.EnrollmentMessage | src/main/java/org/cataractsoftware/datasponge/engine/JobCoordinator.java:302-310 | an ENROLLMENT for the job whose only entry names this host |
| Coordinator.AssignmentMessage | src/main/java/org/cataractsoftware/datasponge/engine/JobCoordinator.java:183-192 | an ASSIGNMENT for the job with exactly the nodeId and modSize entries |
| Coordinator.Assignments | src/main/java/org/cataractsoftware/datasponge/engine/JobCoordinator.java:126-128 | k messages, the i-th assigning node i of the ensemble |
| Coordinator.AssignmentRoundTrip | src/main/java/org/cataractsoftware/datasponge/engine/JobCoordinator.java:183-192 | the data of sendAssignment's message parses back (as onMessage at lines 227-230 reads it) to the node id and ensemble size it was built from, for every pair of `int` values |
| Coordinator.AssignmentsParse | src/main/java/org/cataractsoftware/datasponge/engine/JobCoordinator.java:123-129 | every message of the assignment task for n enrollments is an ASSIGNMENT for the job that parses back to (i, n) |
| Coordinator.BuildExecutor | src/main/java/org/cataractsoftware/datasponge/engine/JobCoordinator.java:292-293 | a fresh executor whose init fails exactly when seeding meets a relative start url; otherwise it has the job's settings, is not done, and its queue holds (each once) exactly the urls in its processed set, which on the coordinating host are the normalised start urls the patterns admit and otherwise none |
| Coordinator.JobCoordinator.constructor | src/main/java/org/cataractsoftware/datasponge/engine/JobCoordinator.java:56-59 | a coordinator with empty maps and nothing sent |
| Coordinator.JobCoordinator.GetJobStatus | src/main/java/org/cataractsoftware/datasponge/engine/JobCoordinator.java:77-84 | the status name of a known job, and UNKNOWN_JOB exactly when the job is unknown |
| Coordinator.JobCoordinator.IsJobCoordinator | src/main/java/org/cataractsoftware/datasponge/engine/JobCoordinator.java:335-347 | true exactly when the id is non-null, getJobStatus knows the job and the job names this host as its coordinator |
| Coordinator.JobCoordinator.SubmitJob | src/main/java/org/cataractsoftware/datasponge/engine/JobCoordinator.java:94-135 | null is returned as is with no change; otherwise the job gets the guid and this host as coordinator, its coordinator writer is registered when it names one, and it is recorded, announced and enrolled in, in that order; this host then coordinates it |
| Coordinator.JobCoordinator.SendEnrollment | src/main/java/org/cataractsoftware/datasponge/engine/JobCoordinator.java:302-310 | exactly one ENROLLMENT naming this host is sent |
| Coordinator.JobCoordinator.RunAssignmentTask | src/main/java/org/cataractsoftware/datasponge/engine/JobCoordinator.java:123-129 | for n enrollments, n ASSIGNMENTs with node ids 0 to n - 1 in order and size n; none without a list |
| Coordinator.JobCoordinator.SendAssignment | src/main/java/org/cataractsoftware/datasponge/engine/JobCoordinator.java:183-192 | exactly one ASSIGNMENT is sent |
| Coordinator.JobCoordinator.HandleJobMessage | src/main/java/org/cataractsoftware/datasponge/engine/JobCoordinator.java:199-211 | an unknown job is recorded and enrolled in, with exactly one message; a known one changes nothing and sends nothing |
| Coordinator.JobCoordinator.HandleEnrollmentMessage | src/main/java/org/cataractsoftware/datasponge/engine/JobCoordinator.java:249-265 | exactly one enrollment for the payload's host is appended to the job's list, which is created when missing; other lists unchanged; repeats kept |
| Coordinator.JobCoordinator.HandleManagementMessage | src/main/java/org/cataractsoftware/datasponge/engine/JobCoordinator.java:218-243 | ENROLLMENT is recorded; ASSIGNMENT installs a fresh started executor, replacing any earlier one and seeding iff this host coordinates the job, and fails with the listener's RuntimeException exactly when the numbers do not parse, the job is unknown or seeding fails; other types change nothing |
| Coordinator.JobCoordinator.InitializeEngineForJob | src/main/java/org/cataractsoftware/datasponge/engine/JobCoordinator.java:289-296 | an executor initialised with the job is installed under the job id exactly when the job is known and seeding succeeds |
| Coordinator.JobCoordinator.HandleOutputMessage | src/main/java/org/cataractsoftware/datasponge/engine/JobCoordinator.java:275-280 | a record joins the batch of the job's coordinator writer, if there is one; every other writer is untouched |
| Coordinator.JobCoordinator.FlushOutput | src/main/java/org/cataractsoftware/datasponge/engine/JobCoordinator.java:171-175 | every coordinator writer flushes its batch: each of its pending records is written once (`written[w]` is the order), between startBatch and completeBatch, and its output grows by their rows; no writer is closed or removed |
| Coordinator.JobCoordinator.CheckJobStatus | src/main/java/org/cataractsoftware/datasponge/engine/JobCoordinator.java:141-166 | every writer first flushes its batch as in flushOutput; then the done executors are removed, their writers finished (a CSV writer is closed) and removed, their jobs COMPLETE; other executors, writers and jobs are untouched |
| Coordinator.JobCoordinator.FinishCompleted | src/main/java/org/cataractsoftware/datasponge/engine/JobCoordinator.java:143-165 | the loops of checkJobStatus: the done executors are removed, their writers finished and removed, their jobs COMPLETE; no writer's batch or output changes |
| Coordinator.JobCoordinator.CollectCompleted | src/main/java/org/cataractsoftware/datasponge/engine/JobCoordinator.java:143-147 | exactly the ids of the executors that are done |
| Coordinator.JobCoordinator.FinishWriters | src/main/java/org/cataractsoftware/datasponge/engine/JobCoordinator.java:148-152 | the writer of each completed job, if any, is finished once and removed |
| Coordinator.JobCoordinator.FinishWriter | src/main/java/org/cataractsoftware/datasponge/engine/JobCoordinator.java:148-152 | one completed job's writer, if any, is finished and removed |
| Coordinator.JobCoordinator.RemoveCompleted | src/main/java/org/cataractsoftware/datasponge/engine/JobCoordinator.java:155-165 | each completed executor is removed and its job, if known, becomes COMPLETE; all else unchanged |

## Left out

- Transport and wiring: the JMS sends and listeners, the Jackson JSON mapping and the Spring components are not modelled. A sent message is appended to the coordinator's `outbox`, and a received message is a method call with the decoded value.
- Timers: the assignment task and the periodic `checkJobStatus` of `JobCoordinator` are explicit methods (`RunAssignmentTask`, `CheckJobStatus`) rather than scheduled work. The timer delays are not modelled.
- Concurrency: threads, `synchronized`, `volatile` and `Thread.sleep` are not modelled. Each method runs atomically. The crawl thread of `executeCrawl` and the worker threads are run by explicit steps: `Spider.SpiderThread.Step`/`Run`, `Executor.JobExecutor.MonitorTurn` and `EndIteration`.
- Spider.SpiderThread.Run: it runs for at most `fuel` turns, because a worker on a queue that other workers keep filling need not stop.
- Coordinator.JobCoordinator.InitializeEngineForJob: it does not start `executeCrawl` (a thread of its own); `Executor.JobExecutor.ExecuteCrawl` models that loop separately.
- Executor.JobExecutor.ExecuteCrawl: the per-iteration writers (one new one per iteration, from the component factory) are a parameter. The number of iterations of a continuous crawl is bounded by their count. The worker monitoring inside an iteration is `MonitorTurn`.
- Fetching and extraction: HtmlUnit page fetching, `HyperlinkExtractor`, `DirectoryExtractor`, the job's data extractor and class loading are function parameters of the models that use them (`fetch`, `linkExtractor`, `dirExtractor`, `extractor`, `load`). A page is its text.
- Enhancer exceptions: an enhancer is a total function `DataRecord -> Option<DataRecord>`, so an exception thrown by a third-party `enhanceData` part-way through a page's records is not modelled. The job's extractor may throw (`Spider.SpiderThread.ExtractFails`); it does so before any record of the page reaches the writer.
- Executor.JobExecutor.ExecuteCrawl: it does not spawn the workers or run the monitoring loop itself. So it does not capture a flush failure that ends the crawl thread inside an iteration (`MonitorTurn` states that failure), nor the wait between iterations.
- Coordinator.JobCoordinator.FlushOutput: the failure of flushing a closed CSV file cannot arise here, because the coordinator's invariant `Valid` keeps every registered writer open. `SubmitJob` registers only an open writer (a fresh one from the component factory), and `CheckJobStatus` removes each writer it finishes.
- Spider.FieldLinks: the crawler casts every field value of a directory record or a link record to a string. A non-string value would throw a ClassCastException there; the model assumes no such value occurs and skips it, as it skips a null.
- Pre-initialisation state: before `init`, `DeduplicationEnhancer`'s detector and `TextSearchExtractor`'s `supportedFiletypes` are null, so a call made before `init` would throw. The model starts them at the default detector and the empty list instead.
- `String.matches`: regular-expression matching is the parameter `matches(url, pattern)` of the work queue.
- Case mapping: `toUpperCase`/`toLowerCase` map ASCII letters only, so lengths and indices are preserved.
- `String.replaceAll`: the CSV header replaces each ';' by the delimiter literally. A delimiter holding `$` or `\`, which Java would read as a replacement pattern, is not modelled.
- Iteration order of `HashMap`/`HashSet`: a record's fields iterate in first-insertion order; the writer's batch, the start-url set and the coordinator maps are visited in an arbitrary order chosen by the model.
- Null fields and parameters: a management message with a null type or null data, a job with a null status, and null plugin properties are not modelled. `ManagementMessage.msgType`, `ManagementMessage.data` and `Job.status` are plain values, and `TextSearch.Configure`/`Init` and `Writers.CsvInit` take a plain property map. In Java, each of these nulls throws a NullPointerException: the type switch and the data lookups of `JobCoordinator.handleManagementMessage` and `handleEnrollmentMessage` (an ENROLLMENT message then leaves its empty enrollment list stored), `getStatus().toString()` in `getJobStatus`, and the property lookups of `TextSearchExtractor.init` and `CSVFileWriter.init` (instead of CSVFileWriter's IllegalStateException).
- Text encoding: a Dafny string is a sequence of Unicode scalar values, while a Java `String` is a sequence of UTF-16 code units. The two agree only on text inside the Basic Multilingual Plane. On text with a supplementary character, `length`, the `indexOf`/`substring` positions (the match index and window of `TextSearchExtractor`) and `String.hashCode` (`StringHash`, hence `DataRecord.hashCode` and `JobEnrollment.hashCode`) differ from Java's.
- Strings.ParseInt: digits are the ASCII '0'..'9' only. `Integer.parseInt` also accepts every other Unicode decimal digit (full-width "１２" parses to 12), for which `ParseInt` returns the NumberFormatException.
- Null elements: a null url inside the start-url set, a null record in an extractor's list, a null pattern or a null enhancer array element other than as modelled (`Option` entries in the enhancer array) are not modelled.
- `DeduplicationEnhancer`: the cache holds the records themselves. Soft references, their clearing by the garbage collector and the clean-up of cleared ones are not modelled, so the cache never loses an entry.
- `CrawlerWorkqueue.createInstance`/`getInstance` (the static singleton) are not modelled; the constructor stands for both.
- `CrawlerWorkqueue.initialize(guid, ignores, includes, nodeId, modSize)` and `handleNodeFailure` are called by `JobExecutor` but are not defined in `CrawlerWorkqueue`. `Executor.JobExecutor.Init` builds a fresh queue with the job's patterns, and `nodeId`/`modSize` are unused; there is no partitioning of urls between nodes.
- `ParseEntry`: the message of the NumberFormatException for a missing entry is fixed to "null".
- Coordinator.JobCoordinator.SubmitJob: the coordinator writer built by the component factory is the parameter `adapter`. The guid (a random UUID) is a parameter, as is `hostId`.
- `Job`: the include and ignore pattern sets are never null in the model.
- Bean getters and setters (`Job`, `JobEnrollment`, `ManagementMessage`, `PluginConfig`) are field selection and datatype update. That a getter returns what its setter stored holds by construction, so there are no lemmas for it. `DataRecord` is a value too, so two holders of the same Java record object do not see each other's `setField`.
- `AbstractDataWriter.init` and `PrintWriter`'s `init` do nothing; the `Print` constructor is the writer after them. `startBatch`, `completeBatch` and the CSV flush are the events `BatchStarted`, `BatchCompleted` and `OutputFlushed` of the writer's `trace`.
- The file or console output is the string `out`. A CSV file's existing contents are the parameter `existing`, and whether it can be opened is `canOpen`. Only the failures of writing to a closed file are modelled, not other I/O errors.
- `JmsDataWriter`, `JdbcDataWriter`, the Groovy adapters, PDF extraction, `TextSearchExtractor.extractData`/`getBodyFromFile`, `ComponentFactory`, `ManagementMessageSender`, `JobController` and `DataSponge` are not part of this model.
- HEARTBEAT, ACK and ABORT management messages change nothing on the coordinator, as in the code; heartbeat tracking and node re-assignment do not exist there either.
