/** The crawler worker. Each turn of its loop takes the next url off the shared
    work queue; a `file://` url is listed as a directory (its entries go back to
    the queue) unless the listing says it is a file, any other url is fetched and
    its links go back to the queue. The extractor's records then run through the
    enhancer chain and the survivors go to the writer. An empty queue makes the
    worker back off; after MAX_IDLE_ITERATIONS + 2 empty polls in a row it stops.
    Fetching, directory listing and link and data extraction are parameters. */
module Spider {
  import opened Wrappers
  import opened Strings
  import opened Records
  import opened WorkQueue
  import Writers

  const MAX_IDLE_ITERATIONS: int := 2
  const BACKOFF_INTERVAL: int := 10000
  /** DirectoryExtractor.PROTOCOL and its record types. */
  const PROTOCOL: string := "file://"
  const DIR_RECORD_TYPE: string := "directoryListing"
  const FILE_RECORD_TYPE: string := "file"

  /** A fetched page, as the extractors see it. */
  type Page = string

  /** fetchPage: a page, or the exception it raised. FileNotFound, an HTTP status
      failure, a malformed url and other I/O failures are caught by processFile;
      Crash is a runtime exception of the backup client, which nothing catches. */
  datatype Fetch = Fetched(page: Page) | FileNotFound | HttpStatusFailure | MalformedUrl | IOFailure | Crash

  /** DataEnhancer.enhanceData: a record, or None (Java null) to drop it. */
  type Enhancer = DataRecord -> Option<DataRecord>

  // ---------------------------------------------------------------- the enhancer chain

  /** The enhancer loop: each non-null enhancer in array order, as long as the record
      is not null. */
  function Enhance(enhancers: seq<Option<Enhancer>>, dr: Option<DataRecord>): (r: Option<DataRecord>)
    ensures dr.None? ==> r.None?
  {
    if enhancers == [] then dr
    else
      var prev := Enhance(enhancers[..|enhancers| - 1], dr);
      var last := enhancers[|enhancers| - 1];
      if last.Some? && prev.Some? then last.value(prev.value) else prev
  }

  /** The chain runs in array order: running two arrays back to back is running their concatenation. */
  lemma {:induction false} EnhanceAppend(es: seq<Option<Enhancer>>, more: seq<Option<Enhancer>>, dr: Option<DataRecord>)
    ensures Enhance(es + more, dr) == Enhance(more, Enhance(es, dr))
    decreases |more|
  {
    if more == [] {
      assert es + more == es;
    } else {
      var init := more[..|more| - 1];
      EnhanceAppend(es, init, dr);
      assert (es + more)[..|es + more| - 1] == es + init;
    }
  }

  /** A null enhancer is skipped; a present one is applied to a present record. */
  lemma EnhanceOne(f: Enhancer, dr: DataRecord)
    ensures Enhance([None], Some(dr)) == Some(dr)
    ensures Enhance([Some(f)], Some(dr)) == f(dr)
  {
    var none: seq<Option<Enhancer>> := [None];
    var one: seq<Option<Enhancer>> := [Some(f)];
    assert none[..0] == [] && one[..0] == [];
  }

  /** Once an enhancer drops the record, no later enhancer runs and nothing reaches the writer. */
  lemma DroppedStaysDropped(es: seq<Option<Enhancer>>, more: seq<Option<Enhancer>>, dr: Option<DataRecord>)
    requires Enhance(es, dr).None?
    ensures Enhance(es + more, dr).None?
  {
    EnhanceAppend(es, more, dr);
  }

  /** The chain of a worker: a null enhancer array leaves the record as it is. */
  function Chain(enhancers: Option<seq<Option<Enhancer>>>, dr: DataRecord): Option<DataRecord> {
    if enhancers.None? then Some(dr) else Enhance(enhancers.value, Some(dr))
  }

  /** The records of a page that reach the writer, in extraction order. */
  function Survivors(enhancers: Option<seq<Option<Enhancer>>>, records: seq<DataRecord>): (rs: seq<DataRecord>)
    ensures |rs| <= |records|
  {
    if records == [] then []
    else
      var init := Survivors(enhancers, records[..|records| - 1]);
      var r := Chain(enhancers, records[|records| - 1]);
      if r.Some? then init + [r.value] else init
  }

  /** The pending set after addItem of each record in turn. */
  function AddAll(pending: map<RecordKey, DataRecord>, records: seq<DataRecord>): map<RecordKey, DataRecord> {
    if records == [] then pending
    else
      var p := AddAll(pending, records[..|records| - 1]);
      var r := records[|records| - 1];
      if r.Key() in p then p else p[r.Key() := r]
  }

  /** The writer receives every record of the batch: the pending keys grow by exactly theirs,
      and a record already pending keeps its entry. */
  lemma {:induction false} AddAllKeys(pending: map<RecordKey, DataRecord>, records: seq<DataRecord>)
    ensures AddAll(pending, records).Keys == pending.Keys + set i | 0 <= i < |records| :: records[i].Key()
    ensures forall k :: k in pending ==> AddAll(pending, records)[k] == pending[k]
  {
    if records != [] {
      var init := records[..|records| - 1];
      AddAllKeys(pending, init);
      assert (set i | 0 <= i < |records| :: records[i].Key())
          == (set i | 0 <= i < |init| :: init[i].Key()) + {records[|records| - 1].Key()} by {
        forall i | 0 <= i < |init| ensures init[i] == records[i] { }
      }
    }
  }

  // ---------------------------------------------------------------- link filtering

  /** A directory entry is followed unless it trims to "." or "..". */
  predicate ListingEntry(link: string) {
    Trim(link) != "." && Trim(link) != ".."
  }

  /** A page link is followed unless its lower case starts with "mailto:". */
  predicate PageLink(link: string) {
    !StartsWith(ToLower(link), "mailto:")
  }

  predicate Follows(listing: bool, link: string) {
    if listing then ListingEntry(link) else PageLink(link)
  }

  /** The links a record's fields offer to the queue, in field order: the non-null
      values the filter accepts. */
  function FieldLinks(fields: seq<Field>, listing: bool): (links: seq<string>)
    ensures |links| <= |fields|
  {
    if fields == [] then []
    else
      var init := FieldLinks(fields[..|fields| - 1], listing);
      match fields[|fields| - 1].value
      case Text(link) => if Follows(listing, link) then init + [link] else init
      case _ => init
  }

  /** Some field holds `link` as text. */
  predicate HoldsLink(fields: seq<Field>, link: string) {
    exists i :: 0 <= i < |fields| && fields[i].value == Text(link)
  }

  lemma HoldsLinkSnoc(fields: seq<Field>, link: string)
    requires fields != []
    ensures HoldsLink(fields, link)
        <==> HoldsLink(fields[..|fields| - 1], link) || fields[|fields| - 1].value == Text(link)
  {
    var init := fields[..|fields| - 1];
    if HoldsLink(fields, link) {
      var i :| 0 <= i < |fields| && fields[i].value == Text(link);
      if i < |init| {
        assert init[i] == fields[i];
      }
    }
    if HoldsLink(init, link) {
      var i :| 0 <= i < |init| && init[i].value == Text(link);
      assert fields[i] == init[i];
    }
  }

  /** The links of one more field follow those of the fields before it. */
  lemma FieldLinksSnoc(fields: seq<Field>, k: nat, listing: bool)
    requires k < |fields|
    ensures FieldLinks(fields[..k + 1], listing) == FieldLinks(fields[..k], listing) + FieldLinks([fields[k]], listing)
  {
    assert fields[..k + 1][..k] == fields[..k];
    assert [fields[k]][..0] == [];
  }

  /** A link is offered exactly when some field holds it and the filter accepts it. */
  lemma {:induction false} FieldLinksMembership(fields: seq<Field>, listing: bool, link: string)
    ensures link in FieldLinks(fields, listing) <==> Follows(listing, link) && HoldsLink(fields, link)
  {
    if fields != [] {
      var init := fields[..|fields| - 1];
      FieldLinksMembership(init, listing, link);
      HoldsLinkSnoc(fields, link);
      var links0 := FieldLinks(init, listing);
      match fields[|fields| - 1].value {
        case Text(l) =>
          if Follows(listing, l) {
            assert FieldLinks(fields, listing) == links0 + [l];
            assert link in links0 + [l] <==> link in links0 || link == l;
          } else {
            assert FieldLinks(fields, listing) == links0;
          }
        case _ =>
          assert FieldLinks(fields, listing) == links0;
      }
    }
  }

  /** The links of a page: those of every link record, in order. */
  function PageLinks(records: seq<DataRecord>): seq<string> {
    if records == [] then []
    else PageLinks(records[..|records| - 1]) + FieldLinks(records[|records| - 1].entries, false)
  }

  /** The entries of the directory records of a listing, in order. */
  function DirLinks(records: seq<DataRecord>): seq<string> {
    if records == [] then []
    else
      var r := records[|records| - 1];
      DirLinks(records[..|records| - 1]) + (if r.recordType == DIR_RECORD_TYPE then FieldLinks(r.entries, true) else [])
  }

  // ---------------------------------------------------------------- one url

  /** What processing a url does: the links it offers to the queue (with the url as
      their page), the page it yields, and whether an exception escaped. */
  /** One enqueue(link, origin) on a queue with the given filter. */
  function LinkStep(matches: (string, string) -> bool, includes: set<string>, ignores: set<string>,
                    origin: string): QueueState -> string -> QueueState
  {
    st => link => Offer(matches, includes, ignores, st, Some(link), Some(origin))
  }

  /** The state after `step` on each link in turn. */
  function Fold(step: QueueState -> string -> QueueState, st: QueueState, links: seq<string>): QueueState {
    if links == [] then st
    else step(Fold(step, st, links[..|links| - 1]))(links[|links| - 1])
  }

  /** Stepping through two lists back to back is stepping through their concatenation. */
  lemma {:induction false} FoldAppend(step: QueueState -> string -> QueueState, st: QueueState,
                                      a: seq<string>, b: seq<string>)
    ensures Fold(step, st, a + b) == Fold(step, Fold(step, st, a), b)
    decreases |b|
  {
    if b == [] {
      assert a + b == a;
    } else {
      FoldAppend(step, st, a, b[..|b| - 1]);
      assert (a + b)[..|a + b| - 1] == a + b[..|b| - 1];
    }
  }

  datatype Visit = Visit(offered: seq<string>, page: Option<Page>, died: bool)

  function Prepend(links: seq<string>, v: Visit): Visit {
    v.(offered := links + v.offered)
  }

  datatype StepResult = Worked | Slept | Stopped | Died

  class SpiderThread {
    const queue: CrawlerWorkqueue
    const outputCollector: Writers.DataWriter
    const extractor: (string, Page) -> Result<Option<seq<DataRecord>>>
    /** DirectoryExtractor.extractData(url, null). */
    const dirExtractor: string -> Option<seq<DataRecord>>
    /** HyperlinkExtractor.extractData(url, page). */
    const linkExtractor: (string, Page) -> Option<seq<DataRecord>>
    const fetch: string -> Fetch
    const dataEnhancers: Option<seq<Option<Enhancer>>>
    var busy: bool
    /** run's count of empty polls in a row. */
    var idleIterations: int

    ghost predicate Valid()
      reads this, queue, outputCollector
    {
      queue.Valid() && outputCollector.Valid()
    }

    /** A new worker is busy. */
    constructor (workQueue: CrawlerWorkqueue, collector: Writers.DataWriter,
                 extractor: (string, Page) -> Result<Option<seq<DataRecord>>>,
                 dirExtractor: string -> Option<seq<DataRecord>>,
                 linkExtractor: (string, Page) -> Option<seq<DataRecord>>,
                 fetch: string -> Fetch, enhancers: Option<seq<Option<Enhancer>>>)
      ensures busy && idleIterations == 0
      ensures queue == workQueue && outputCollector == collector && dataEnhancers == enhancers
      ensures this.extractor == extractor && this.dirExtractor == dirExtractor
      ensures this.linkExtractor == linkExtractor && this.fetch == fetch
    {
      queue := workQueue;
      outputCollector := collector;
      this.extractor := extractor;
      this.dirExtractor := dirExtractor;
      this.linkExtractor := linkExtractor;
      this.fetch := fetch;
      dataEnhancers := enhancers;
      busy := true;
      idleIterations := 0;
    }

    /** isBusy. */
    method IsBusy() returns (b: bool)
      ensures b == busy
    {
      b := busy;
    }

    /** The queue after enqueue(link, origin) of each link in turn. */
    function OfferAll(st: QueueState, links: seq<string>, origin: string): QueueState {
      Fold(LinkStep(queue.matches, queue.includeList, queue.ignoreList, origin), st, links)
    }

    /** Offering one link is one enqueue. */
    lemma OfferAllOne(st: QueueState, link: string, origin: string)
      ensures OfferAll(st, [link], origin)
           == Offer(queue.matches, queue.includeList, queue.ignoreList, st, Some(link), Some(origin))
    {
      var step := LinkStep(queue.matches, queue.includeList, queue.ignoreList, origin);
      assert [link][..0] == [];
      assert Fold(step, st, [link]) == step(st)(link);
    }

    /** Offering two lists back to back is offering their concatenation. */
    lemma OfferAllAppend(st: QueueState, a: seq<string>, b: seq<string>, origin: string)
      ensures OfferAll(st, a + b, origin) == OfferAll(OfferAll(st, a, origin), b, origin)
    {
      FoldAppend(LinkStep(queue.matches, queue.includeList, queue.ignoreList, origin), st, a, b);
    }

    /** processFile: fetch the page and, when asked, offer its links. */
    function FileVisit(url: string, extractLinks: bool): Visit {
      match fetch(url)
      case Fetched(p) =>
        var links := if extractLinks then linkExtractor(url, p) else None;
        Visit(if links.Some? then PageLinks(links.value) else [], Some(p), false)
      case Crash => Visit([], None, true)
      case _ => Visit([], None, false)
    }

    /** The loop of processItem over a directory listing: the entries of directory
        records are offered until a file record hands the url to processFile without
        link extraction. */
    function ListingVisit(url: string, records: seq<DataRecord>): Visit
      decreases |records|
    {
      if records == [] then Visit([], None, false)
      else if records[0].recordType == DIR_RECORD_TYPE then
        Prepend(FieldLinks(records[0].entries, true), ListingVisit(url, records[1..]))
      else if records[0].recordType == FILE_RECORD_TYPE then FileVisit(url, false)
      else ListingVisit(url, records[1..])
    }

    /** processItem: a `file://` url is listed as a directory, any other url is
        fetched with link extraction. */
    function ItemVisit(url: string): Visit {
      if StartsWith(url, PROTOCOL) then
        match dirExtractor(url)
        case None => Visit([], None, false)
        case Some(records) => ListingVisit(url, records)
      else FileVisit(url, true)
    }

    /** extractData throws on a fetched page; nothing in run catches it. */
    predicate ExtractFails(url: string, page: Option<Page>) {
      page.Some? && extractor(url, page.value).Failure?
    }

    /** The records of a page that reach the writer. */
    function Delivered(url: string, page: Option<Page>): seq<DataRecord> {
      if page.None? then []
      else
        match extractor(url, page.value)
        case Failure(_) => []
        case Success(None) => []
        case Success(Some(records)) => Survivors(dataEnhancers, records)
    }

    /** Offers the links a record's fields hold, one enqueue per accepted link. */
    method OfferFieldLinks(fields: seq<Field>, listing: bool, origin: string)
      requires queue.Valid()
      modifies queue
      ensures queue.Valid()
      ensures queue.State() == OfferAll(old(queue.State()), FieldLinks(fields, listing), origin)
    {
      for k := 0 to |fields|
        invariant queue.Valid()
        invariant queue.State() == OfferAll(old(queue.State()), FieldLinks(fields[..k], listing), origin)
      {
        ghost var links := FieldLinks(fields[..k], listing);
        FieldLinksSnoc(fields, k, listing);
        OfferAllAppend(old(queue.State()), links, FieldLinks([fields[k]], listing), origin);
        OfferField(fields[k], listing, origin);
      }
      assert fields[..|fields|] == fields;
    }

    /** One field: its value is enqueued when it is text the filter accepts. */
    method OfferField(field: Field, listing: bool, origin: string)
      requires queue.Valid()
      modifies queue
      ensures queue.Valid()
      ensures queue.State() == OfferAll(old(queue.State()), FieldLinks([field], listing), origin)
    {
      assert [field][..0] == [];
      match field.value {
        case Text(link) =>
          if Follows(listing, link) {
            assert FieldLinks([field], listing) == [link];
            OfferAllOne(old(queue.State()), link, origin);
            var o := queue.Enqueue(Some(link), Some(origin));
          }
        case _ =>
      }
    }

    /** The link loop of processFile. */
    method OfferPageLinks(records: seq<DataRecord>, origin: string)
      requires queue.Valid()
      modifies queue
      ensures queue.Valid()
      ensures queue.State() == OfferAll(old(queue.State()), PageLinks(records), origin)
    {
      for i := 0 to |records|
        invariant queue.Valid()
        invariant queue.State() == OfferAll(old(queue.State()), PageLinks(records[..i]), origin)
      {
        assert records[..i + 1][..i] == records[..i];
        OfferAllAppend(old(queue.State()), PageLinks(records[..i]), FieldLinks(records[i].entries, false), origin);
        OfferFieldLinks(records[i].entries, false, origin);
      }
      assert records[..|records|] == records;
    }

    /** processFile, with the page-level exceptions caught. */
    method ProcessFile(url: string, extractLinks: bool) returns (page: Option<Page>, died: bool)
      requires queue.Valid()
      modifies queue
      ensures queue.Valid()
      ensures page == FileVisit(url, extractLinks).page && died == FileVisit(url, extractLinks).died
      ensures queue.State() == OfferAll(old(queue.State()), FileVisit(url, extractLinks).offered, url)
    {
      var f := fetch(url);
      match f {
        case Fetched(p) =>
          if extractLinks {
            var links := linkExtractor(url, p);
            if links.Some? {
              OfferPageLinks(links.value, url);
            }
          }
          page, died := Some(p), false;
        case Crash =>
          page, died := None, true;
        case _ =>
          page, died := None, false;
      }
    }

    /** processItem. */
    method ProcessItem(url: string) returns (page: Option<Page>, died: bool)
      requires queue.Valid()
      modifies queue
      ensures queue.Valid()
      ensures page == ItemVisit(url).page && died == ItemVisit(url).died
      ensures queue.State() == OfferAll(old(queue.State()), ItemVisit(url).offered, url)
    {
      if !StartsWith(url, PROTOCOL) {
        page, died := ProcessFile(url, true);
        return;
      }
      var listing := dirExtractor(url);
      if listing.None? {
        return None, false;
      }
      page, died := ProcessListing(url, listing.value);
    }

    /** The loop of processItem over the records of a directory listing. */
    method ProcessListing(url: string, records: seq<DataRecord>) returns (page: Option<Page>, died: bool)
      requires queue.Valid()
      modifies queue
      ensures queue.Valid()
      ensures page == ListingVisit(url, records).page && died == ListingVisit(url, records).died
      ensures queue.State() == OfferAll(old(queue.State()), ListingVisit(url, records).offered, url)
    {
      ghost var st0 := queue.State();
      for i := 0 to |records|
        invariant queue.Valid()
        invariant queue.State() == OfferAll(st0, DirLinks(records[..i]), url)
        invariant ListingVisit(url, records) == Prepend(DirLinks(records[..i]), ListingVisit(url, records[i..]))
      {
        var r := records[i];
        ListingStep(url, records, i);
        if r.recordType == DIR_RECORD_TYPE {
          OfferAllAppend(st0, DirLinks(records[..i]), FieldLinks(r.entries, true), url);
          OfferFieldLinks(r.entries, true, url);
        } else if r.recordType == FILE_RECORD_TYPE {
          OfferAllAppend(st0, DirLinks(records[..i]), FileVisit(url, false).offered, url);
          page, died := ProcessFile(url, false);
          return;
        } else {
          assert DirLinks(records[..i]) + [] == DirLinks(records[..i]);
        }
      }
      assert records[..|records|] == records;
      assert DirLinks(records) + [] == DirLinks(records);
      page, died := None, false;
    }

    /** One record of the listing loop: a directory record adds its entries to those
        offered so far, a file record ends the loop, any other is skipped. */
    lemma ListingStep(url: string, records: seq<DataRecord>, i: int)
      requires 0 <= i < |records|
      ensures var r := records[i];
        var rest := ListingVisit(url, records[i + 1..]);
        && DirLinks(records[..i + 1]) == DirLinks(records[..i]) + (if r.recordType == DIR_RECORD_TYPE then FieldLinks(r.entries, true) else [])
        && (r.recordType == DIR_RECORD_TYPE ==>
              Prepend(DirLinks(records[..i]), ListingVisit(url, records[i..])) == Prepend(DirLinks(records[..i + 1]), rest))
        && (r.recordType != DIR_RECORD_TYPE && r.recordType != FILE_RECORD_TYPE ==>
              Prepend(DirLinks(records[..i]), ListingVisit(url, records[i..])) == Prepend(DirLinks(records[..i + 1]), rest))
        && (r.recordType == FILE_RECORD_TYPE ==> ListingVisit(url, records[i..]) == FileVisit(url, false))
    {
      var r := records[i];
      assert records[i..][1..] == records[i + 1..];
      assert records[i..][0] == r;
      assert records[..i + 1][..i] == records[..i];
      Writers.Associative(DirLinks(records[..i]), FieldLinks(r.entries, true), ListingVisit(url, records[i + 1..]).offered);
      assert DirLinks(records[..i]) + [] == DirLinks(records[..i]);
    }

    /** The enhancer loop over one record. */
    method EnhanceRecord(record: DataRecord) returns (dr: Option<DataRecord>)
      ensures dr == Chain(dataEnhancers, record)
    {
      dr := Some(record);
      if dataEnhancers.Some? {
        var enhancers := dataEnhancers.value;
        for k := 0 to |enhancers|
          invariant dr == Enhance(enhancers[..k], Some(record))
        {
          assert enhancers[..k + 1][..k] == enhancers[..k];
          var enhancer := enhancers[k];
          if enhancer.Some? {
            if dr.Some? {
              dr := enhancer.value(dr.value);
            }
          }
        }
        assert enhancers[..|enhancers|] == enhancers;
      }
    }

    /** Extraction and output for a fetched page: every surviving record is added to the
        writer; when the extractor throws, `died` is set and nothing reaches the writer. */
    method Deliver(url: string, page: Option<Page>) returns (died: bool)
      requires outputCollector.Valid()
      modifies outputCollector
      ensures outputCollector.Valid()
      ensures died == ExtractFails(url, page)
      ensures outputCollector.pending == AddAll(old(outputCollector.pending), Delivered(url, page))
      ensures outputCollector.out == old(outputCollector.out) && outputCollector.trace == old(outputCollector.trace)
      ensures outputCollector.closed == old(outputCollector.closed)
    {
      if page.None? {
        return false;
      }
      var extracted := extractor(url, page.value);
      if extracted.Failure? {
        return true;
      }
      died := false;
      var drColl := extracted.value;
      if drColl.None? {
        return;
      }
      var records := drColl.value;
      ghost var pending0 := outputCollector.pending;
      for i := 0 to |records|
        invariant outputCollector.Valid()
        invariant outputCollector.pending == AddAll(pending0, Survivors(dataEnhancers, records[..i]))
        invariant outputCollector.out == old(outputCollector.out) && outputCollector.trace == old(outputCollector.trace)
        invariant outputCollector.closed == old(outputCollector.closed)
      {
        assert records[..i + 1][..i] == records[..i];
        var dr := EnhanceRecord(records[i]);
        if dr.Some? {
          assert Survivors(dataEnhancers, records[..i + 1]) == Survivors(dataEnhancers, records[..i]) + [dr.value];
          outputCollector.AddItem(dr.value);
        }
      }
      assert records[..|records|] == records;
    }

    /** One turn of run's loop. */
    method Step() returns (s: StepResult)
      requires Valid() && busy
      modifies this, queue, outputCollector
      ensures Valid()
      ensures old(queue.queue) == [] ==>
        && queue.State() == old(queue.State())
        && outputCollector.pending == old(outputCollector.pending)
        && (old(idleIterations) > MAX_IDLE_ITERATIONS ==> s == Stopped && !busy && idleIterations == old(idleIterations))
        && (old(idleIterations) <= MAX_IDLE_ITERATIONS ==> s == Slept && busy && idleIterations == old(idleIterations) + 1)
      ensures old(queue.queue) != [] ==>
        var url := old(queue.queue)[0];
        var v := ItemVisit(url);
        && busy && idleIterations == 0
        && queue.State() == OfferAll(QueueState(old(queue.processedUrls), old(queue.queue)[1..]), v.offered, url)
        && (v.died ==> s == Died && outputCollector.pending == old(outputCollector.pending))
        && (!v.died && ExtractFails(url, v.page) ==> s == Died && outputCollector.pending == old(outputCollector.pending))
        && (!v.died && !ExtractFails(url, v.page) ==>
              s == Worked && outputCollector.pending == AddAll(old(outputCollector.pending), Delivered(url, v.page)))
      ensures outputCollector.out == old(outputCollector.out) && outputCollector.trace == old(outputCollector.trace)
      ensures outputCollector.closed == old(outputCollector.closed)
    {
      var url := queue.Dequeue();
      if url.Some? {
        busy := true;
        idleIterations := 0;
        var page, died := ProcessItem(url.value);
        if died {
          return Died;
        }
        died := Deliver(url.value, page);
        s := if died then Died else Worked;
      } else if idleIterations > MAX_IDLE_ITERATIONS {
        busy := false;
        s := Stopped;
      } else {
        // back off for BACKOFF_INTERVAL before polling again
        idleIterations := idleIterations + 1;
        s := Slept;
      }
    }

    /** run, for at most `fuel` turns: it ends when the worker stops or an exception
        escapes. A worker that finds the queue empty and nothing else filling it stops
        after four empty polls and three back-off sleeps. */
    method Run(fuel: nat) returns (steps: seq<StepResult>)
      requires Valid()
      modifies this, queue, outputCollector
      ensures Valid()
      ensures |steps| <= fuel
      ensures old(busy) && old(queue.queue) == [] && fuel >= 4 ==> steps == [Slept, Slept, Slept, Stopped] && !busy
      ensures Died in steps ==> busy && steps[|steps| - 1] == Died
      ensures !busy ==> !old(busy) || (steps != [] && steps[|steps| - 1] == Stopped)
    {
      ghost var emptyStart := busy && queue.queue == [];
      idleIterations := 0;
      steps := [];
      while busy && |steps| < fuel
        invariant Valid()
        invariant |steps| <= fuel
        invariant emptyStart ==> queue.queue == []
        invariant emptyStart && busy ==> idleIterations == |steps| <= 3 && forall i :: 0 <= i < |steps| ==> steps[i] == Slept
        invariant emptyStart && !busy ==> steps == [Slept, Slept, Slept, Stopped]
        invariant Died !in steps
        invariant !busy ==> !old(busy) || (steps != [] && steps[|steps| - 1] == Stopped)
        decreases fuel - |steps|
      {
        var s := Step();
        steps := steps + [s];
        if s == Died {
          return;
        }
      }
    }
  }

  /** Routing in processItem: a url outside `file://` is fetched with link extraction;
      a listing whose first record is a file record is fetched without it; a listing
      of directory records offers their entries. */
  lemma Routing(t: SpiderThread, url: string, records: seq<DataRecord>)
    ensures !StartsWith(url, PROTOCOL) ==> t.ItemVisit(url) == t.FileVisit(url, true)
    ensures (StartsWith(url, PROTOCOL) && t.dirExtractor(url) == Some(records) && records != []
             && records[0].recordType == FILE_RECORD_TYPE) ==> t.ItemVisit(url) == t.FileVisit(url, false)
    ensures t.ItemVisit(url).offered == [] || StartsWith(url, PROTOCOL) || t.fetch(url).Fetched?
  {
  }

  /** A failed fetch yields no page and offers nothing; only a runtime exception
      escapes, and the data extractor never runs on it. */
  lemma FetchFailuresCaught(t: SpiderThread, url: string, extractLinks: bool)
    requires !t.fetch(url).Fetched?
    ensures t.FileVisit(url, extractLinks).page.None? && t.FileVisit(url, extractLinks).offered == []
    ensures t.FileVisit(url, extractLinks).died <==> t.fetch(url) == Crash
    ensures !t.ExtractFails(url, t.FileVisit(url, extractLinks).page)
    ensures t.Delivered(url, t.FileVisit(url, extractLinks).page) == []
  {
  }
}
