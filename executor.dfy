/** The executor of one crawl job on one host. init applies the job's settings
    (thread count, crawl interval) and, on the coordinating host, seeds the work
    queue with the start urls. Each crawl iteration starts the workers, flushes the
    writer while any of them is busy, finishes the writer once all are idle, and
    then either ends (ONCE) or waits for the next iteration (any other mode). */
module Executor {
  import opened Wrappers
  import opened Records
  import opened Model
  import opened WorkQueue
  import Writers
  import Spider
  import Strings

  const DEFAULT_THREADS: int := 5
  const DEFAULT_SLEEP: int := 5000
  const DEFAULT_CRAWL_INTERVAL: int := 1000

  /** The url enqueue(s, null) would offer to the queue, when it offers one: without a
      page only an absolute "http" link resolves, and it carries no fragment. */
  ghost function SeedForm(s: string): (r: Option<string>)
    ensures r.Some? <==> Normalize(Some(s), None).Some? && Normalize(Some(s), None).value.Success?
    ensures r.Some? ==> Normalize(Some(s), None) == Some(Success(r.value))
    ensures r.Some? ==> Strings.StartsWith(r.value, "http") && '#' !in r.value
  {
    match Normalize(Some(s), None)
    case Some(Success(u)) => Some(u)
    case _ => None
  }

  /** A start url that enqueue would accept once: its normalised form (`form`), when
      it has one and the patterns let it through, is in the processed set. */
  ghost predicate SeededBy(form: string -> Option<string>, matches: (string, string) -> bool,
                           includes: set<string>, ignores: set<string>, processed: set<string>, s: string)
  {
    (form(s).Some?
     && MatchesAny(matches, form(s).value, includes)
     && !MatchesAny(matches, form(s).value, ignores))
    ==> form(s).value in processed
  }

  /** The same, for the queue's own patterns and processed set. */
  ghost predicate Seeded(q: CrawlerWorkqueue, s: string)
    reads q
  {
    SeededBy(SeedForm, q.matches, q.includeList, q.ignoreList, q.processedUrls, s)
  }

  /** The normalised form of some start url. */
  ghost predicate FromStart(form: string -> Option<string>, list: set<string>, u: string) {
    exists s :: s in list && form(s) == Some(u)
  }

  /** One enqueue of seedQueue keeps the seeding invariants: the processed set only
      grows, by the item's normalised form at most, which is now processed unless the
      patterns reject it. The lemma holds for any normalisation `form`. */
  lemma SeedStep(form: string -> Option<string>, matches: (string, string) -> bool,
                 includes: set<string>, ignores: set<string>,
                 processed0: set<string>, before: set<string>, after: set<string>,
                 list: set<string>, seeded: set<string>, item: string)
    requires item in list
    requires forall s :: s in seeded ==> SeededBy(form, matches, includes, ignores, before, s)
    requires before <= after
    requires forall u :: u in before - processed0 ==> FromStart(form, list, u)
    requires form(item).None? ==> after == before
    requires form(item).Some? ==>
      after == before + {form(item).value}
      || (after == before && !Admissible(matches, before, includes, ignores, form(item).value))
    ensures forall u :: u in after - processed0 ==> FromStart(form, list, u)
    ensures forall s :: s in seeded + {item} ==> SeededBy(form, matches, includes, ignores, after, s)
  {
    forall u | u in after - processed0
      ensures FromStart(form, list, u)
    {
      if u !in before {
        assert form(item) == Some(u);
      }
    }
  }

  class JobExecutor {
    var maxThreads: int
    var sleepInterval: int
    var crawlInterval: int
    var jobDefinition: Option<Job>
    var workQueue: CrawlerWorkqueue
    var done: bool

    /** A new executor over the shared queue: five threads, not done. */
    constructor (queue: CrawlerWorkqueue)
      ensures maxThreads == DEFAULT_THREADS && sleepInterval == DEFAULT_SLEEP
      ensures jobDefinition.None? && workQueue == queue && !done
    {
      maxThreads := DEFAULT_THREADS;
      sleepInterval := DEFAULT_SLEEP;
      crawlInterval := 0;
      jobDefinition := None;
      workQueue := queue;
      done := false;
    }

    /** init: a positive thread count replaces the current one, a missing crawl interval
        becomes 1000 ms, the queue is set up with the job's patterns and, when `doSeed`
        holds, seeded with its start urls. */
    method Init(job: Job, nodeId: int, modSize: int, doSeed: bool, matches: (string, string) -> bool)
      returns (o: Outcome)
      modifies this
      ensures maxThreads == (if job.maxThreads > 0 then job.maxThreads else old(maxThreads))
      ensures crawlInterval == (if job.continuousCrawlInterval.Some? then job.continuousCrawlInterval.value else DEFAULT_CRAWL_INTERVAL)
      ensures jobDefinition == Some(job) && done == old(done) && sleepInterval == old(sleepInterval)
      ensures fresh(workQueue) && workQueue.Valid()
      ensures workQueue.includeList == job.includePatterns && workQueue.ignoreList == job.ignorePatterns
      ensures !doSeed || job.startUrls.None? ==> o == Pass && workQueue.State() == QueueState({}, [])
      ensures doSeed && job.startUrls.Some? ==> SeedOutcome(job.startUrls.value, {}, [], o)
    {
      if job.maxThreads > 0 {
        maxThreads := job.maxThreads;
      }
      jobDefinition := Some(job);
      crawlInterval := if job.continuousCrawlInterval.Some? then job.continuousCrawlInterval.value else DEFAULT_CRAWL_INTERVAL;
      workQueue := new CrawlerWorkqueue(job.ignorePatterns, job.includePatterns, matches);
      o := Pass;
      if doSeed {
        o := SeedQueue(job.startUrls);
      }
    }

    /** What seeding promises, from a queue that held `processed0` and `q0`: it fails
        (with the NullPointerException of a relative url without a page) exactly when
        some start url is relative; otherwise every start url the patterns let through
        is now processed. Whatever was added, on success or before the failure, is the
        normalised form of a start url, and the urls added to the processed set are
        exactly those appended behind `q0` in the queue. */
    ghost predicate SeedOutcome(list: set<string>, processed0: set<string>, q0: seq<string>, o: Outcome)
      reads this, workQueue
    {
      && (o.Fail? <==> exists s :: s in list && Normalize(Some(s), None) == Some(Failure(NullPointer)))
      && (o.Fail? ==> o == Fail(NullPointer))
      && processed0 <= workQueue.processedUrls
      && (forall u :: u in workQueue.processedUrls - processed0 ==> FromStart(SeedForm, list, u))
      && q0 <= workQueue.queue
      && (forall u :: u in workQueue.queue[|q0|..] <==> u in workQueue.processedUrls - processed0)
      && (o.Pass? ==> forall s :: s in list ==> Seeded(workQueue, s))
    }

    /** One enqueue keeps the tie between the queue's new tail and the new part of the
        processed set: either both grow by the same fresh url or neither changes. */
    static lemma TailStep(q0: seq<string>, qb: seq<string>, qa: seq<string>,
                          p0: set<string>, pb: set<string>, pa: set<string>, v: string)
      requires q0 <= qb && p0 <= pb
      requires forall u :: u in qb[|q0|..] <==> u in pb - p0
      requires (qa == qb + [v] && pa == pb + {v} && v !in pb) || (qa == qb && pa == pb)
      ensures q0 <= qa && p0 <= pa
      ensures forall u :: u in qa[|q0|..] <==> u in pa - p0
    {
      if qa != qb {
        assert qa[|q0|..] == qb[|q0|..] + [v];
      }
    }

    /** seedQueue: enqueue(item, null) for each start url; a null set seeds nothing. */
    method SeedQueue(list: Option<set<string>>) returns (o: Outcome)
      requires workQueue.Valid()
      modifies workQueue
      ensures workQueue.Valid()
      ensures list.None? ==> o == Pass && workQueue.State() == old(workQueue.State())
      ensures list.Some? ==> SeedOutcome(list.value, old(workQueue.processedUrls), old(workQueue.queue), o)
    {
      if list.None? {
        return Pass;
      }
      ghost var processed0 := workQueue.processedUrls;
      ghost var q0 := workQueue.queue;
      var rest := list.value;
      while rest != {}
        invariant rest <= list.value
        invariant workQueue.Valid()
        invariant processed0 <= workQueue.processedUrls
        invariant forall u :: u in workQueue.processedUrls - processed0 ==> FromStart(SeedForm, list.value, u)
        invariant q0 <= workQueue.queue
        invariant forall u :: u in workQueue.queue[|q0|..] <==> u in workQueue.processedUrls - processed0
        invariant forall s :: s in list.value - rest ==> Normalize(Some(s), None) != Some(Failure(NullPointer))
        invariant forall s :: s in list.value - rest ==> Seeded(workQueue, s)
        decreases rest
      {
        var item :| item in rest;
        ghost var before := workQueue.processedUrls;
        ghost var queueBefore := workQueue.queue;
        o := SeedOne(item);
        TailStep(q0, queueBefore, workQueue.queue, processed0, before, workQueue.processedUrls,
                 if SeedForm(item).Some? then SeedForm(item).value else "");
        if o.Fail? {
          assert item in list.value && Normalize(Some(item), None) == Some(Failure(NullPointer));
          return;
        }
        SeedStep(SeedForm, workQueue.matches, workQueue.includeList, workQueue.ignoreList,
                 processed0, before, workQueue.processedUrls, list.value, list.value - rest, item);
        assert list.value - (rest - {item}) == (list.value - rest) + {item};
        rest := rest - {item};
      }
      o := Pass;
    }

    /** The loop body of seedQueue: enqueue(item, null). The normalised url is either
        admitted (it joins the processed set and the tail of the queue) or rejected by
        the patterns or the processed set, and then the queue is as it was. */
    method SeedOne(item: string) returns (o: Outcome)
      requires workQueue.Valid()
      modifies workQueue
      ensures workQueue.Valid()
      ensures o.Fail? <==> Normalize(Some(item), None) == Some(Failure(NullPointer))
      ensures o.Fail? ==> o == Fail(NullPointer) && workQueue.State() == old(workQueue.State())
      ensures SeedForm(item).None? ==> workQueue.State() == old(workQueue.State())
      ensures SeedForm(item).Some? ==>
        (var u := SeedForm(item).value;
         u !in old(workQueue.processedUrls)
         && workQueue.processedUrls == old(workQueue.processedUrls) + {u}
         && workQueue.queue == old(workQueue.queue) + [u])
        || (workQueue.State() == old(workQueue.State())
            && !Admissible(workQueue.matches, old(workQueue.processedUrls), workQueue.includeList,
                           workQueue.ignoreList, SeedForm(item).value))
    {
      o := workQueue.Enqueue(Some(item), None);
    }

    /** areStillWorking: some worker is busy; the scan stops at the first. */
    method AreStillWorking(threadList: seq<Spider.SpiderThread>) returns (b: bool)
      ensures b <==> exists i :: 0 <= i < |threadList| && threadList[i].busy
    {
      for i := 0 to |threadList|
        invariant forall k :: 0 <= k < i ==> !threadList[k].busy
      {
        var busy := threadList[i].IsBusy();
        if busy {
          return true;
        }
      }
      return false;
    }

    /** spawnThreads: `threadCount` new busy workers sharing the queue and the writer. */
    method SpawnThreads(threadCount: int, outputCollector: Writers.DataWriter,
                        extractor: (string, Spider.Page) -> Result<Option<seq<DataRecord>>>,
                        dirExtractor: string -> Option<seq<DataRecord>>,
                        linkExtractor: (string, Spider.Page) -> Option<seq<DataRecord>>,
                        fetch: string -> Spider.Fetch,
                        enhancers: Option<seq<Option<Spider.Enhancer>>>)
      returns (threadList: seq<Spider.SpiderThread>)
      ensures |threadList| == if threadCount > 0 then threadCount else 0
      ensures forall i :: 0 <= i < |threadList| ==>
        fresh(threadList[i]) && threadList[i].busy && threadList[i].idleIterations == 0
        && threadList[i].queue == workQueue && threadList[i].outputCollector == outputCollector
        && threadList[i].extractor == extractor && threadList[i].dataEnhancers == enhancers
    {
      threadList := [];
      var i := 0;
      while i < threadCount
        invariant threadCount > 0 ==> i <= threadCount
        invariant threadCount <= 0 ==> i == 0
        invariant |threadList| == i
        invariant forall k :: 0 <= k < |threadList| ==>
          fresh(threadList[k]) && threadList[k].busy && threadList[k].idleIterations == 0
          && threadList[k].queue == workQueue && threadList[k].outputCollector == outputCollector
          && threadList[k].extractor == extractor && threadList[k].dataEnhancers == enhancers
      {
        var st := new Spider.SpiderThread(workQueue, outputCollector, extractor, dirExtractor,
                                          linkExtractor, fetch, enhancers);
        threadList := threadList + [st];
        i := i + 1;
      }
    }

    /** One turn of the monitoring loop: while some worker is busy the writer's batch
        is flushed; once none is, nothing happens. The loop catches only I/O and
        interrupt exceptions, so a failed flush (`o` is Fail) ends the crawl thread. */
    method MonitorTurn(threadList: seq<Spider.SpiderThread>, outputCollector: Writers.DataWriter)
      returns (working: bool, o: Outcome, written: seq<DataRecord>)
      requires outputCollector.Valid()
      modifies outputCollector
      ensures outputCollector.Valid() && outputCollector.closed == old(outputCollector.closed)
      ensures working <==> exists i :: 0 <= i < |threadList| && threadList[i].busy
      ensures working && !(outputCollector.format.Csv? && outputCollector.closed) ==>
        o == Pass
        && outputCollector.Wrote(old(outputCollector.Contents()), written)
      ensures working && outputCollector.format.Csv? && outputCollector.closed ==>
        o.Fail? && written == [] && outputCollector.pending == map[] && outputCollector.out == old(outputCollector.out)
      ensures !working ==> o == Pass && written == [] && unchanged(outputCollector)
    {
      working := AreStillWorking(threadList);
      o, written := Pass, [];
      if working {
        o, written := outputCollector.FlushBatch();
      }
    }

    /** The end of a crawl iteration: the writer is finished once, and a ONCE job is done. */
    method EndIteration(outputCollector: Writers.DataWriter)
      requires jobDefinition.Some?
      modifies this, outputCollector
      ensures jobDefinition == old(jobDefinition) && workQueue == old(workQueue)
      ensures done == (old(done) || jobDefinition.value.mode == Some(Once))
      ensures outputCollector.closed == (old(outputCollector.closed) || outputCollector.format.Csv?)
      ensures outputCollector.pending == old(outputCollector.pending) && outputCollector.out == old(outputCollector.out)
    {
      outputCollector.Finish();
      if jobDefinition.value.mode == Some(Once) {
        done := true;
      }
    }

    /** executeCrawl's loop over iterations, each with its own new writer (the
        component factory builds one per iteration), finished when the iteration ends:
        it starts by clearing `done`, runs one iteration for a ONCE job and otherwise
        one per writer supplied (a continuous crawl never sets `done`). The writers of
        the iterations that ran are finished once each; the others are untouched. */
    method ExecuteCrawl(writers: seq<Writers.DataWriter>) returns (iterations: nat)
      requires jobDefinition.Some?
      requires forall i, j :: 0 <= i < j < |writers| ==> writers[i] != writers[j]
      modifies this, set w | w in writers
      ensures jobDefinition == old(jobDefinition)
      ensures jobDefinition.value.mode == Some(Once) ==> iterations == (if |writers| > 0 then 1 else 0)
      ensures jobDefinition.value.mode != Some(Once) ==> iterations == |writers| && !done
      ensures done <==> jobDefinition.value.mode == Some(Once) && |writers| > 0
      ensures forall i :: 0 <= i < iterations ==>
        writers[i].closed == (old(writers[i].closed) || writers[i].format.Csv?)
        && writers[i].pending == old(writers[i].pending) && writers[i].out == old(writers[i].out)
      ensures forall i :: iterations <= i < |writers| ==> unchanged(writers[i])
    {
      done := false;
      iterations := 0;
      while !done && iterations < |writers|
        invariant iterations <= |writers|
        invariant jobDefinition == old(jobDefinition)
        invariant done <==> jobDefinition.value.mode == Some(Once) && iterations > 0
        invariant jobDefinition.value.mode == Some(Once) ==> iterations <= 1
        invariant forall i :: 0 <= i < iterations ==>
          writers[i].closed == (old(writers[i].closed) || writers[i].format.Csv?)
          && writers[i].pending == old(writers[i].pending) && writers[i].out == old(writers[i].out)
        invariant forall i :: iterations <= i < |writers| ==> unchanged(writers[i])
        decreases |writers| - iterations
      {
        EndIteration(writers[iterations]);
        iterations := iterations + 1;
      }
    }

    /** isDone. */
    method IsDone() returns (b: bool)
      ensures b == done
    {
      b := done;
    }
  }
}
