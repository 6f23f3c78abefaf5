/** The crawl work queue: a FIFO of URLs still to visit and the set of every URL
    ever admitted. A URL offered by a worker is trimmed, loses its `#fragment`,
    is resolved against the page it was found on, and is admitted only when it
    is new, matches an include pattern and matches no ignore pattern. Pattern
    matching (String.matches) is the parameter `matches(url, pattern)`. */
module WorkQueue {
  import opened Wrappers
  import opened Strings

  // ---------------------------------------------------------------- normalisation

  /** url.substring(0, url.indexOf("#")) when the url contains "#": the part before the first '#'. */
  function StripFragment(url: string): (r: string)
    ensures '#' !in r
    ensures '#' in url ==> r + "#" <= url
    ensures '#' !in url ==> r == url
  {
    var k := IndexOf(url, "#");
    CharAt(url, '#', k);
    IndexOfFromSpec(url, "#", 0);
    if k >= 0 then
      assert forall j :: 0 <= j < k ==> url[j] != '#' by {
        forall j | 0 <= j < k ensures url[j] != '#' {
          CharAt(url, '#', j);
        }
      }
      url[..k]
    else
      assert forall j :: 0 <= j < |url| ==> url[j] != '#' by {
        forall j | 0 <= j < |url| ensures url[j] != '#' {
          CharAt(url, '#', j);
        }
      }
      url
  }

  /** The index just past the "//" that ends the protocol of `page` (1 when there is none). */
  function ProtocolEnd(page: string): int {
    IndexOf(page, "//") + 2
  }

  /** `host` is `page` up to its first '/' at or after the protocol end, or all of `page`. */
  predicate IsRoot(page: string, host: string) {
    var e := SearchStart(|page|, ProtocolEnd(page));
    host <= page && e <= |host|
    && (forall j :: e <= j < |host| ==> page[j] != '/')
    && (host == page || page[|host|] == '/')
  }

  /** `dir` is `page` up to its last '/' when that lies past the protocol end, else all of `page`. */
  predicate IsDirectory(page: string, dir: string) {
    dir <= page
    && (if dir == page then forall j :: 0 <= j < |page| && j > ProtocolEnd(page) ==> page[j] != '/'
        else |dir| > ProtocolEnd(page) && |dir| > 0 && page[|dir|] == '/'
             && forall j :: |dir| < j < |page| ==> page[j] != '/')
  }

  /** makeAbsolute: a link starting with "http" is kept (trimmed); any other link needs
      the page, and a null page fails. How the other links resolve is stated by
      MakeAbsoluteRooted and MakeAbsoluteRelative. */
  function MakeAbsolute(linkUrl: string, pageUrl: Option<string>): (r: Result<string>)
    ensures StartsWith(Trim(linkUrl), "http") ==> r == Success(Trim(linkUrl))
    ensures !StartsWith(Trim(linkUrl), "http") ==> (r.Failure? <==> pageUrl.None?)
    ensures r.Failure? ==> r.error == NullPointer
  {
    var url := Trim(linkUrl);
    if StartsWith(url, "http") then Success(url)
    else if pageUrl.None? then Failure(NullPointer)
    else
      var page := pageUrl.value;
      var endProto := ProtocolEnd(page);
      var firstSlash := IndexOfFrom(page, "/", endProto);
      if StartsWith(url, "/") then
        if firstSlash > 0 then Success(page[..firstSlash] + linkUrl)
        else Success(page + linkUrl)
      else
        var lastSlash := LastIndexOf(page, "/");
        if lastSlash > 0 && lastSlash > endProto then Success(page[..lastSlash] + "/" + linkUrl)
        else Success(page + "/" + linkUrl)
  }

  /** A "/"-rooted link is appended, untrimmed, to the page up to its first '/' after
      the protocol, or to the whole page when it has no such '/'. */
  lemma MakeAbsoluteRooted(linkUrl: string, page: string)
    requires !StartsWith(Trim(linkUrl), "http") && StartsWith(Trim(linkUrl), "/")
    ensures var r := MakeAbsolute(linkUrl, Some(page));
      r.Success? && |r.value| >= |linkUrl|
      && r.value == r.value[..|r.value| - |linkUrl|] + linkUrl
      && IsRoot(page, r.value[..|r.value| - |linkUrl|])
  {
    var firstSlash := IndexOfFrom(page, "/", ProtocolEnd(page));
    RootFromSlash(page, firstSlash);
    var r := MakeAbsolute(linkUrl, Some(page)).value;
    if firstSlash > 0 {
      assert r == page[..firstSlash] + linkUrl;
      assert r[..|r| - |linkUrl|] == page[..firstSlash];
    } else {
      assert r == page + linkUrl;
      assert r[..|r| - |linkUrl|] == page;
    }
  }

  /** Any other link is appended, untrimmed and after a '/', to the page's directory:
      the page up to its last '/' when that lies past the protocol, else the whole page. */
  lemma MakeAbsoluteRelative(linkUrl: string, page: string)
    requires !StartsWith(Trim(linkUrl), "http") && !StartsWith(Trim(linkUrl), "/")
    ensures var r := MakeAbsolute(linkUrl, Some(page));
      r.Success? && |r.value| > |linkUrl|
      && r.value == r.value[..|r.value| - |linkUrl| - 1] + "/" + linkUrl
      && IsDirectory(page, r.value[..|r.value| - |linkUrl| - 1])
  {
    var lastSlash := LastIndexOf(page, "/");
    DirectoryFromSlash(page, lastSlash);
    var r := MakeAbsolute(linkUrl, Some(page)).value;
    if lastSlash > 0 && lastSlash > ProtocolEnd(page) {
      assert r == page[..lastSlash] + "/" + linkUrl;
      assert r[..|r| - |linkUrl| - 1] == page[..lastSlash];
    } else {
      assert r == page + "/" + linkUrl;
      assert r[..|r| - |linkUrl| - 1] == page;
    }
  }

  /** A link and a page without '#' resolve to a url without '#'. */
  lemma MakeAbsoluteFragmentFree(linkUrl: string, pageUrl: Option<string>)
    requires '#' !in linkUrl
    ensures (pageUrl.None? || '#' !in pageUrl.value) && MakeAbsolute(linkUrl, pageUrl).Success? ==>
      '#' !in MakeAbsolute(linkUrl, pageUrl).value
  {
    TrimKeepsOut(linkUrl, '#');
  }

  lemma RootFromSlash(page: string, firstSlash: int)
    requires firstSlash == IndexOfFrom(page, "/", ProtocolEnd(page))
    ensures firstSlash > 0 ==> firstSlash <= |page| && IsRoot(page, page[..firstSlash])
    ensures firstSlash <= 0 ==> IsRoot(page, page)
  {
    var e := SearchStart(|page|, ProtocolEnd(page));
    assert e >= 1 || |page| == 0;
    CharAt(page, '/', firstSlash);
    IndexOfFromSpec(page, "/", ProtocolEnd(page));
    forall j | e <= j < |page| && (firstSlash == -1 || j < firstSlash)
      ensures page[j] != '/'
    {
      CharAt(page, '/', j);
    }
  }

  lemma DirectoryFromSlash(page: string, lastSlash: int)
    requires lastSlash == LastIndexOf(page, "/")
    ensures lastSlash > 0 && lastSlash > ProtocolEnd(page) ==> lastSlash <= |page| && IsDirectory(page, page[..lastSlash])
    ensures !(lastSlash > 0 && lastSlash > ProtocolEnd(page)) ==> IsDirectory(page, page)
  {
    CharAt(page, '/', lastSlash);
    LastIndexOfSpec(page, "/");
    forall j | 0 <= j < |page| && j > lastSlash
      ensures page[j] != '/'
    {
      CharAt(page, '/', j);
    }
  }

  /** What enqueue does with its arguments before the admission test: None when it
      returns at once (a null, blank or "/" url), otherwise the resolved url or the
      exception makeAbsolute raises. The fragment is cut before resolution. */
  function Normalize(url: Option<string>, pageUrl: Option<string>): (r: Option<Result<string>>)
    ensures r.None? <==> (url.None? || Trim(url.value) == [] || Trim(url.value) == "/")
    ensures r.Some? ==> r.value == MakeAbsolute(StripFragment(Trim(url.value)), pageUrl)
    ensures r.Some? && r.value.Failure? ==> r.value.error == NullPointer && pageUrl.None?
    ensures pageUrl.None? && r.Some? && r.value.Success? ==> StartsWith(r.value.value, "http")
    ensures (pageUrl.None? || '#' !in pageUrl.value) && r.Some? && r.value.Success? ==> '#' !in r.value.value
  {
    if url.None? || |Trim(url.value)| == 0 || Trim(url.value) == "/" then None
    else
      var link := StripFragment(Trim(url.value));
      MakeAbsoluteFragmentFree(link, pageUrl);
      Some(MakeAbsolute(link, pageUrl))
  }

  // ---------------------------------------------------------------- admission

  /** isInList: some pattern of `list` matches `url`. */
  predicate MatchesAny(matches: (string, string) -> bool, url: string, list: set<string>) {
    exists p :: p in list && matches(url, p)
  }

  /** The admission test of enqueue on a normalised url. */
  predicate Admissible(matches: (string, string) -> bool, processed: set<string>,
                       includes: set<string>, ignores: set<string>, url: string) {
    url !in processed && MatchesAny(matches, url, includes) && !MatchesAny(matches, url, ignores)
  }

  /** An empty include list admits nothing, and an admitted url is never admitted again. */
  lemma AdmissionLimits(matches: (string, string) -> bool, processed: set<string>,
                        includes: set<string>, ignores: set<string>, url: string)
    ensures includes == {} ==> !Admissible(matches, processed, includes, ignores, url)
    ensures !Admissible(matches, processed + {url}, includes, ignores, url)
  {
  }

  /** What a queue holds: the admitted urls and the pending ones, oldest first. */
  datatype QueueState = QueueState(processed: set<string>, pending: seq<string>)

  /** The queue after enqueue(url, pageUrl): the normalised url joins the tail and the
      processed set when it is admissible; otherwise nothing changes. */
  function Offer(matches: (string, string) -> bool, includes: set<string>, ignores: set<string>,
                 st: QueueState, url: Option<string>, pageUrl: Option<string>): (r: QueueState)
    ensures r != st ==>
      |r.pending| == |st.pending| + 1 && r.pending[..|st.pending|] == st.pending
      && r.pending[|st.pending|] !in st.processed
      && r.processed == st.processed + {r.pending[|st.pending|]}
    ensures r != st ==> Normalize(url, pageUrl) == Some(Success(r.pending[|st.pending|]))
  {
    match Normalize(url, pageUrl)
    case Some(Success(u)) =>
      if Admissible(matches, st.processed, includes, ignores, u)
      then QueueState(st.processed + {u}, st.pending + [u])
      else st
    case _ => st
  }

  /** Offering the same url a second time changes nothing, whatever was dequeued in
      between: only reset forgets an admitted url. */
  lemma OfferIdempotent(matches: (string, string) -> bool, includes: set<string>, ignores: set<string>,
                        st: QueueState, url: Option<string>, pageUrl: Option<string>, pending: seq<string>)
    ensures var p := Offer(matches, includes, ignores, st, url, pageUrl).processed;
      Offer(matches, includes, ignores, QueueState(p, pending), url, pageUrl) == QueueState(p, pending)
  {
    var r := Offer(matches, includes, ignores, st, url, pageUrl);
    match Normalize(url, pageUrl)
    case Some(Success(u)) =>
      if Admissible(matches, st.processed, includes, ignores, u) {
        assert u in r.processed;
      }
      AdmissionLimits(matches, st.processed, includes, ignores, u);
    case _ =>
  }

  // ---------------------------------------------------------------- the queue

  class CrawlerWorkqueue {
    var processedUrls: set<string>
    var queue: seq<string>
    const ignoreList: set<string>
    const includeList: set<string>
    const matches: (string, string) -> bool

    /** The pending urls are distinct and all of them have been admitted. */
    ghost predicate Valid()
      reads this
    {
      (forall i, j :: 0 <= i < j < |queue| ==> queue[i] != queue[j])
      && (forall i :: 0 <= i < |queue| ==> queue[i] in processedUrls)
    }

    function State(): QueueState
      reads this
    {
      QueueState(processedUrls, queue)
    }

    ghost predicate Admits(url: string)
      reads this
    {
      Admissible(matches, processedUrls, includeList, ignoreList, url)
    }

    /** createInstance(excludeList, includes): an empty queue with nothing processed. */
    constructor (excludeList: set<string>, includes: set<string>, matches: (string, string) -> bool)
      ensures Valid()
      ensures queue == [] && processedUrls == {}
      ensures ignoreList == excludeList && includeList == includes && this.matches == matches
    {
      processedUrls := {};
      queue := [];
      ignoreList := excludeList;
      includeList := includes;
      this.matches := matches;
    }

    /** enqueue: a normalised url is added at the tail and to the processed set iff it is
        admissible; in every other case nothing changes. A non-http link with a null page
        fails with a NullPointerException. */
    method Enqueue(url: Option<string>, pageUrl: Option<string>) returns (o: Outcome)
      requires Valid()
      modifies this
      ensures Valid()
      ensures Normalize(url, pageUrl).None? ==> o == Pass && unchanged(this)
      ensures Normalize(url, pageUrl) == Some(Failure(NullPointer)) ==> o == Fail(NullPointer) && unchanged(this)
      ensures Normalize(url, pageUrl).Some? && Normalize(url, pageUrl).value.Success? ==>
        var u := Normalize(url, pageUrl).value.value;
        o == Pass
        && (if old(Admits(u))
            then queue == old(queue) + [u] && processedUrls == old(processedUrls) + {u}
            else unchanged(this))
      ensures State() == Offer(matches, includeList, ignoreList, old(State()), url, pageUrl)
    {
      var n := Normalize(url, pageUrl);
      if n.None? {
        return Pass;
      }
      if n.value.Failure? {
        return Fail(n.value.error);
      }
      Admit(n.value.value);
      o := Pass;
    }

    /** The admission test of enqueue on the normalised url `u`: it joins the tail and
        the processed set iff it is admissible. */
    method Admit(u: string)
      requires Valid()
      modifies this
      ensures Valid()
      ensures old(Admits(u)) ==> queue == old(queue) + [u] && processedUrls == old(processedUrls) + {u}
      ensures !old(Admits(u)) ==> unchanged(this)
    {
      var admit := u !in processedUrls;
      if admit {
        admit := IsInList(u, includeList);
      }
      if admit {
        var ignored := IsInList(u, ignoreList);
        admit := !ignored;
      }
      if admit {
        queue := queue + [u];
        processedUrls := processedUrls + {u};
      }
    }

    /** isInList: true iff at least one pattern of `list` matches; the scan stops at the first. */
    method IsInList(url: string, list: set<string>) returns (found: bool)
      ensures found == MatchesAny(matches, url, list)
    {
      found := false;
      var rest := list;
      while rest != {}
        invariant rest <= list
        invariant !found
        invariant forall p :: p in list - rest ==> !matches(url, p)
        decreases rest
      {
        var s :| s in rest;
        found := matches(url, s);
        if found {
          break;
        }
        rest := rest - {s};
      }
    }

    /** dequeue: the head of the queue, removed; None (Java null) when the queue is empty. */
    method Dequeue() returns (item: Option<string>)
      requires Valid()
      modifies this
      ensures Valid()
      ensures old(queue) == [] ==> item.None? && unchanged(this)
      ensures old(queue) != [] ==> item == Some(old(queue)[0]) && queue == old(queue)[1..]
      ensures processedUrls == old(processedUrls)
    {
      if queue == [] {
        return None;
      }
      item := Some(queue[0]);
      queue := queue[1..];
    }

    /** reset: both the queue and the processed set are emptied. */
    method Reset()
      modifies this
      ensures Valid()
      ensures queue == [] && processedUrls == {}
    {
      processedUrls := {};
      queue := [];
    }

    /** getSize: the number of pending urls. */
    method GetSize() returns (n: int)
      ensures n == |queue|
    {
      n := |queue|;
    }
  }

  /** Offering a url whose normalised form was admitted before changes nothing, even
      after it has been dequeued: the processed set only grows until reset. */
  method EnqueueAgain(q: CrawlerWorkqueue, url: Option<string>, pageUrl: Option<string>)
    returns (o: Outcome)
    requires q.Valid()
    requires forall u :: Normalize(url, pageUrl) == Some(Success(u)) ==> u in q.processedUrls
    modifies q
    ensures q.Valid() && unchanged(q)
  {
    o := q.Enqueue(url, pageUrl);
  }
}
