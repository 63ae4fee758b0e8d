/**
 * The first-generation JSearch client: one request per page, pages 1 to
 * `num_pages` in order, stopping at the first empty page or failed request.
 * The HTTP call is the oracle `fetch`, from the request parameters to the
 * page's `data` list or the `RequestException` it raised.
 */
module JSearch {
  import opened Seqs
  import opened Strings
  import opened Jobs

  /** The query-string parameters of one request. */
  datatype Request = Request(query: string, page: string, numPages: string, country: string, datePosted: string)

  /** What one request yields: the page's postings (`data`, [] when absent), or the exception raised. */
  datatype PageResponse = Page(data: seq<Job>) | RequestFailed(message: string)

  /** The postings collected and every request made, in order. */
  datatype SearchRun = SearchRun(jobs: seq<Job>, requests: seq<Request>)

  /** `f"{query} in {location}" if location else query`. */
  function QueryParam(query: string, location: string): (r: string)
    ensures location == [] ==> r == query
    ensures location != [] ==> r == query + " in " + location
  {
    if location != [] then query + " in " + location else query
  }

  /** The parameters of the request for `page`; all but the query and the page are fixed. */
  function Params(query: string, location: string, page: nat): (r: Request)
    ensures r.query == QueryParam(query, location) && r.page == NatToString(page)
    ensures r.numPages == "3" && r.country == "ca" && r.datePosted == "month"
  {
    Request(QueryParam(query, location), NatToString(page), "3", "ca", "month")
  }

  /** The page loop from `page` on, up to `num_pages`. */
  function PagesFrom(query: string, location: string, fetch: Request -> PageResponse, page: nat, numPages: int): SearchRun
    decreases numPages - page + 1
  {
    if page > numPages then SearchRun([], [])
    else
      var req := Params(query, location, page);
      match fetch(req)
      case RequestFailed(_) => SearchRun([], [req])
      case Page(data) =>
        if data == [] then SearchRun([], [req])
        else
          var rest := PagesFrom(query, location, fetch, page + 1, numPages);
          SearchRun(data + rest.jobs, [req] + rest.requests)
  }

  /** `search_jobs`: the page loop from page 1. */
  function Search(query: string, location: string, fetch: Request -> PageResponse, numPages: int): SearchRun {
    PagesFrom(query, location, fetch, 1, numPages)
  }

  /** Page `p` came back with postings. */
  predicate Fetched(query: string, location: string, fetch: Request -> PageResponse, p: nat) {
    fetch(Params(query, location, p)).Page? && fetch(Params(query, location, p)).data != []
  }

  /** The postings of pages `from` to `to - 1`, concatenated. */
  function PagesBetween(query: string, location: string, fetch: Request -> PageResponse, from: nat, to: nat): seq<Job>
    decreases to - from
  {
    if to <= from then []
    else
      var resp := fetch(Params(query, location, from));
      (if resp.Page? then resp.data else []) + PagesBetween(query, location, fetch, from + 1, to)
  }

  /**
   * Requests go to pages `page`, `page + 1`, ... in ascending order, one per
   * page, never past `num_pages`.
   */
  lemma {:induction false} PagesAscending(query: string, location: string, fetch: Request -> PageResponse, page: nat, numPages: int)
    ensures var r := PagesFrom(query, location, fetch, page, numPages);
      && |r.requests| <= (if numPages < page then 0 else numPages - page + 1)
      && forall i :: 0 <= i < |r.requests| ==> r.requests[i] == Params(query, location, page + i)
    decreases numPages - page + 1
  {
    if page <= numPages {
      var req := Params(query, location, page);
      if fetch(req).Page? && fetch(req).data != [] {
        PagesAscending(query, location, fetch, page + 1, numPages);
        var rest := PagesFrom(query, location, fetch, page + 1, numPages);
        var r := PagesFrom(query, location, fetch, page, numPages);
        assert r.requests == [req] + rest.requests;
        forall i | 1 <= i < |r.requests|
          ensures r.requests[i] == Params(query, location, page + i)
        {
          assert r.requests[i] == rest.requests[i - 1];
        }
      }
    }
  }

  /**
   * When pages `page..stop-1` have postings and page `stop` (at most
   * `num_pages`) is empty or fails, the loop ends there: the result is the
   * earlier pages concatenated, after `stop - page + 1` requests.
   */
  lemma {:induction false} PagesStopEarly(query: string, location: string, fetch: Request -> PageResponse,
                                          page: nat, stop: nat, numPages: int)
    requires page <= stop <= numPages
    requires forall p :: page <= p < stop ==> Fetched(query, location, fetch, p)
    requires !Fetched(query, location, fetch, stop)
    ensures var r := PagesFrom(query, location, fetch, page, numPages);
      r.jobs == PagesBetween(query, location, fetch, page, stop) && |r.requests| == stop - page + 1
    decreases stop - page
  {
    if page < stop {
      assert Fetched(query, location, fetch, page);
      PagesStopEarly(query, location, fetch, page + 1, stop, numPages);
    }
  }

  /** When every page has postings, the result is all `num_pages` pages concatenated. */
  lemma {:induction false} PagesAllFetched(query: string, location: string, fetch: Request -> PageResponse,
                                           page: nat, numPages: int)
    requires forall p :: page <= p <= numPages ==> Fetched(query, location, fetch, p)
    ensures var r := PagesFrom(query, location, fetch, page, numPages);
      && r.jobs == PagesBetween(query, location, fetch, page, if numPages < page then page else numPages + 1)
      && |r.requests| == (if numPages < page then 0 else numPages - page + 1)
    decreases numPages - page + 1
  {
    if page <= numPages {
      assert Fetched(query, location, fetch, page);
      PagesAllFetched(query, location, fetch, page + 1, numPages);
    }
  }

  /** A failure or an empty answer on the first page gives no postings. */
  lemma FirstPageFailure(query: string, location: string, fetch: Request -> PageResponse, numPages: int)
    requires numPages >= 1
    requires !Fetched(query, location, fetch, 1)
    ensures Search(query, location, fetch, numPages) == SearchRun([], [Params(query, location, 1)])
  {
  }

  /** `search_jobs`: the `for page in range(1, num_pages + 1)` loop. */
  method SearchJobs(query: string, location: string, numPages: int, fetch: Request -> PageResponse)
    returns (jobs: seq<Job>, requests: seq<Request>)
    ensures SearchRun(jobs, requests) == Search(query, location, fetch, numPages)
    ensures |requests| <= (if numPages < 1 then 0 else numPages)
    ensures forall i :: 0 <= i < |requests| ==> requests[i] == Params(query, location, i + 1)
  {
    jobs, requests := PageLoop(query, location, numPages, fetch);
    PagesAscending(query, location, fetch, 1, numPages);
  }

  method PageLoop(query: string, location: string, numPages: int, fetch: Request -> PageResponse)
    returns (jobs: seq<Job>, requests: seq<Request>)
    ensures SearchRun(jobs, requests) == Search(query, location, fetch, numPages)
  {
    jobs, requests := [], [];
    var page: nat := 1;
    while page <= numPages
      invariant 1 <= page
      invariant Search(query, location, fetch, numPages) == After(jobs, requests, PagesFrom(query, location, fetch, page, numPages))
      decreases numPages - page + 1
    {
      var params := Params(query, location, page);
      PageNext(query, location, fetch, page, numPages, jobs, requests);
      var response := fetch(params);
      if response.RequestFailed? || response.data == [] {
        requests := requests + [params];
        AfterNone(jobs, requests);
        return;
      }
      requests := requests + [params];
      jobs := jobs + response.data;
      page := page + 1;
    }
    AfterNone(jobs, requests);
  }

  /** One page of the loop, with `jobs` and `requests` gathered before it. */
  lemma PageNext(query: string, location: string, fetch: Request -> PageResponse, page: nat, numPages: int,
                 jobs: seq<Job>, requests: seq<Request>)
    requires page <= numPages
    requires Search(query, location, fetch, numPages) == After(jobs, requests, PagesFrom(query, location, fetch, page, numPages))
    ensures var req := Params(query, location, page);
      && (!Fetched(query, location, fetch, page) ==>
            Search(query, location, fetch, numPages) == After(jobs, requests + [req], SearchRun([], [])))
      && (Fetched(query, location, fetch, page) ==>
            Search(query, location, fetch, numPages)
              == After(jobs + fetch(req).data, requests + [req], PagesFrom(query, location, fetch, page + 1, numPages)))
  {
    var req := Params(query, location, page);
    PagesStep(query, location, fetch, page, numPages);
    if Fetched(query, location, fetch, page) {
      AfterStep(jobs, requests, fetch(req).data, req, PagesFrom(query, location, fetch, page + 1, numPages));
    } else {
      AfterLast(jobs, requests, req);
    }
  }

  lemma AfterNone(jobs: seq<Job>, requests: seq<Request>)
    ensures After(jobs, requests, SearchRun([], [])) == SearchRun(jobs, requests)
  {
    assert jobs + [] == jobs && requests + [] == requests;
  }

  /** The run of a loop that had already collected `jobs` through `requests`. */
  function After(jobs: seq<Job>, requests: seq<Request>, rest: SearchRun): SearchRun {
    SearchRun(jobs + rest.jobs, requests + rest.requests)
  }

  lemma AfterStep(jobs: seq<Job>, requests: seq<Request>, data: seq<Job>, req: Request, rest: SearchRun)
    ensures After(jobs, requests, SearchRun(data + rest.jobs, [req] + rest.requests))
         == After(jobs + data, requests + [req], rest)
  {
    assert jobs + (data + rest.jobs) == (jobs + data) + rest.jobs;
    assert requests + ([req] + rest.requests) == (requests + [req]) + rest.requests;
  }

  /** One page of the loop, unfolded. */
  lemma PagesStep(query: string, location: string, fetch: Request -> PageResponse, page: nat, numPages: int)
    requires page <= numPages
    ensures var req := Params(query, location, page);
      && (!Fetched(query, location, fetch, page) ==> PagesFrom(query, location, fetch, page, numPages) == SearchRun([], [req]))
      && (Fetched(query, location, fetch, page) ==>
          var rest := PagesFrom(query, location, fetch, page + 1, numPages);
          PagesFrom(query, location, fetch, page, numPages) == SearchRun(fetch(req).data + rest.jobs, [req] + rest.requests))
  {
  }

  lemma AfterLast(jobs: seq<Job>, requests: seq<Request>, req: Request)
    ensures After(jobs, requests, SearchRun([], [req])) == After(jobs, requests + [req], SearchRun([], []))
  {
    assert jobs + [] == jobs;
    assert requests + [req] + [] == requests + [req];
  }

  /** `get_job_descriptions`: the non-empty descriptions of the postings found. */
  method GetJobDescriptions(query: string, location: string, numPages: int, fetch: Request -> PageResponse)
    returns (descriptions: seq<string>)
    ensures descriptions == Descriptions(Search(query, location, fetch, numPages).jobs)
  {
    var jobs, _ := SearchJobs(query, location, numPages, fetch);
    descriptions := CollectDescriptions(jobs);
  }
}
