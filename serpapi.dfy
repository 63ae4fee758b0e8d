/**
 * The SerpAPI (Google Jobs) fallback client: a token-driven page loop that
 * collects mapped postings until it has `num_results` of them, a cap on the
 * result, and a single retry in English when a French search finds nothing.
 * The search call is the oracle `fetch`, from the request parameters to the
 * returned dictionary or the exception raised.
 */
module SerpApi {
  import opened Wrappers
  import opened Seqs
  import opened Strings
  import opened Jobs

  /** The search parameters; `nextPageToken` is absent on the first request. */
  datatype SerpRequest = SerpRequest(apiKey: string, engine: string, q: string, location: string, gl: string, hl: string,
                                     nextPageToken: Option<string>)

  /**
   * One answer: the "error" entry if present, `jobs_results` ([] when absent),
   * and `serpapi_pagination.next_page_token` if present; or the exception raised.
   */
  datatype SerpResponse =
    | SerpData(error: Option<string>, jobsResults: seq<Job>, nextPageToken: Option<string>)
    | SearchRaised(message: string)

  const ENGINE: string := "google_jobs"
  const COUNTRY_PARAM: string := "ca"
  const CANADA: string := "Canada"
  const COUNTRY_CODE: string := "CA"
  const TITLE: string := "job_title"
  const DESCRIPTION: string := "job_description"
  const EMPLOYER: string := "employer_name"
  const CITY: string := "job_city"
  const COUNTRY: string := "job_country"
  const POSTING_FIELDS: set<string> := {TITLE, DESCRIPTION, EMPLOYER, CITY, COUNTRY}

  /** A posting in the shape this client returns: exactly the five fields, country "CA". */
  predicate IsMapped(job: Job) {
    job.Keys == POSTING_FIELDS && COUNTRY in job && job[COUNTRY] == COUNTRY_CODE
  }

  /** The postings collected and every request made, in order. */
  datatype SerpRun = SerpRun(jobs: seq<Job>, requests: seq<SerpRequest>)

  /** `job.get(key, "")`. */
  function Field(job: Job, key: string): string {
    if key in job then job[key] else ""
  }

  /** The five-field posting built from one Google Jobs result. */
  function MapJob(raw: Job): (job: Job)
    ensures IsMapped(job)
    ensures job[TITLE] == Field(raw, "title") && job[EMPLOYER] == Field(raw, "company_name") && job[CITY] == Field(raw, "location")
    ensures Description(job) == Field(raw, "description")
  {
    map[TITLE := Field(raw, "title"),
        DESCRIPTION := Field(raw, "description"),
        EMPLOYER := Field(raw, "company_name"),
        CITY := Field(raw, "location"),
        COUNTRY := COUNTRY_CODE]
  }

  /** Every result of a page, mapped, in order. */
  function MapJobs(raws: seq<Job>): (r: seq<Job>)
    ensures |r| == |raws|
    ensures forall i :: 0 <= i < |r| ==> r[i] == MapJob(raws[i])
  {
    seq(|raws|, i requires 0 <= i < |raws| => MapJob(raws[i]))
  }

  /** `location.split(",")[0].strip() if location else "Canada"`. */
  function City(location: string): (r: string)
    ensures location == [] ==> r == CANADA
    ensures location != [] ==> r == Strip(BeforeComma(location))
    ensures location != [] ==> ',' !in r
  {
    if location != [] then Strip(BeforeComma(location)) else CANADA
  }

  /** The first request of one language's loop. */
  function FirstRequest(apiKey: string, query: string, city: string, language: string): SerpRequest {
    SerpRequest(apiKey, ENGINE, query, city, COUNTRY_PARAM, language, None)
  }

  /** The `while len(all_jobs) < num_results` loop from request `req`, with `acc` already collected. */
  function LoopFrom(req: SerpRequest, fetch: SerpRequest -> SerpResponse, acc: seq<Job>, numResults: int): SerpRun
    decreases numResults - |acc|
  {
    if |acc| >= numResults then SerpRun(acc, [])
    else
      match fetch(req)
      case SearchRaised(_) => SerpRun(acc, [req])
      case SerpData(error, results, token) =>
        if error.Some? || results == [] then SerpRun(acc, [req])
        else
          var acc' := acc + MapJobs(results);
          if token.None? || token.value == [] then SerpRun(acc', [req])
          else
            var rest := LoopFrom(req.(nextPageToken := token), fetch, acc', numResults);
            SerpRun(rest.jobs, [req] + rest.requests)
  }

  /**
   * The loop keeps what it collected: the postings held when it stops, for
   * whatever reason, start with those collected before, and each request
   * after the first carries the token of the answer before it, with the
   * other parameters unchanged.
   */
  lemma {:induction false} LoopKeepsCollected(req: SerpRequest, fetch: SerpRequest -> SerpResponse, acc: seq<Job>, numResults: int)
    ensures var r := LoopFrom(req, fetch, acc, numResults);
      && acc <= r.jobs
      && (r.requests == [] || r.requests[0] == req)
      && forall i :: 0 <= i < |r.requests| - 1 ==>
           fetch(r.requests[i]).SerpData? && r.requests[i + 1] == r.requests[i].(nextPageToken := fetch(r.requests[i]).nextPageToken)
    decreases numResults - |acc|
  {
    if |acc| < numResults {
      match fetch(req)
      case SearchRaised(_) =>
      case SerpData(error, results, token) =>
        if !(error.Some? || results == []) {
          var acc' := acc + MapJobs(results);
          if !(token.None? || token.value == []) {
            var next := req.(nextPageToken := token);
            LoopKeepsCollected(next, fetch, acc', numResults);
            var rest := LoopFrom(next, fetch, acc', numResults);
            var r := LoopFrom(req, fetch, acc, numResults);
            assert r.requests == [req] + rest.requests;
            forall i | 1 <= i < |r.requests| - 1
              ensures fetch(r.requests[i]).SerpData?
                && r.requests[i + 1] == r.requests[i].(nextPageToken := fetch(r.requests[i]).nextPageToken)
            {
              assert r.requests[i] == rest.requests[i - 1] && r.requests[i + 1] == rest.requests[i];
            }
          }
        }
    }
  }

  /** Every posting the loop adds is a mapped Google Jobs result. */
  lemma {:induction false} LoopJobsMapped(req: SerpRequest, fetch: SerpRequest -> SerpResponse, acc: seq<Job>, numResults: int)
    requires forall job :: job in acc ==> IsMapped(job)
    ensures forall job :: job in LoopFrom(req, fetch, acc, numResults).jobs ==> IsMapped(job)
    decreases numResults - |acc|
  {
    if |acc| < numResults {
      match fetch(req)
      case SearchRaised(_) =>
      case SerpData(error, results, token) =>
        if !(error.Some? || results == []) {
          var acc' := acc + MapJobs(results);
          assert forall job :: job in acc' ==> IsMapped(job);
          if !(token.None? || token.value == []) {
            var next := req.(nextPageToken := token);
            LoopJobsMapped(next, fetch, acc', numResults);
            var rest := LoopFrom(next, fetch, acc', numResults);
            assert LoopFrom(req, fetch, acc, numResults) == SerpRun(rest.jobs, [req] + rest.requests);
          } else {
            assert LoopFrom(req, fetch, acc, numResults).jobs == acc';
          }
        }
    }
  }

  /** One language's search: normalised query, normalised city, the loop from an empty collection. */
  function Attempt(apiKey: string, query: string, location: string, numResults: int, language: string,
                   fetch: SerpRequest -> SerpResponse, nfd: string -> string, isMn: char -> bool): SerpRun
  {
    var req := FirstRequest(apiKey, NormalizeText(query, nfd, isMn), NormalizeText(City(location), nfd, isMn), language);
    LoopFrom(req, fetch, [], numResults)
  }

  /** `search_jobs`: no key, no request; a French search that finds nothing is run once more in English. */
  function Search(apiKey: Option<string>, query: string, location: string, numResults: int, language: string,
                  fetch: SerpRequest -> SerpResponse, nfd: string -> string, isMn: char -> bool): SerpRun
    decreases if language == "fr" then 1 else 0
  {
    if apiKey.None? || apiKey.value == [] then SerpRun([], [])
    else
      var run := Attempt(apiKey.value, query, location, numResults, language, fetch, nfd, isMn);
      if run.jobs == [] && language == "fr" then
        var again := Search(apiKey, NormalizeText(query, nfd, isMn), location, numResults, "en", fetch, nfd, isMn);
        SerpRun(again.jobs, run.requests + again.requests)
      else SerpRun(Take(run.jobs, numResults), run.requests)
  }

  /** Without an API key nothing is requested and nothing is found. */
  lemma NoKeyNoRequest(query: string, location: string, numResults: int, language: string,
                       fetch: SerpRequest -> SerpResponse, nfd: string -> string, isMn: char -> bool)
    ensures Search(None, query, location, numResults, language, fetch, nfd, isMn) == SerpRun([], [])
    ensures Search(Some(""), query, location, numResults, language, fetch, nfd, isMn) == SerpRun([], [])
  {
  }

  /**
   * Never more than `num_results` postings, each the five mapped fields with
   * country "CA"; a search that is not in French, or a French one that finds
   * postings, runs its loop once, never retries, and returns the capped
   * result of that loop; a non-French search asks only in its own language.
   */
  lemma SearchFacts(apiKey: Option<string>, query: string, location: string, numResults: int, language: string,
                    fetch: SerpRequest -> SerpResponse, nfd: string -> string, isMn: char -> bool)
    ensures var r := Search(apiKey, query, location, numResults, language, fetch, nfd, isMn);
      && |r.jobs| <= (if numResults < 0 then 0 else numResults)
      && (forall job :: job in r.jobs ==> IsMapped(job))
      && (language != "fr" ==> forall i :: 0 <= i < |r.requests| ==> r.requests[i].hl == language)
    ensures apiKey.Some? && apiKey.value != [] ==>
      var run := Attempt(apiKey.value, query, location, numResults, language, fetch, nfd, isMn);
      (language != "fr" || run.jobs != []) ==>
        Search(apiKey, query, location, numResults, language, fetch, nfd, isMn) == SerpRun(Take(run.jobs, numResults), run.requests)
    decreases if language == "fr" then 1 else 0
  {
    if apiKey.Some? && apiKey.value != [] {
      var req := FirstRequest(apiKey.value, NormalizeText(query, nfd, isMn), NormalizeText(City(location), nfd, isMn), language);
      LoopJobsMapped(req, fetch, [], numResults);
      LoopSameLanguage(req, fetch, [], numResults);
      var run := Attempt(apiKey.value, query, location, numResults, language, fetch, nfd, isMn);
      assert run == LoopFrom(req, fetch, [], numResults);
      if run.jobs == [] && language == "fr" {
        SearchFacts(apiKey, NormalizeText(query, nfd, isMn), location, numResults, "en", fetch, nfd, isMn);
        var again := Search(apiKey, NormalizeText(query, nfd, isMn), location, numResults, "en", fetch, nfd, isMn);
        assert Search(apiKey, query, location, numResults, language, fetch, nfd, isMn).jobs == again.jobs;
      } else {
        var taken := Take(run.jobs, numResults);
        assert Search(apiKey, query, location, numResults, language, fetch, nfd, isMn) == SerpRun(taken, run.requests);
        forall job | job in taken
          ensures IsMapped(job)
        {
          var i :| 0 <= i < |taken| && taken[i] == job;
          assert job == run.jobs[i];
        }
      }
    }
  }

  /** Every request of one loop is in the loop's language. */
  lemma {:induction false} LoopSameLanguage(req: SerpRequest, fetch: SerpRequest -> SerpResponse, acc: seq<Job>, numResults: int)
    ensures forall i :: 0 <= i < |LoopFrom(req, fetch, acc, numResults).requests| ==>
      LoopFrom(req, fetch, acc, numResults).requests[i].hl == req.hl
    decreases numResults - |acc|
  {
    if |acc| < numResults {
      match fetch(req)
      case SearchRaised(_) =>
      case SerpData(error, results, token) =>
        if !(error.Some? || results == []) && !(token.None? || token.value == []) {
          LoopSameLanguage(req.(nextPageToken := token), fetch, acc + MapJobs(results), numResults);
        }
    }
  }

  /**
   * A French search whose own loop collects nothing returns exactly what the
   * English search on the already normalised query returns, after the French
   * requests.
   */
  lemma FrenchFallsBackOnce(apiKey: string, query: string, location: string, numResults: int,
                            fetch: SerpRequest -> SerpResponse, nfd: string -> string, isMn: char -> bool)
    requires apiKey != []
    requires Attempt(apiKey, query, location, numResults, "fr", fetch, nfd, isMn).jobs == []
    ensures var en := Attempt(apiKey, NormalizeText(query, nfd, isMn), location, numResults, "en", fetch, nfd, isMn);
      Search(Some(apiKey), query, location, numResults, "fr", fetch, nfd, isMn)
      == SerpRun(Take(en.jobs, numResults),
                 Attempt(apiKey, query, location, numResults, "fr", fetch, nfd, isMn).requests + en.requests)
  {
  }

  /** `search_jobs`. */
  method SearchJobs(apiKey: Option<string>, query: string, location: string, numResults: int, language: string,
                    fetch: SerpRequest -> SerpResponse, nfd: string -> string, isMn: char -> bool)
    returns (jobs: seq<Job>, requests: seq<SerpRequest>)
    ensures SerpRun(jobs, requests) == Search(apiKey, query, location, numResults, language, fetch, nfd, isMn)
    ensures |jobs| <= (if numResults < 0 then 0 else numResults)
    decreases if language == "fr" then 1 else 0
  {
    SearchFacts(apiKey, query, location, numResults, language, fetch, nfd, isMn);
    if apiKey.None? || apiKey.value == [] {
      return [], [];
    }
    var q := NormalizeText(query, nfd, isMn);
    var city := NormalizeText(City(location), nfd, isMn);
    var allJobs;
    allJobs, requests := PageLoop(FirstRequest(apiKey.value, q, city, language), fetch, numResults);
    if allJobs == [] && language == "fr" {
      var moreJobs, moreRequests := SearchJobs(apiKey, q, location, numResults, "en", fetch, nfd, isMn);
      return moreJobs, requests + moreRequests;
    }
    jobs := Take(allJobs, numResults);
  }

  /** The `while len(all_jobs) < num_results` loop of `search_jobs`, from its first request. */
  method PageLoop(first: SerpRequest, fetch: SerpRequest -> SerpResponse, numResults: int)
    returns (allJobs: seq<Job>, requests: seq<SerpRequest>)
    ensures SerpRun(allJobs, requests) == LoopFrom(first, fetch, [], numResults)
  {
    allJobs, requests := [], [];
    var params := first;
    ghost var run := LoopFrom(first, fetch, [], numResults);
    while |allJobs| < numResults
      invariant run == Joined(requests, LoopFrom(params, fetch, allJobs, numResults))
      decreases numResults - |allJobs|
    {
      var data := fetch(params);
      LoopStep(params, fetch, allJobs, numResults);
      ghost var before := requests;
      requests := requests + [params];
      if data.SearchRaised? || data.error.Some? || data.jobsResults == [] {
        JoinedSnoc(before, params, SerpRun(allJobs, []));
        return;
      }
      var mapped := AppendMapped(allJobs, data.jobsResults);
      var nextPageToken := data.nextPageToken;
      if nextPageToken.None? || nextPageToken.value == [] {
        allJobs := mapped;
        JoinedSnoc(before, params, SerpRun(allJobs, []));
        return;
      }
      JoinedSnoc(before, params, LoopFrom(params.(nextPageToken := nextPageToken), fetch, mapped, numResults));
      allJobs := mapped;
      params := params.(nextPageToken := nextPageToken);
    }
    assert requests + [] == requests;
  }

  /** The run of a loop whose earlier requests were `requests`. */
  function Joined(requests: seq<SerpRequest>, rest: SerpRun): SerpRun {
    SerpRun(rest.jobs, requests + rest.requests)
  }

  lemma JoinedSnoc(requests: seq<SerpRequest>, req: SerpRequest, rest: SerpRun)
    ensures Joined(requests, SerpRun(rest.jobs, [req] + rest.requests)) == Joined(requests + [req], rest)
  {
    assert requests + ([req] + rest.requests) == (requests + [req]) + rest.requests;
  }

  /** One page of the loop, unfolded. */
  lemma LoopStep(req: SerpRequest, fetch: SerpRequest -> SerpResponse, acc: seq<Job>, numResults: int)
    requires |acc| < numResults
    ensures var data := fetch(req);
      && (data.SearchRaised? || data.error.Some? || data.jobsResults == [] ==>
          LoopFrom(req, fetch, acc, numResults) == SerpRun(acc, [req]))
      && (!(data.SearchRaised? || data.error.Some? || data.jobsResults == []) ==>
          var acc' := acc + MapJobs(data.jobsResults);
          if data.nextPageToken.None? || data.nextPageToken.value == [] then
            LoopFrom(req, fetch, acc, numResults) == SerpRun(acc', [req])
          else
            var rest := LoopFrom(req.(nextPageToken := data.nextPageToken), fetch, acc', numResults);
            LoopFrom(req, fetch, acc, numResults) == SerpRun(rest.jobs, [req] + rest.requests))
  {
  }

  /** The `for job in jobs: all_jobs.append({...})` loop. */
  method AppendMapped(allJobs: seq<Job>, results: seq<Job>) returns (r: seq<Job>)
    ensures r == allJobs + MapJobs(results)
  {
    r := allJobs;
    for i := 0 to |results|
      invariant r == allJobs + MapJobs(results[..i])
    {
      assert MapJobs(results[..i + 1]) == MapJobs(results[..i]) + [MapJob(results[i])];
      r := r + [MapJob(results[i])];
    }
    assert results[..|results|] == results;
  }

  /** `get_job_descriptions`: `num_pages * 10` results in English, non-empty descriptions only. */
  method GetJobDescriptions(apiKey: Option<string>, query: string, location: string, numPages: int,
                            fetch: SerpRequest -> SerpResponse, nfd: string -> string, isMn: char -> bool)
    returns (descriptions: seq<string>)
    ensures descriptions == Descriptions(Search(apiKey, query, location, numPages * 10, "en", fetch, nfd, isMn).jobs)
    ensures |descriptions| <= (if numPages < 0 then 0 else numPages * 10)
  {
    var jobs, _ := SearchJobs(apiKey, query, location, numPages * 10, "en", fetch, nfd, isMn);
    descriptions := CollectDescriptions(jobs);
  }
}
