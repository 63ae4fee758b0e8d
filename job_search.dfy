/**
 * The two-provider job search: JSearch first, SerpAPI when JSearch finds
 * nothing or fails, and the provider that answered remembered in
 * `last_provider`. Each provider's call is an oracle from (query, location,
 * num_pages) to what awaiting it yields.
 */
module JobSearch {
  import opened Wrappers
  import opened Jobs
  import SerpApi

  const JSEARCH: string := "jsearch"
  const SERPAPI: string := "serpapi"

  /** What a provider call yields: postings, an `httpx.HTTPStatusError` with its status, or another exception. */
  datatype ProviderOutcome = Found(jobs: seq<Job>) | HttpStatusError(status: int) | Raised(message: string)

  /** The postings returned and the provider recorded. */
  datatype Choice = Choice(jobs: seq<Job>, provider: Option<string>)

  /** The fallback decision: the first provider with postings wins; every failure, a 429 included, moves on. */
  function Fallback(jsearch: ProviderOutcome, serpapi: ProviderOutcome): (c: Choice)
    ensures c.provider == Some(JSEARCH) <==> jsearch.Found? && jsearch.jobs != []
    ensures c.provider == Some(SERPAPI) <==> !(jsearch.Found? && jsearch.jobs != []) && serpapi.Found? && serpapi.jobs != []
    ensures c.provider == None <==> c.jobs == []
    ensures c.provider == Some(JSEARCH) ==> c.jobs == jsearch.jobs
    ensures c.provider == Some(SERPAPI) ==> c.jobs == serpapi.jobs
  {
    if jsearch.Found? && jsearch.jobs != [] then Choice(jsearch.jobs, Some(JSEARCH))
    else if serpapi.Found? && serpapi.jobs != [] then Choice(serpapi.jobs, Some(SERPAPI))
    else Choice([], None)
  }

  /** A rate-limited JSearch is handled exactly like any other JSearch failure or an empty answer. */
  lemma RateLimitIsOrdinaryFailure(serpapi: ProviderOutcome, status: int, message: string)
    ensures Fallback(HttpStatusError(429), serpapi) == Fallback(HttpStatusError(status), serpapi)
    ensures Fallback(HttpStatusError(429), serpapi) == Fallback(Raised(message), serpapi)
    ensures Fallback(HttpStatusError(429), serpapi) == Fallback(Found([]), serpapi)
  {
  }

  /** When JSearch has postings, SerpAPI's outcome plays no part. */
  lemma JSearchFirst(jobs: seq<Job>, serpapi1: ProviderOutcome, serpapi2: ProviderOutcome)
    requires jobs != []
    ensures Fallback(Found(jobs), serpapi1) == Fallback(Found(jobs), serpapi2) == Choice(jobs, Some(JSEARCH))
  {
  }

  /**
   * As written, the orchestrator awaits the JSearch client's `search_jobs`,
   * which is synchronous: its postings arrive as a list, and awaiting a list
   * raises `TypeError`. Exceptions raised inside the call propagate unchanged.
   */
  function AwaitSync(outcome: ProviderOutcome): ProviderOutcome {
    match outcome
    case Found(_) => Raised("object list can't be used in 'await' expression")
    case _ => outcome
  }

  /** The fallback as the code behaves: JSearch's answer passes through `AwaitSync` first. */
  function FallbackAsWritten(jsearch: ProviderOutcome, serpapi: ProviderOutcome): (c: Choice)
    ensures c.provider != Some(JSEARCH)
  {
    Fallback(AwaitSync(jsearch), serpapi)
  }

  /**
   * The discrepancy: JSearch finds a posting and SerpAPI finds none; as
   * written the search returns nothing and no provider, where JSearch's
   * posting was meant to be returned.
   */
  lemma AsWrittenDiscardsJSearch(job: Job)
    ensures FallbackAsWritten(Found([job]), Found([])) == Choice([], None)
    ensures Fallback(Found([job]), Found([])) == Choice([job], Some(JSEARCH))
  {
  }

  /**
   * What the SerpAPI fallback yields as the orchestrator calls it: its
   * `num_pages` lands in the client's `num_results` position, the language
   * is the default "en", and the client's `search_jobs` answers with a list
   * whatever happens.
   */
  function SerpApiFallback(apiKey: Option<string>, query: string, location: string, numPages: int,
                           fetch: SerpApi.SerpRequest -> SerpApi.SerpResponse, nfd: string -> string, isMn: char -> bool)
    : ProviderOutcome
  {
    Found(SerpApi.Search(apiKey, query, location, numPages, "en", fetch, nfd, isMn).jobs)
  }

  /**
   * The consequence of passing `num_pages` as `num_results`: whenever SerpAPI
   * answers, the search returns at most `num_pages` postings (5 for
   * `get_job_descriptions`, 1 for `search_jobs`), and, as written, where
   * JSearch is never used, that bound holds for every search.
   */
  lemma SerpApiFallbackCapped(jsearch: ProviderOutcome, apiKey: Option<string>, query: string, location: string,
                              numPages: int, fetch: SerpApi.SerpRequest -> SerpApi.SerpResponse,
                              nfd: string -> string, isMn: char -> bool)
    ensures var c := Fallback(jsearch, SerpApiFallback(apiKey, query, location, numPages, fetch, nfd, isMn));
      c.provider == Some(SERPAPI) ==> |c.jobs| <= (if numPages < 0 then 0 else numPages)
    ensures |FallbackAsWritten(jsearch, SerpApiFallback(apiKey, query, location, numPages, fetch, nfd, isMn)).jobs|
      <= (if numPages < 0 then 0 else numPages)
  {
    SerpApi.SearchFacts(apiKey, query, location, numPages, "en", fetch, nfd, isMn);
  }

  /** The orchestrator, holding the provider of the last search. */
  class JobSearchService {
    var lastProvider: Option<string>

    /** The field only ever holds one of the two provider names, or nothing. */
    predicate Valid()
      reads this
    {
      lastProvider == None || lastProvider == Some(JSEARCH) || lastProvider == Some(SERPAPI)
    }

    /** No search yet: no provider. */
    constructor()
      ensures lastProvider == None
      ensures Valid()
    {
      lastProvider := None;
    }

    /**
     * `search_jobs`, with JSearch's answer taken as awaited: the chosen
     * postings are returned and their provider recorded. SerpAPI is given
     * `num_pages` in its `num_results` position, as the call passes it.
     */
    method SearchJobs(query: string, location: string, numPages: int,
                      jsearch: (string, string, int) -> ProviderOutcome, serpapi: (string, string, int) -> ProviderOutcome)
      returns (jobs: seq<Job>)
      modifies this
      ensures Choice(jobs, lastProvider) == Fallback(jsearch(query, location, numPages), serpapi(query, location, numPages))
      ensures Valid()
    {
      match jsearch(query, location, numPages) {
        case Found(found) =>
          if found != [] {
            lastProvider := Some(JSEARCH);
            return found;
          }
        case HttpStatusError(status) =>
        case Raised(_) =>
      }
      match serpapi(query, location, numPages) {
        case Found(found) =>
          if found != [] {
            lastProvider := Some(SERPAPI);
            return found;
          }
        case HttpStatusError(_) =>
        case Raised(_) =>
      }
      lastProvider := None;
      return [];
    }

    /** `get_job_descriptions`: the non-empty descriptions of the postings the fallback chose. */
    method GetJobDescriptions(query: string, location: string, numPages: int,
                              jsearch: (string, string, int) -> ProviderOutcome, serpapi: (string, string, int) -> ProviderOutcome)
      returns (descriptions: seq<string>)
      modifies this
      ensures descriptions == Descriptions(Fallback(jsearch(query, location, numPages), serpapi(query, location, numPages)).jobs)
      ensures lastProvider == Fallback(jsearch(query, location, numPages), serpapi(query, location, numPages)).provider
      ensures Valid()
    {
      var jobs := SearchJobs(query, location, numPages, jsearch, serpapi);
      descriptions := CollectDescriptions(jobs);
    }

    /** `get_last_provider`. */
    function GetLastProvider(): (p: Option<string>)
      requires Valid()
      reads this
      ensures p == None || p == Some(JSEARCH) || p == Some(SERPAPI)
      ensures p == lastProvider
    {
      lastProvider
    }
  }
}
