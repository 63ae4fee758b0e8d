/**
 * The second-generation JSearch client: the same page loop as the first,
 * run on the query and location after accent stripping.
 */
module MarketJSearch {
  import opened Jobs
  import JSearch

  /** `search_jobs`: both inputs are normalised before any request is built. */
  function Search(query: string, location: string, fetch: JSearch.Request -> JSearch.PageResponse, numPages: int,
                  nfd: string -> string, isMn: char -> bool): JSearch.SearchRun
  {
    JSearch.Search(NormalizeText(query, nfd, isMn), NormalizeText(location, nfd, isMn), fetch, numPages)
  }

  /**
   * `search_jobs`: every request carries the normalised query and location,
   * pages ascend from 1, and there are at most `num_pages` requests.
   */
  method SearchJobs(query: string, location: string, numPages: int, fetch: JSearch.Request -> JSearch.PageResponse,
                    nfd: string -> string, isMn: char -> bool)
    returns (jobs: seq<Job>, requests: seq<JSearch.Request>)
    ensures JSearch.SearchRun(jobs, requests) == Search(query, location, fetch, numPages, nfd, isMn)
    ensures |requests| <= (if numPages < 1 then 0 else numPages)
    ensures forall i :: 0 <= i < |requests| ==>
      requests[i] == JSearch.Params(NormalizeText(query, nfd, isMn), NormalizeText(location, nfd, isMn), i + 1)
    ensures forall i, k :: 0 <= i < |requests| && 0 <= k < |requests[i].query| ==>
      requests[i].query[k] in " in" || !isMn(requests[i].query[k])
  {
    var q := NormalizeText(query, nfd, isMn);
    var loc := NormalizeText(location, nfd, isMn);
    jobs, requests := JSearch.SearchJobs(q, loc, numPages, fetch);
    forall i, k | 0 <= i < |requests| && 0 <= k < |requests[i].query|
      ensures requests[i].query[k] in " in" || !isMn(requests[i].query[k])
    {
      var qp := requests[i].query;
      if loc != [] {
        assert qp == q + " in " + loc;
        if k < |q| {
          assert qp[k] == q[k];
        } else if k >= |q| + 4 {
          assert qp[k] == loc[k - |q| - 4];
        } else {
          assert qp[k] == " in "[k - |q|];
        }
      } else {
        assert qp == q;
      }
    }
  }

  /** `get_job_descriptions`: the non-empty descriptions of the postings found. */
  method GetJobDescriptions(query: string, location: string, numPages: int, fetch: JSearch.Request -> JSearch.PageResponse,
                            nfd: string -> string, isMn: char -> bool)
    returns (descriptions: seq<string>)
    ensures descriptions == Descriptions(Search(query, location, fetch, numPages, nfd, isMn).jobs)
  {
    var jobs, _ := SearchJobs(query, location, numPages, fetch, nfd, isMn);
    descriptions := CollectDescriptions(jobs);
  }
}
