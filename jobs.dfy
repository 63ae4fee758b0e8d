/**
 * Job postings as the search providers return them, the description filter
 * every service applies before analysis, and the accent-stripping text
 * normaliser of the second-generation providers.
 */
module Jobs {
  import opened Seqs

  /** A posting: a dictionary of string fields (fields of other types are not modelled). */
  type Job = map<string, string>

  /** `job.get("job_description", "")`. */
  function Description(job: Job): string {
    if "job_description" in job then job["job_description"] else ""
  }

  /** Every posting's description, missing ones as "", in posting order. */
  function AllDescriptions(jobs: seq<Job>): (r: seq<string>)
    ensures |r| == |jobs|
    ensures forall i :: 0 <= i < |r| ==> r[i] == Description(jobs[i])
  {
    seq(|jobs|, i requires 0 <= i < |jobs| => Description(jobs[i]))
  }

  /** The non-empty descriptions, in posting order. */
  function Descriptions(jobs: seq<Job>): (r: seq<string>)
    ensures |r| <= |jobs|
    ensures forall i :: 0 <= i < |r| ==> r[i] != []
    decreases |jobs|
  {
    if jobs == [] then []
    else
      var d := Description(jobs[|jobs| - 1]);
      Descriptions(jobs[..|jobs| - 1]) + (if d != [] then [d] else [])
  }

  predicate NonEmpty(d: string) {
    d != []
  }

  /**
   * The kept descriptions are exactly the non-empty ones of all postings, in
   * order: a description is dropped only when it is empty or missing.
   */
  lemma {:induction false} DescriptionsFilter(jobs: seq<Job>)
    ensures Descriptions(jobs) == Filter(AllDescriptions(jobs), NonEmpty)
    decreases |jobs|
  {
    if jobs != [] {
      var init, last := jobs[..|jobs| - 1], Description(jobs[|jobs| - 1]);
      DescriptionsFilter(init);
      AllDescriptionsSnoc(jobs);
      FilterAppend(AllDescriptions(init), [last], NonEmpty);
      FilterSingleton(last, NonEmpty);
    }
  }

  lemma AllDescriptionsSnoc(jobs: seq<Job>)
    requires jobs != []
    ensures AllDescriptions(jobs) == AllDescriptions(jobs[..|jobs| - 1]) + [Description(jobs[|jobs| - 1])]
  {
  }

  /** Descriptions keep posting order, and every non-empty description is kept. */
  lemma DescriptionsInOrder(jobs: seq<Job>)
    ensures IsSubseq(Descriptions(jobs), AllDescriptions(jobs))
    ensures forall i :: 0 <= i < |jobs| && Description(jobs[i]) != [] ==> Description(jobs[i]) in Descriptions(jobs)
  {
    DescriptionsFilter(jobs);
    FilterIsSubseq(AllDescriptions(jobs), NonEmpty);
    assert forall i :: 0 <= i < |jobs| ==> AllDescriptions(jobs)[i] == Description(jobs[i]);
  }

  /** The `for job in jobs` loop of every `get_job_descriptions`. */
  method CollectDescriptions(jobs: seq<Job>) returns (descriptions: seq<string>)
    ensures descriptions == Descriptions(jobs)
  {
    descriptions := [];
    for i := 0 to |jobs|
      invariant descriptions == Descriptions(jobs[..i])
    {
      assert jobs[..i + 1][..i] == jobs[..i];
      var description := Description(jobs[i]);
      if description != [] {
        descriptions := descriptions + [description];
      }
    }
    assert jobs[..|jobs|] == jobs;
  }

  /**
   * `normalize_text`: decompose (NFD), then drop every nonspacing mark. The
   * Unicode tables are parameters: `nfd` is the decomposition and `isMn` the
   * test for general category "Mn".
   */
  function NormalizeText(text: string, nfd: string -> string, isMn: char -> bool): (r: string)
    ensures forall i :: 0 <= i < |r| ==> !isMn(r[i])
    ensures |r| <= |nfd(text)|
  {
    Filter(nfd(text), (c: char) => !isMn(c))
  }

  /** Normalising keeps the decomposed characters that are not marks, in order, and drops only marks. */
  lemma NormalizeKeepsOthers(text: string, nfd: string -> string, isMn: char -> bool)
    ensures IsSubseq(NormalizeText(text, nfd, isMn), nfd(text))
    ensures forall i :: 0 <= i < |nfd(text)| && !isMn(nfd(text)[i]) ==> nfd(text)[i] in NormalizeText(text, nfd, isMn)
  {
    FilterIsSubseq(nfd(text), (c: char) => !isMn(c));
  }

  /** A text whose decomposition holds no mark comes out as that decomposition. */
  lemma {:induction false} NormalizeWithoutMarks(s: string, isMn: char -> bool)
    requires forall i :: 0 <= i < |s| ==> !isMn(s[i])
    ensures Filter(s, (c: char) => !isMn(c)) == s
    decreases |s|
  {
    if s != [] {
      NormalizeWithoutMarks(s[..|s| - 1], isMn);
    }
  }

  /** Normalising twice changes nothing more once the normal form is its own decomposition. */
  lemma NormalizeIdempotent(text: string, nfd: string -> string, isMn: char -> bool)
    requires nfd(NormalizeText(text, nfd, isMn)) == NormalizeText(text, nfd, isMn)
    ensures NormalizeText(NormalizeText(text, nfd, isMn), nfd, isMn) == NormalizeText(text, nfd, isMn)
  {
    NormalizeWithoutMarks(NormalizeText(text, nfd, isMn), isMn);
  }
}
