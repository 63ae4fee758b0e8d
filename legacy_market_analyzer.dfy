/**
 * The first market analyzer: skills are found by the vocabulary matcher,
 * counted, and the `top_n` most common are reported without any threshold
 * (`analyze_market`), or the top 50 are grouped by category in the order the
 * categories first appear (`get_skills_by_category`).
 */
module LegacyMarketAnalyzer {
  import opened Wrappers
  import opened Seqs
  import opened Vocabulary
  import opened Counting
  import Jobs
  import JSearch
  import SkillsMatcher

  const UNKNOWN: string := "unknown"
  /** `get_skills_by_category` groups the top 50 skills. */
  const GROUPED_TOP_N: int := 50

  /** The answer of `get_skills_by_category`: the zero-job analysis itself, or the grouped skills. */
  datatype Grouping =
    | NoJobsAnalysis(analysis: Analysis)
    | ByCategory(query: string, location: string, totalJobs: nat, skillsByCategory: seq<(string, seq<CategorySkill>)>)

  // ---------------------------------------------------------------- extraction

  /** What `extract_skills_with_category` returns for `text` with mapping `m`. */
  function Extracted(m: map<string, SkillInfo>, text: string, detect: string -> Option<string>,
                     matches: (string, string) -> seq<string>): (r: seq<SkillInfo>)
    ensures Distinct(Names(r))
  {
    if text == [] then []
    else SkillsMatcher.FirstByName(SkillsMatcher.Recognized(m, matches(SkillsMatcher.DetectLanguage(text, detect), text)))
  }

  function ExtractedAll(m: map<string, SkillInfo>, descs: seq<string>, detect: string -> Option<string>,
                        matches: (string, string) -> seq<string>): (r: seq<seq<SkillInfo>>)
    ensures |r| == |descs|
    ensures forall i :: 0 <= i < |r| ==> r[i] == Extracted(m, descs[i], detect, matches)
  {
    seq(|descs|, i requires 0 <= i < |descs| => Extracted(m, descs[i], detect, matches))
  }

  // ---------------------------------------------------------------- top skills

  /** The `top_skills` entry for `name`; a name without a recorded category would be `"unknown"`. */
  function Entry(all: seq<string>, cats: map<string, string>, total: nat, name: string): TopSkill
    requires total > 0
  {
    TopSkill(name, CategoryOr(cats, name, UNKNOWN), Count(all, name), Tenths(Count(all, name), total))
  }

  function Entries(ranked: seq<string>, all: seq<string>, cats: map<string, string>, total: nat): (r: seq<TopSkill>)
    requires total > 0
    ensures |r| == |ranked|
    ensures forall i :: 0 <= i < |r| ==> r[i] == Entry(all, cats, total, ranked[i])
  {
    seq(|ranked|, i requires 0 <= i < |ranked| => Entry(all, cats, total, ranked[i]))
  }

  /** `most_common(top_n)` of the flattened names, each with its count, percentage and category. */
  function TopSkills(results: seq<seq<SkillInfo>>, total: nat, topN: int): seq<TopSkill>
    requires total > 0
  {
    var all := Flatten(results);
    Entries(Take(MostCommon(all), topN), all, FirstCategories(Concat(results)), total)
  }

  /** The loop over `most_common(top_n)`. */
  method BuildTopSkills(ranked: seq<string>, all: seq<string>, cats: map<string, string>, total: nat)
    returns (top: seq<TopSkill>)
    requires total > 0
    ensures top == Entries(ranked, all, cats, total)
  {
    top := [];
    var i := 0;
    while i < |ranked|
      invariant 0 <= i <= |ranked|
      invariant top == Entries(ranked[..i], all, cats, total)
    {
      var name := ranked[i];
      var count := Count(all, name);
      top := top + [TopSkill(name, CategoryOr(cats, name, UNKNOWN), count, Tenths(count, total))];
      i := i + 1;
    }
    assert ranked[..i] == ranked;
  }

  /**
   * `top_skills` holds `min(top_n, distinct names)` entries (none for
   * `top_n <= 0`) in `most_common` order, each with its occurrence count and
   * percentage, and the category of the name's first extraction: `"unknown"`
   * is never used.
   */
  lemma TopSkillsFacts(results: seq<seq<SkillInfo>>, total: nat, topN: int)
    requires total > 0
    ensures var all := Flatten(results);
      var r := TopSkills(results, total, topN);
      && |r| == (if topN <= 0 then 0 else if topN < |DistinctInOrder(all)| then topN else |DistinctInOrder(all)|)
      && TopNames(r) == Take(MostCommon(all), topN)
      && forall k :: 0 <= k < |r| ==>
        && r[k].count == Count(all, r[k].name)
        && r[k].percentage == Tenths(r[k].count, total)
        && r[k].name in FirstCategories(Concat(results))
        && r[k].category == FirstCategories(Concat(results))[r[k].name]
  {
    var all := Flatten(results);
    var r := TopSkills(results, total, topN);
    var ranked := Take(MostCommon(all), topN);
    assert |MostCommon(all)| == |DistinctInOrder(all)| by {
      assert |multiset(MostCommon(all))| == |multiset(DistinctInOrder(all))|;
    }
    MostCommonOrder(all);
    FlattenedHaveCategories(results);
    forall k | 0 <= k < |r|
      ensures r[k].name in FirstCategories(Concat(results))
    {
      assert r[k].name == ranked[k] == MostCommon(all)[k];
    }
  }

  /**
   * The matcher reports a name at most once per posting, so a count never
   * exceeds the number of postings and no percentage exceeds 100.0 %.
   */
  lemma PercentAtMostHundred(m: map<string, SkillInfo>, descs: seq<string>, detect: string -> Option<string>,
                             matches: (string, string) -> seq<string>, topN: int)
    requires descs != []
    ensures var r := TopSkills(ExtractedAll(m, descs, detect, matches), |descs|, topN);
      forall k :: 0 <= k < |r| ==> r[k].count <= |descs| && r[k].percentage <= 1000
  {
    var results := ExtractedAll(m, descs, detect, matches);
    var r := TopSkills(results, |descs|, topN);
    forall k | 0 <= k < |r| ensures r[k].count <= |descs| && r[k].percentage <= 1000 {
      CountAtMostPostings(results, r[k].name);
      TenthsAtMostHundred(r[k].count, |descs|);
    }
  }

  // ---------------------------------------------------------------- grouping

  function Categories(tops: seq<TopSkill>): (r: seq<string>)
    ensures |r| == |tops|
    ensures forall i :: 0 <= i < |r| ==> r[i] == tops[i].category
  {
    seq(|tops|, i requires 0 <= i < |tops| => tops[i].category)
  }

  /** The grouped form of a top skill: its category dropped. */
  function Strip(t: TopSkill): CategorySkill {
    CategorySkill(t.name, t.count, t.percentage)
  }

  /** The top skills of `category`, in `top_skills` order. */
  function OfCategory(tops: seq<TopSkill>, category: string): (r: seq<TopSkill>)
    ensures forall i :: 0 <= i < |r| ==> r[i] in tops && r[i].category == category
    decreases |tops|
  {
    if tops == [] then []
    else
      var init := tops[..|tops| - 1];
      var t := tops[|tops| - 1];
      assert tops == init + [t];
      OfCategory(init, category) + (if t.category == category then [t] else [])
  }

  function Strips(tops: seq<TopSkill>): (r: seq<CategorySkill>)
    ensures |r| == |tops|
    ensures forall i :: 0 <= i < |r| ==> r[i] == Strip(tops[i])
  {
    seq(|tops|, i requires 0 <= i < |tops| => Strip(tops[i]))
  }

  /** The entries `by_category[category]` collects, in `top_skills` order. */
  function InCategory(tops: seq<TopSkill>, category: string): seq<CategorySkill> {
    Strips(OfCategory(tops, category))
  }

  /** The dictionary `by_category`, in insertion order: the categories in order of first appearance. */
  function Grouped(tops: seq<TopSkill>): (r: seq<(string, seq<CategorySkill>)>)
    ensures |r| == |DistinctInOrder(Categories(tops))|
  {
    var keys := DistinctInOrder(Categories(tops));
    seq(|keys|, i requires 0 <= i < |keys| => (keys[i], InCategory(tops, keys[i])))
  }

  lemma DistinctInOrderSnoc(s: seq<string>, x: string)
    ensures DistinctInOrder(s + [x]) == if x in DistinctInOrder(s) then DistinctInOrder(s) else DistinctInOrder(s) + [x]
  {
    assert (s + [x])[..|s|] == s;
  }

  lemma InCategorySnoc(tops: seq<TopSkill>, t: TopSkill, c: string)
    ensures InCategory(tops + [t], c) == InCategory(tops, c) + (if t.category == c then [Strip(t)] else [])
  {
    assert (tops + [t])[..|tops|] == tops;
    var o := OfCategory(tops, c);
    assert Strips(o + [t]) == Strips(o) + [Strip(t)];
  }

  lemma {:induction false} OfCategoryEmpty(tops: seq<TopSkill>, c: string)
    requires c !in Categories(tops)
    ensures OfCategory(tops, c) == []
    decreases |tops|
  {
    if tops != [] {
      var init := tops[..|tops| - 1];
      assert Categories(tops) == Categories(init) + [tops[|tops| - 1].category];
      OfCategoryEmpty(init, c);
    }
  }

  /** `keys` and `byCategory` are the insertion order and contents of `by_category` after `tops`. */
  ghost predicate Tracks(byCategory: map<string, seq<CategorySkill>>, keys: seq<string>, tops: seq<TopSkill>) {
    && keys == DistinctInOrder(Categories(tops))
    && (forall c :: c in byCategory <==> c in keys)
    && (forall c :: c in byCategory ==> byCategory[c] == InCategory(tops, c))
  }

  /** One iteration of the grouping loop keeps `Tracks`. */
  lemma TracksStep(byCategory: map<string, seq<CategorySkill>>, keys: seq<string>, tops: seq<TopSkill>, i: nat,
                   byCategory': map<string, seq<CategorySkill>>, keys': seq<string>)
    requires i < |tops| && Tracks(byCategory, keys, tops[..i])
    requires var c := tops[i].category;
      var b := if c in byCategory then byCategory else byCategory[c := []];
      && keys' == (if c in byCategory then keys else keys + [c])
      && byCategory' == b[c := b[c] + [Strip(tops[i])]]
    ensures Tracks(byCategory', keys', tops[..i + 1])
  {
    var t := tops[i];
    assert tops[..i + 1] == tops[..i] + [t];
    KeysStep(byCategory, keys, tops[..i], t, keys');
    ContentsStep(byCategory, tops[..i], t, byCategory');
  }

  /** A new category is appended to the insertion order; a known one leaves it unchanged. */
  lemma KeysStep(byCategory: map<string, seq<CategorySkill>>, keys: seq<string>, tops: seq<TopSkill>, t: TopSkill,
                 keys': seq<string>)
    requires keys == DistinctInOrder(Categories(tops))
    requires forall c :: c in byCategory <==> c in keys
    requires keys' == (if t.category in byCategory then keys else keys + [t.category])
    ensures keys' == DistinctInOrder(Categories(tops + [t]))
  {
    assert Categories(tops + [t]) == Categories(tops) + [t.category];
    DistinctInOrderSnoc(Categories(tops), t.category);
  }

  /** The entry lands at the end of its own category's list; every other list is unchanged. */
  lemma ContentsStep(byCategory: map<string, seq<CategorySkill>>, tops: seq<TopSkill>, t: TopSkill,
                     byCategory': map<string, seq<CategorySkill>>)
    requires forall c :: c in byCategory ==> byCategory[c] == InCategory(tops, c)
    requires t.category !in byCategory ==> t.category !in Categories(tops)
    requires var c := t.category;
      var b := if c in byCategory then byCategory else byCategory[c := []];
      byCategory' == b[c := b[c] + [Strip(t)]]
    ensures forall c :: c in byCategory' ==> byCategory'[c] == InCategory(tops + [t], c)
  {
    var c := t.category;
    if c !in byCategory {
      OfCategoryEmpty(tops, c);
    }
    forall d | d in byCategory' ensures byCategory'[d] == InCategory(tops + [t], d) {
      InCategorySnoc(tops, t, d);
    }
  }

  /** The loop of `get_skills_by_category` over the top skills. */
  method GroupByCategory(tops: seq<TopSkill>) returns (groups: seq<(string, seq<CategorySkill>)>)
    ensures groups == Grouped(tops)
  {
    var keys: seq<string> := [];
    var byCategory: map<string, seq<CategorySkill>> := map[];
    var i := 0;
    while i < |tops|
      invariant 0 <= i <= |tops|
      invariant Tracks(byCategory, keys, tops[..i])
    {
      ghost var b0, k0 := byCategory, keys;
      var category := tops[i].category;
      if category !in byCategory {
        keys := keys + [category];
        byCategory := byCategory[category := []];
      }
      byCategory := byCategory[category := byCategory[category] + [Strip(tops[i])]];
      TracksStep(b0, k0, tops, i, byCategory, keys);
      i := i + 1;
    }
    assert tops[..i] == tops;
    groups := seq(|keys|, j requires 0 <= j < |keys| => (keys[j], byCategory[keys[j]]));
    TracksGrouped(byCategory, keys, tops, groups);
  }

  lemma TracksGrouped(byCategory: map<string, seq<CategorySkill>>, keys: seq<string>, tops: seq<TopSkill>,
                      groups: seq<(string, seq<CategorySkill>)>)
    requires Tracks(byCategory, keys, tops)
    requires |groups| == |keys|
    requires forall j :: 0 <= j < |keys| ==> groups[j] == (keys[j], byCategory[keys[j]])
    ensures groups == Grouped(tops)
  {
  }

  /** A category's entries come in `top_skills` order. */
  lemma {:induction false} InCategoryInOrder(tops: seq<TopSkill>, c: string)
    ensures IsSubseq(InCategory(tops, c), Strips(tops))
    decreases |tops|
  {
    if tops != [] {
      var init := tops[..|tops| - 1];
      var t := tops[|tops| - 1];
      InCategoryInOrder(init, c);
      assert tops == init + [t];
      InCategorySnoc(init, t, c);
      StripsSnoc(init, t);
      if t.category == c {
        SubseqSnocBoth(InCategory(init, c), Strips(init), Strip(t));
      } else {
        assert InCategory(init, c) + [] == InCategory(init, c);
        SubseqOfPrefix(InCategory(init, c), Strips(init), Strip(t));
      }
    }
  }

  lemma StripsSnoc(tops: seq<TopSkill>, t: TopSkill)
    ensures Strips(tops + [t]) == Strips(tops) + [Strip(t)]
  {
  }

  /** Every top skill is listed under its own category. */
  lemma {:induction false} InOwnCategory(tops: seq<TopSkill>, i: nat)
    requires i < |tops|
    ensures Strip(tops[i]) in InCategory(tops, tops[i].category)
    decreases |tops|
  {
    var init := tops[..|tops| - 1];
    var t := tops[|tops| - 1];
    assert tops == init + [t];
    InCategorySnoc(init, t, tops[i].category);
    if i < |tops| - 1 {
      InOwnCategory(init, i);
      assert init[i] == tops[i];
    }
  }

  /** The groups are the categories of `top_skills`, once each, in order of first appearance. */
  lemma GroupedKeys(tops: seq<TopSkill>)
    ensures GroupKeys(Grouped(tops)) == DistinctInOrder(Categories(tops))
    ensures Distinct(GroupKeys(Grouped(tops)))
    ensures forall c :: c in GroupKeys(Grouped(tops)) <==> c in Categories(tops)
  {
    assert GroupKeys(Grouped(tops)) == DistinctInOrder(Categories(tops));
  }

  /** Each top skill is listed under its own category, and each group keeps the order of `top_skills`. */
  lemma GroupedCover(tops: seq<TopSkill>)
    ensures var g := Grouped(tops);
      && (forall j :: 0 <= j < |g| ==> IsSubseq(g[j].1, Strips(tops)))
      && (forall i :: 0 <= i < |tops| ==> exists j :: 0 <= j < |g| && g[j].0 == tops[i].category && Strip(tops[i]) in g[j].1)
  {
    var g := Grouped(tops);
    var keys := DistinctInOrder(Categories(tops));
    forall j | 0 <= j < |g| ensures IsSubseq(g[j].1, Strips(tops)) {
      InCategoryInOrder(tops, keys[j]);
    }
    forall i | 0 <= i < |tops|
      ensures exists j :: 0 <= j < |g| && g[j].0 == tops[i].category && Strip(tops[i]) in g[j].1
    {
      assert Categories(tops)[i] == tops[i].category;
      var j := IndexOf(keys, tops[i].category);
      InOwnCategory(tops, i);
      assert g[j].0 == tops[i].category;
    }
  }

  /** With distinct names, an entry named like a top skill sits only under that skill's category. */
  lemma GroupedOnlyOwnCategory(tops: seq<TopSkill>)
    requires Distinct(TopNames(tops))
    ensures var g := Grouped(tops);
      forall i, j, e :: 0 <= i < |tops| && 0 <= j < |g| && 0 <= e < |g[j].1| && g[j].1[e].name == tops[i].name
        ==> g[j].0 == tops[i].category
  {
    var g := Grouped(tops);
    var keys := DistinctInOrder(Categories(tops));
    forall i, j, e | 0 <= i < |tops| && 0 <= j < |g| && 0 <= e < |g[j].1| && g[j].1[e].name == tops[i].name
      ensures g[j].0 == tops[i].category
    {
      var o := OfCategory(tops, keys[j]);
      assert g[j].1[e] == Strip(o[e]);
      var k :| 0 <= k < |tops| && tops[k] == o[e];
      assert TopNames(tops)[k] == TopNames(tops)[i];
    }
  }

  // ---------------------------------------------------------------- the two entry points

  /** The postings' descriptions, fetched from JSearch for `location`. */
  function FetchedDescriptions(query: string, location: string, numPages: int,
                               fetch: JSearch.Request -> JSearch.PageResponse): seq<string> {
    Jobs.Descriptions(JSearch.Search(query, location, fetch, numPages).jobs)
  }

  /** The analysis `analyze_market` returns with the mapping `m` of the matcher. */
  function Analyze(m: map<string, SkillInfo>, query: string, city: string, province: string, topN: int, numPages: int,
                   fetch: JSearch.Request -> JSearch.PageResponse, detect: string -> Option<string>,
                   matches: (string, string) -> seq<string>): Analysis
  {
    var descs := FetchedDescriptions(query, Location(city, province), numPages, fetch);
    if descs == [] then NoJobs(query, Location(city, province))
    else Analysis(query, Location(city, province), |descs|,
                  TopSkills(ExtractedAll(m, descs, detect, matches), |descs|, topN), None)
  }

  /** The loop over the descriptions in `analyze_market`. */
  method ProcessDescriptions(matcher: SkillsMatcher.Matcher, descs: seq<string>, detect: string -> Option<string>,
                             matches: (string, string) -> seq<string>)
    returns (allSkills: seq<string>, categories: map<string, string>)
    ensures allSkills == Flatten(ExtractedAll(matcher.skillToCategory, descs, detect, matches))
    ensures categories == FirstCategories(Concat(ExtractedAll(matcher.skillToCategory, descs, detect, matches)))
  {
    ghost var results := ExtractedAll(matcher.skillToCategory, descs, detect, matches);
    allSkills, categories := [], map[];
    var i := 0;
    while i < |descs|
      invariant 0 <= i <= |descs|
      invariant allSkills == Names(Concat(results[..i]))
      invariant categories == FirstCategories(Concat(results[..i]))
    {
      var infos := matcher.ExtractSkillsWithCategory(descs[i], detect, matches);
      assert infos == results[i];
      ConcatSnoc(results, i);
      allSkills, categories := AppendSkills(allSkills, categories, infos, Concat(results[..i]));
      i := i + 1;
    }
    assert results[..i] == results;
  }

  /**
   * `analyze_market`: no posting gives the no-jobs answer; otherwise the
   * `top_n` most common skills of the matcher's extractions.
   */
  method AnalyzeMarket(matcher: SkillsMatcher.Matcher, query: string, city: string, province: string, topN: int,
                       numPages: int, fetch: JSearch.Request -> JSearch.PageResponse,
                       detect: string -> Option<string>, matches: (string, string) -> seq<string>)
    returns (a: Analysis)
    ensures a == Analyze(matcher.skillToCategory, query, city, province, topN, numPages, fetch, detect, matches)
  {
    var location := Location(city, province);
    var descriptions := JSearch.GetJobDescriptions(query, location, numPages, fetch);
    var totalJobs := |descriptions|;
    if totalJobs == 0 {
      return NoJobs(query, location);
    }
    var allSkills, skillCategories := ProcessDescriptions(matcher, descriptions, detect, matches);
    var ranked := Take(MostCommon(allSkills), topN);
    var topSkills := BuildTopSkills(ranked, allSkills, skillCategories, totalJobs);
    a := Analysis(query, location, totalJobs, topSkills, None);
  }

  /** What `get_skills_by_category` answers for an analysis of the top 50 skills. */
  function GroupingOf(a: Analysis): Grouping {
    if a.totalJobs == 0 then NoJobsAnalysis(a)
    else ByCategory(a.query, a.location, a.totalJobs, Grouped(a.topSkills))
  }

  /**
   * `get_skills_by_category`: the zero-job analysis is returned unchanged;
   * otherwise the top 50 skills grouped by category.
   */
  method GetSkillsByCategory(matcher: SkillsMatcher.Matcher, query: string, city: string, province: string,
                             numPages: int, fetch: JSearch.Request -> JSearch.PageResponse,
                             detect: string -> Option<string>, matches: (string, string) -> seq<string>)
    returns (g: Grouping)
    ensures g == GroupingOf(Analyze(matcher.skillToCategory, query, city, province, GROUPED_TOP_N, numPages, fetch, detect, matches))
  {
    var analysis := AnalyzeMarket(matcher, query, city, province, GROUPED_TOP_N, numPages, fetch, detect, matches);
    if analysis.totalJobs == 0 {
      return NoJobsAnalysis(analysis);
    }
    var groups := GroupByCategory(analysis.topSkills);
    g := ByCategory(analysis.query, analysis.location, analysis.totalJobs, groups);
  }

  /** The top skills of an analysis are distinct, so grouping lists each exactly once. */
  lemma AnalyzedNamesDistinct(m: map<string, SkillInfo>, query: string, city: string, province: string, topN: int,
                              numPages: int, fetch: JSearch.Request -> JSearch.PageResponse,
                              detect: string -> Option<string>, matches: (string, string) -> seq<string>)
    ensures Distinct(TopNames(Analyze(m, query, city, province, topN, numPages, fetch, detect, matches).topSkills))
  {
    var descs := FetchedDescriptions(query, Location(city, province), numPages, fetch);
    if descs != [] {
      var results := ExtractedAll(m, descs, detect, matches);
      var all := Flatten(results);
      TopSkillsFacts(results, |descs|, topN);
      MostCommonOrder(all);
      var t := Take(MostCommon(all), topN);
      forall i, j | 0 <= i < j < |t| ensures t[i] != t[j] {
        assert t[i] == MostCommon(all)[i] && t[j] == MostCommon(all)[j];
      }
    }
  }
}
