/**
 * The counting shared by both analyzers: the flattened list of extracted
 * names, the category of each name's first extraction, `Counter` and its
 * `most_common` order (count descending, ties in first-seen order), and the
 * percentage of postings, in tenths of a percent.
 */
module Counting {
  import opened Wrappers
  import opened Seqs
  import opened Vocabulary

  // ---------------------------------------------------------------- result records

  /** One entry of `top_skills`; `percentage` is in tenths of a percent. */
  datatype TopSkill = TopSkill(name: string, category: string, count: nat, percentage: nat)

  /** One entry of a `skills_by_category` list. */
  datatype CategorySkill = CategorySkill(name: string, count: nat, percentage: nat)

  /** The dictionary `analyze_market` returns; `message` is present only when no posting was found. */
  datatype Analysis = Analysis(query: string, location: string, totalJobs: nat, topSkills: seq<TopSkill>, message: Option<string>)

  const NO_JOBS_MESSAGE: string := "No jobs found for this search"

  /** `f"{city}, {province}, Canada"`. */
  function Location(city: string, province: string): string {
    city + ", " + province + ", Canada"
  }

  /** The answer for a search that found no posting. */
  function NoJobs(query: string, location: string): (a: Analysis)
    ensures a.totalJobs == 0 && a.topSkills == [] && a.message == Some(NO_JOBS_MESSAGE)
  {
    Analysis(query, location, 0, [], Some(NO_JOBS_MESSAGE))
  }

  function TopNames(tops: seq<TopSkill>): (r: seq<string>)
    ensures |r| == |tops|
    ensures forall i :: 0 <= i < |r| ==> r[i] == tops[i].name
  {
    seq(|tops|, i requires 0 <= i < |tops| => tops[i].name)
  }

  /** The categories of a grouped view, in order. */
  function GroupKeys(groups: seq<(string, seq<CategorySkill>)>): (r: seq<string>)
    ensures |r| == |groups|
    ensures forall i :: 0 <= i < |r| ==> r[i] == groups[i].0
  {
    seq(|groups|, i requires 0 <= i < |groups| => groups[i].0)
  }

  /** `skill_categories.get(name, default)`. */
  function CategoryOr(cats: map<string, string>, name: string, default: string): string {
    if name in cats then cats[name] else default
  }

  // ---------------------------------------------------------------- flattening

  /** `all_skills`: every extracted name, posting by posting, in order. */
  function Flatten(results: seq<seq<SkillInfo>>): seq<string> {
    Names(Concat(results))
  }

  /** `skill_categories`: each name with the category of its first occurrence. */
  function FirstCategories(infos: seq<SkillInfo>): map<string, string>
    decreases |infos|
  {
    if infos == [] then map[]
    else
      var m := FirstCategories(infos[..|infos| - 1]);
      var x := infos[|infos| - 1];
      if x.name in m then m else m[x.name := x.category]
  }

  /** Exactly the extracted names are recorded. */
  lemma {:induction false} FirstCategoriesKeys(infos: seq<SkillInfo>)
    ensures forall n :: n in FirstCategories(infos) <==> n in Names(infos)
    decreases |infos|
  {
    if infos != [] {
      var init := infos[..|infos| - 1];
      FirstCategoriesKeys(init);
      assert infos == init + [infos[|infos| - 1]];
      ProcessStep(init, infos[|infos| - 1]);
    }
  }

  /** A name's category is that of its first occurrence; later categories are ignored. */
  lemma {:induction false} FirstCategoryWins(infos: seq<SkillInfo>, j: nat)
    requires j < |infos|
    requires forall k :: 0 <= k < j ==> infos[k].name != infos[j].name
    ensures infos[j].name in FirstCategories(infos) && FirstCategories(infos)[infos[j].name] == infos[j].category
    decreases |infos|
  {
    var init := infos[..|infos| - 1];
    if j < |infos| - 1 {
      FirstCategoryWins(init, j);
    } else {
      FirstCategoriesKeys(init);
      assert infos[j].name !in Names(init) by {
        forall k | 0 <= k < |init|
          ensures Names(init)[k] != infos[j].name
        {
          assert init[k] == infos[k];
        }
      }
    }
  }

  lemma NamesAppend(a: seq<SkillInfo>, b: seq<SkillInfo>)
    ensures Names(a + b) == Names(a) + Names(b)
  {}

  /** `ProcessStep` for the next element of `list` after `done + list[..j]`. */
  lemma ProcessNext(done: seq<SkillInfo>, list: seq<SkillInfo>, j: nat)
    requires j < |list|
    ensures Names(done + list[..j + 1]) == Names(done + list[..j]) + [list[j].name]
    ensures list[j].name in FirstCategories(done + list[..j]) ==>
      FirstCategories(done + list[..j + 1]) == FirstCategories(done + list[..j])
    ensures list[j].name !in FirstCategories(done + list[..j]) ==>
      FirstCategories(done + list[..j + 1]) == FirstCategories(done + list[..j])[list[j].name := list[j].category]
  {
    assert done + list[..j + 1] == (done + list[..j]) + [list[j]];
    ProcessStep(done + list[..j], list[j]);
  }

  lemma ProcessStep(infos: seq<SkillInfo>, x: SkillInfo)
    ensures Names(infos + [x]) == Names(infos) + [x.name]
    ensures x.name in FirstCategories(infos) ==> FirstCategories(infos + [x]) == FirstCategories(infos)
    ensures x.name !in FirstCategories(infos) ==>
      FirstCategories(infos + [x]) == FirstCategories(infos)[x.name := x.category]
  {
    assert (infos + [x])[..|infos|] == infos;
  }

  /**
   * The inner loop of `_process_skills_results`: each name of `list` is
   * appended to `allSkills`, and recorded with its category unless already
   * present. `done` is the list of every extraction seen so far.
   */
  method AppendSkills(allSkills: seq<string>, categories: map<string, string>, list: seq<SkillInfo>,
                      ghost done: seq<SkillInfo>)
    returns (allSkills': seq<string>, categories': map<string, string>)
    requires allSkills == Names(done) && categories == FirstCategories(done)
    ensures allSkills' == Names(done + list) && categories' == FirstCategories(done + list)
  {
    allSkills', categories' := allSkills, categories;
    var j := 0;
    assert done + list[..0] == done;
    while j < |list|
      invariant 0 <= j <= |list|
      invariant allSkills' == Names(done + list[..j])
      invariant categories' == FirstCategories(done + list[..j])
    {
      var info := list[j];
      ProcessNext(done, list, j);
      allSkills' := allSkills' + [info.name];
      if info.name !in categories' {
        categories' := categories'[info.name := info.category];
      }
      j := j + 1;
    }
    assert list[..j] == list;
  }

  lemma ConcatSnoc<T>(ss: seq<seq<T>>, i: nat)
    requires i < |ss|
    ensures Concat(ss[..i + 1]) == Concat(ss[..i]) + ss[i]
  {
    assert ss[..i + 1][..i] == ss[..i];
  }

  /** Every flattened name has a recorded category: the `get` defaults are never used. */
  lemma FlattenedHaveCategories(results: seq<seq<SkillInfo>>)
    ensures forall n :: n in Flatten(results) <==> n in FirstCategories(Concat(results))
  {
    FirstCategoriesKeys(Concat(results));
  }

  /** A posting's list without repeated names adds at most one to any name's count. */
  lemma {:induction false} CountAtMostPostings(results: seq<seq<SkillInfo>>, x: string)
    requires forall i :: 0 <= i < |results| ==> Distinct(Names(results[i]))
    ensures Count(Flatten(results), x) <= |results|
    decreases |results|
  {
    if results != [] {
      var init := results[..|results| - 1];
      var last := results[|results| - 1];
      CountAtMostPostings(init, x);
      NamesAppend(Concat(init), last);
      DistinctCountOne(Names(last), x);
    }
  }

  // ---------------------------------------------------------------- first-seen order

  /** The index of the first occurrence of `x`. */
  function IndexOf(s: seq<string>, x: string): (k: nat)
    requires x in s
    ensures k < |s| && s[k] == x
    ensures forall i :: 0 <= i < k ==> s[i] != x
    decreases |s|
  {
    if s[0] == x then 0 else 1 + IndexOf(s[1..], x)
  }

  /** The distinct elements, in order of first occurrence: the keys of a `Counter`. */
  function DistinctInOrder(s: seq<string>): (r: seq<string>)
    ensures Distinct(r)
    ensures forall x :: x in r <==> x in s
    decreases |s|
  {
    if s == [] then []
    else
      var init := DistinctInOrder(s[..|s| - 1]);
      var x := s[|s| - 1];
      assert s == s[..|s| - 1] + [x];
      if x in init then init else init + [x]
  }

  /** The keys of a `Counter` come in order of first occurrence. */
  lemma {:induction false} DistinctInFirstSeenOrder(s: seq<string>)
    ensures forall i, j :: 0 <= i < j < |DistinctInOrder(s)| ==>
      IndexOf(s, DistinctInOrder(s)[i]) < IndexOf(s, DistinctInOrder(s)[j])
    decreases |s|
  {
    if s != [] {
      var init := s[..|s| - 1];
      DistinctInFirstSeenOrder(init);
      InitLast(s);
      FirstSeenStep(init, s[|s| - 1]);
    }
  }

  /** Appending `x` keeps the keys in first-seen order: `x` is either known already or comes last. */
  lemma FirstSeenStep(init: seq<string>, x: string)
    requires forall i, j :: 0 <= i < j < |DistinctInOrder(init)| ==>
      IndexOf(init, DistinctInOrder(init)[i]) < IndexOf(init, DistinctInOrder(init)[j])
    ensures forall i, j :: 0 <= i < j < |DistinctInOrder(init + [x])| ==>
      IndexOf(init + [x], DistinctInOrder(init + [x])[i]) < IndexOf(init + [x], DistinctInOrder(init + [x])[j])
  {
    var s := init + [x];
    assert s[..|s| - 1] == init;
    var r := DistinctInOrder(s);
    var r' := DistinctInOrder(init);
    assert r == if x in r' then r' else r' + [x];
    forall i, j | 0 <= i < j < |r|
      ensures IndexOf(s, r[i]) < IndexOf(s, r[j])
    {
      assert r[i] == r'[i] && r[i] in init;
      IndexOfPrefix(init, x, r[i]);
      if j < |r'| {
        assert r[j] == r'[j] && r[j] in init;
        IndexOfPrefix(init, x, r[j]);
      } else {
        assert r[j] == x && x !in init;
        IndexOfPrefix(init, x, x);
      }
    }
  }

  lemma IndexOfPrefix(init: seq<string>, x: string, y: string)
    requires y in init + [x]
    ensures y in init ==> IndexOf(init + [x], y) == IndexOf(init, y)
    ensures y !in init ==> IndexOf(init + [x], y) == |init|
  {
    var s := init + [x];
    var k := IndexOf(s, y);
    if y in init {
      var k' := IndexOf(init, y);
      assert s[k'] == y;
      assert k <= k';
      assert init[k] == y;
    } else {
      assert forall i :: 0 <= i < |init| ==> s[i] != y;
    }
  }

  // ---------------------------------------------------------------- most_common

  /** `Counter(all)[x]`: the number of occurrences. */
  function Count(all: seq<string>, x: string): nat {
    multiset(all)[x]
  }

  /** Place `x` after every element of `r` whose count is at least its own. */
  function InsertByCount(x: string, r: seq<string>, all: seq<string>): (out: seq<string>)
    ensures multiset(out) == multiset(r) + multiset{x}
    ensures |out| == |r| + 1
    decreases |r|
  {
    if r == [] then [x]
    else if Count(all, r[0]) >= Count(all, x) then
      assert r == [r[0]] + r[1..];
      [r[0]] + InsertByCount(x, r[1..], all)
    else [x] + r
  }

  /** A stable sort by count, highest first. */
  function SortByCount(xs: seq<string>, all: seq<string>): (r: seq<string>)
    ensures multiset(r) == multiset(xs)
    decreases |xs|
  {
    if xs == [] then []
    else
      assert xs == xs[..|xs| - 1] + [xs[|xs| - 1]];
      InsertByCount(xs[|xs| - 1], SortByCount(xs[..|xs| - 1], all), all)
  }

  /** `Counter(all).most_common()`: the distinct names, most frequent first, ties in first-seen order. */
  function MostCommon(all: seq<string>): seq<string> {
    SortByCount(DistinctInOrder(all), all)
  }

  predicate CountsNonIncreasing(r: seq<string>, all: seq<string>) {
    forall i, j :: 0 <= i < j < |r| ==> Count(all, r[i]) >= Count(all, r[j])
  }

  lemma {:induction false} InsertKeepsOrder(x: string, r: seq<string>, all: seq<string>)
    requires CountsNonIncreasing(r, all)
    ensures CountsNonIncreasing(InsertByCount(x, r, all), all)
    decreases |r|
  {
    if r == [] {
    } else if Count(all, r[0]) >= Count(all, x) {
      var tail := InsertByCount(x, r[1..], all);
      InsertKeepsOrder(x, r[1..], all);
      HeadBounds(r, all);
      InsertAtMost(x, r[1..], all, Count(all, r[0]));
      ConsNonIncreasing(r[0], tail, all);
    } else {
      HeadBounds(r, all);
      assert CountsAtMost(r, all, Count(all, x));
      ConsNonIncreasing(x, r, all);
    }
  }

  /** Every element of `s` occurs at most `bound` times. */
  predicate CountsAtMost(s: seq<string>, all: seq<string>, bound: nat) {
    forall k :: 0 <= k < |s| ==> Count(all, s[k]) <= bound
  }

  /** In a list by non-increasing count, the head bounds the rest, and the rest is ordered too. */
  lemma HeadBounds(r: seq<string>, all: seq<string>)
    requires r != [] && CountsNonIncreasing(r, all)
    ensures CountsAtMost(r, all, Count(all, r[0])) && CountsNonIncreasing(r[1..], all)
  {
    assert forall k :: 0 <= k < |r[1..]| ==> r[1..][k] == r[k + 1];
  }

  lemma ConsNonIncreasing(h: string, tail: seq<string>, all: seq<string>)
    requires CountsNonIncreasing(tail, all) && CountsAtMost(tail, all, Count(all, h))
    ensures CountsNonIncreasing([h] + tail, all)
  {
    var s := [h] + tail;
    forall i, j | 0 <= i < j < |s| ensures Count(all, s[i]) >= Count(all, s[j]) {
      assert s[j] == tail[j - 1];
      if i > 0 {
        assert s[i] == tail[i - 1];
      }
    }
  }

  /** Inserting an element under a bound keeps every count under it. */
  lemma InsertAtMost(x: string, r: seq<string>, all: seq<string>, bound: nat)
    requires CountsAtMost(r, all, bound) && Count(all, x) <= bound
    ensures CountsAtMost(InsertByCount(x, r, all), all, bound)
  {
    var out := InsertByCount(x, r, all);
    forall k | 0 <= k < |out| ensures Count(all, out[k]) <= bound {
      assert out[k] in multiset(r) + multiset{x};
      if out[k] != x {
        assert out[k] in r;
      }
    }
  }

  /** `most_common` lists counts from highest to lowest. */
  lemma {:induction false} SortByCountSorted(xs: seq<string>, all: seq<string>)
    ensures CountsNonIncreasing(SortByCount(xs, all), all)
    decreases |xs|
  {
    if xs != [] {
      SortByCountSorted(xs[..|xs| - 1], all);
      InsertKeepsOrder(xs[|xs| - 1], SortByCount(xs[..|xs| - 1], all), all);
    }
  }

  /** The names of `r` whose count is `c`, in order: one tie class of `most_common`. */
  function OfCount(r: seq<string>, all: seq<string>, c: nat): seq<string>
    decreases |r|
  {
    if r == [] then []
    else OfCount(r[..|r| - 1], all, c) + (if Count(all, r[|r| - 1]) == c then [r[|r| - 1]] else [])
  }

  lemma OfCountSnoc(rest: seq<string>, y: string, all: seq<string>, c: nat)
    ensures OfCount(rest + [y], all, c) == OfCount(rest, all, c) + (if Count(all, y) == c then [y] else [])
  {
    assert (rest + [y])[..|rest|] == rest;
  }

  lemma {:induction false} OfCountCons(y: string, rest: seq<string>, all: seq<string>, c: nat)
    ensures OfCount([y] + rest, all, c) == (if Count(all, y) == c then [y] else []) + OfCount(rest, all, c)
    decreases |rest|
  {
    if rest == [] {
      assert [y] + rest == [] + [y];
      OfCountSnoc([], y, all, c);
    } else {
      var init := rest[..|rest| - 1];
      var z := rest[|rest| - 1];
      OfCountCons(y, init, all, c);
      assert [y] + rest == ([y] + init) + [z];
      OfCountSnoc([y] + init, z, all, c);
      assert rest == init + [z];
      OfCountSnoc(init, z, all, c);
    }
  }

  lemma SortedTail(r: seq<string>, all: seq<string>)
    requires r != [] && CountsNonIncreasing(r, all)
    ensures CountsNonIncreasing(r[1..], all)
  {
    forall i, j | 0 <= i < j < |r[1..]|
      ensures Count(all, r[1..][i]) >= Count(all, r[1..][j])
    {
      assert r[1..][i] == r[i + 1] && r[1..][j] == r[j + 1];
    }
  }

  /** Dropping elements keeps a list sorted by count. */
  lemma {:induction false} SubseqSortedByCount(sub: seq<string>, s: seq<string>, all: seq<string>)
    requires IsSubseq(sub, s) && CountsNonIncreasing(s, all)
    ensures CountsNonIncreasing(sub, all)
    decreases |s|
  {
    if sub != [] {
      var s' := s[..|s| - 1];
      assert CountsNonIncreasing(s', all) by {
        forall i, j | 0 <= i < j < |s'| ensures Count(all, s'[i]) >= Count(all, s'[j]) {
          assert s'[i] == s[i] && s'[j] == s[j];
        }
      }
      if sub[|sub| - 1] == s[|s| - 1] {
        var sub' := sub[..|sub| - 1];
        SubseqSortedByCount(sub', s', all);
        SubseqMembers(sub', s');
        forall i | 0 <= i < |sub'| ensures Count(all, sub'[i]) >= Count(all, s[|s| - 1]) {
          var k :| 0 <= k < |s'| && s'[k] == sub'[i];
          assert s[k] == s'[k];
        }
        assert sub == sub' + [s[|s| - 1]];
      } else {
        SubseqSortedByCount(sub, s', all);
      }
    }
  }

  /** Inserting `x` adds it to its own count class after the members already there, and leaves the other classes alone. */
  lemma {:induction false} InsertStable(x: string, r: seq<string>, all: seq<string>, c: nat)
    requires CountsNonIncreasing(r, all)
    ensures OfCount(InsertByCount(x, r, all), all, c)
         == OfCount(r, all, c) + (if Count(all, x) == c then [x] else [])
    decreases |r|
  {
    if r == [] {
      OfCountSnoc([], x, all, c);
      assert [] + [x] == [x];
    } else if Count(all, r[0]) >= Count(all, x) {
      SortedTail(r, all);
      InsertStable(x, r[1..], all, c);
      InsertBehind(x, r, all, c);
    } else {
      InsertInFront(x, r, all, c);
    }
  }

  /** `x` goes behind the head of `r`, so the head's class gains nothing before it. */
  lemma InsertBehind(x: string, r: seq<string>, all: seq<string>, c: nat)
    requires r != [] && Count(all, r[0]) >= Count(all, x)
    requires OfCount(InsertByCount(x, r[1..], all), all, c)
          == OfCount(r[1..], all, c) + (if Count(all, x) == c then [x] else [])
    ensures OfCount(InsertByCount(x, r, all), all, c)
         == OfCount(r, all, c) + (if Count(all, x) == c then [x] else [])
  {
    var h, rest := r[0], r[1..];
    var tail := InsertByCount(x, rest, all);
    assert InsertByCount(x, r, all) == [h] + tail;
    assert [h] + rest == r;
    OfCountCons(h, tail, all, c);
    OfCountCons(h, rest, all, c);
    AppendAssoc(if Count(all, h) == c then [h] else [], OfCount(rest, all, c),
                if Count(all, x) == c then [x] else []);
  }

  lemma AppendAssoc(a: seq<string>, b: seq<string>, c: seq<string>)
    ensures a + (b + c) == (a + b) + c
  {
  }

  /** `x` counted more often than the head of `r` goes in front, which is the end of its own class. */
  lemma InsertInFront(x: string, r: seq<string>, all: seq<string>, c: nat)
    requires CountsNonIncreasing(r, all)
    requires r != [] && Count(all, r[0]) < Count(all, x)
    ensures OfCount(InsertByCount(x, r, all), all, c)
         == OfCount(r, all, c) + (if Count(all, x) == c then [x] else [])
  {
    var own := if Count(all, x) == c then [x] else [];
    assert InsertByCount(x, r, all) == [x] + r;
    OfCountCons(x, r, all, c);
    if Count(all, x) == c {
      NoneOfCount(r, all, c);
      assert own + [] == own && [] + own == own;
    } else {
      assert own == [];
    }
  }

  lemma {:induction false} OfCountNone(r: seq<string>, all: seq<string>, c: nat)
    requires forall k :: 0 <= k < |r| ==> Count(all, r[k]) != c
    ensures OfCount(r, all, c) == []
    decreases |r|
  {
    if r != [] {
      OfCountNone(r[..|r| - 1], all, c);
    }
  }

  /** A list sorted by count, whose first count is below `c`, holds nothing of count `c`. */
  lemma NoneOfCount(r: seq<string>, all: seq<string>, c: nat)
    requires CountsNonIncreasing(r, all)
    requires r != [] && Count(all, r[0]) < c
    ensures OfCount(r, all, c) == []
  {
    forall k | 0 <= k < |r|
      ensures Count(all, r[k]) != c
    {
      assert k == 0 || Count(all, r[0]) >= Count(all, r[k]);
    }
    OfCountNone(r, all, c);
  }

  /** `most_common` is stable: within one count, names keep their order. */
  lemma {:induction false} SortByCountStable(xs: seq<string>, all: seq<string>, c: nat)
    ensures OfCount(SortByCount(xs, all), all, c) == OfCount(xs, all, c)
    decreases |xs|
  {
    if xs != [] {
      var init := xs[..|xs| - 1];
      var x := xs[|xs| - 1];
      SortByCountStable(init, all, c);
      SortByCountSorted(init, all);
      InsertStable(x, SortByCount(init, all), all, c);
      SortByCountLast(xs, all);
      OfCountLast(xs, all, c);
    }
  }

  lemma SortByCountLast(xs: seq<string>, all: seq<string>)
    requires xs != []
    ensures SortByCount(xs, all) == InsertByCount(xs[|xs| - 1], SortByCount(xs[..|xs| - 1], all), all)
  {
  }

  lemma OfCountLast(r: seq<string>, all: seq<string>, c: nat)
    requires r != []
    ensures OfCount(r, all, c) == OfCount(r[..|r| - 1], all, c) + (if Count(all, r[|r| - 1]) == c then [r[|r| - 1]] else [])
  {
  }

  /**
   * `most_common()` holds each distinct name once, in non-increasing count
   * order, and names of equal count in the order they were first seen.
   */
  lemma MostCommonOrder(all: seq<string>)
    ensures var r := MostCommon(all);
      && (forall x :: x in r <==> x in all)
      && Distinct(r)
      && CountsNonIncreasing(r, all)
      && forall c: nat :: OfCount(r, all, c) == OfCount(DistinctInOrder(all), all, c)
  {
    var xs := DistinctInOrder(all);
    var r := MostCommon(all);
    SortByCountSorted(xs, all);
    forall c: nat
      ensures OfCount(r, all, c) == OfCount(xs, all, c)
    {
      SortByCountStable(xs, all, c);
    }
    assert forall x :: x in r <==> x in multiset(xs);
    DistinctMultiset(r, xs);
  }

  /** A permutation of a list without repeats has no repeats. */
  lemma DistinctMultiset(r: seq<string>, xs: seq<string>)
    requires Distinct(xs) && multiset(r) == multiset(xs)
    ensures Distinct(r)
  {
    forall i, j | 0 <= i < j < |r|
      ensures r[i] != r[j]
    {
      if r[i] == r[j] {
        var x := r[i];
        assert multiset(r)[x] >= 2 by {
          assert r == r[..j] + [r[j]] + r[j + 1..];
          assert x in r[..j];
        }
        DistinctCountOne(xs, x);
      }
    }
  }

  lemma {:induction false} DistinctCountOne(xs: seq<string>, x: string)
    requires Distinct(xs)
    ensures multiset(xs)[x] <= 1
    decreases |xs|
  {
    if xs != [] {
      var init := xs[..|xs| - 1];
      assert xs == init + [xs[|xs| - 1]];
      assert Distinct(init) by {
        forall i, j | 0 <= i < j < |init| ensures init[i] != init[j] {
          assert init[i] == xs[i] && init[j] == xs[j];
        }
      }
      DistinctCountOne(init, x);
      if xs[|xs| - 1] == x {
        assert x !in init by {
          forall i | 0 <= i < |init| ensures init[i] != x {
            assert init[i] == xs[i];
          }
        }
      }
    }
  }

  // ---------------------------------------------------------------- percentages

  lemma MulLe(a: nat, b: nat, t: nat)
    requires a <= b
    ensures a * t <= b * t
  {}

  lemma {:induction false} MulLtCancel(a: nat, b: nat, t: nat)
    requires a * t < b * t
    ensures a < b
    decreases b
  {
    if b > 0 && a > 0 {
      assert (a - 1) * t == a * t - t;
      assert (b - 1) * t == b * t - t;
      MulLtCancel(a - 1, b - 1, t);
    }
  }
  /** Quotient and remainder of `n` by `t`, by binary long division. */
  function DivMod(n: nat, t: nat): (nat, nat)
    requires t > 0
    decreases n
  {
    if n < t then (0, n)
    else
      var p := DivMod(n / 2, t);
      var r := 2 * p.1 + n % 2;
      if r >= t then (2 * p.0 + 1, r - t) else (2 * p.0, r)
  }

  /** One step of long division: doubling a quotient and remainder and bringing down one bit. */
  lemma DoubleStep(h: nat, bit: nat, q: nat, r: nat, t: nat)
    requires q * t + r == h
    ensures (2 * q) * t + (2 * r + bit) == 2 * h + bit
    ensures (2 * q + 1) * t + (2 * r + bit - t) == 2 * h + bit
  {
    assert (2 * q) * t == 2 * (q * t);
    assert (2 * q + 1) * t == 2 * (q * t) + t;
  }

  lemma {:induction false} DivModSpec(n: nat, t: nat)
    requires t > 0
    ensures DivMod(n, t).0 * t + DivMod(n, t).1 == n && DivMod(n, t).1 < t
    decreases n
  {
    if n >= t {
      var h, bit := n / 2, n % 2;
      DivModSpec(h, t);
      var (q, r) := DivMod(h, t);
      DoubleStep(h, bit, q, r, t);
      assert 2 * h + bit == n;
    }
  }

  /** Quotients of a smaller number are not larger. */
  lemma QuotientOrder(q1: nat, r1: nat, q2: nat, r2: nat, t: nat)
    requires r2 < t && q1 * t + r1 <= q2 * t + r2
    ensures q1 <= q2
  {
    assert (q2 + 1) * t == q2 * t + t;
    MulLtCancel(q1, q2 + 1, t);
  }

  /** Division by a positive number is monotone. */
  lemma DivMono(n1: nat, n2: nat, t: nat)
    requires t > 0 && n1 <= n2
    ensures DivMod(n1, t).0 <= DivMod(n2, t).0
  {
    DivModSpec(n1, t);
    DivModSpec(n2, t);
    var (q1, r1) := DivMod(n1, t);
    var (q2, r2) := DivMod(n2, t);
    QuotientOrder(q1, r1, q2, r2, t);
  }

  lemma DivExact(k: nat, t: nat)
    requires t > 0
    ensures DivMod(k * t, t) == (k, 0)
  {
    DivModSpec(k * t, t);
    var (q, r) := DivMod(k * t, t);
    QuotientOrder(q, r, k, 0, t);
    QuotientOrder(k, 0, q, r, t);
    assert q * t == k * t;
  }

  /** `round(n / t)` with Python's ties-to-even rule. */
  function RoundHalfEven(n: nat, t: nat): nat
    requires t > 0
  {
    var (q, rem) := DivMod(n, t);
    if 2 * rem > t || (2 * rem == t && q % 2 == 1) then q + 1 else q
  }

  /**
   * `round(count / total * 100, 1)`, in tenths of a percent: the exact ratio
   * `1000 * count / total` rounded to the nearest integer, ties to even.
   */
  function Tenths(count: nat, total: nat): nat
    requires total > 0
  {
    RoundHalfEven(1000 * count, total)
  }

  lemma NearestStep(q: nat, r: nat, n: nat, t: nat)
    requires q * t + r == n && r < t
    ensures 2 * (q * t) <= 2 * n && 2 * ((q + 1) * t) == 2 * n + 2 * t - 2 * r
  {
    assert (q + 1) * t == q * t + t;
  }

  /** The rounded value is a nearest integer to `1000 * count / total`. */
  lemma TenthsNearest(count: nat, total: nat)
    requires total > 0
    ensures 2 * (Tenths(count, total) * total) <= 2000 * count + total
    ensures 2000 * count <= 2 * (Tenths(count, total) * total) + total
  {
    DivModSpec(1000 * count, total);
    var (q, r) := DivMod(1000 * count, total);
    NearestStep(q, r, 1000 * count, total);
  }

  /**
   * The 20.0 % threshold on the rounded percentage is the exact condition
   * `count / total >= 0.1995`: the one tie, 19.95 %, rounds up to 20.0 %.
   */
  lemma TenthsThreshold(count: nat, total: nat)
    requires total > 0
    ensures Tenths(count, total) >= 200 <==> 2000 * count >= 399 * total
  {
    DivModSpec(1000 * count, total);
    var (q, r) := DivMod(1000 * count, total);
    if q >= 200 {
      MulLe(200, q, total);
    } else if q <= 198 {
      MulLe(q, 198, total);
    } else {
      assert q == 199;
    }
  }

  /** More occurrences never give a smaller percentage. */
  lemma TenthsMonotone(c1: nat, c2: nat, total: nat)
    requires total > 0 && c1 <= c2
    ensures Tenths(c1, total) <= Tenths(c2, total)
  {
    DivMono(1000 * c1, 1000 * c2, total);
    DivModSpec(1000 * c1, total);
    DivModSpec(1000 * c2, total);
  }

  /** Every posting holding the name gives 100.0 %; fewer occurrences than postings give at most that. */
  lemma TenthsAtMostHundred(count: nat, total: nat)
    requires 0 < total && count <= total
    ensures Tenths(count, total) <= 1000
    ensures count == total ==> Tenths(count, total) == 1000
  {
    DivExact(1000, total);
    TenthsMonotone(count, total, total);
    assert 1000 * total == 1000 * total;
  }
}
