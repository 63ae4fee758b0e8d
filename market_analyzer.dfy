/**
 * The current market analyzer: every posting's description goes through the
 * language-model extraction, the extracted names are counted, and the ranked
 * names are filtered by a fixed 20.0 % threshold, capped per category and cut
 * at `top_n` (`analyze_market`), or grouped by category in a fixed category
 * order (`get_skills_by_category`).
 */
module MarketAnalyzer {
  import opened Wrappers
  import opened Seqs
  import opened Vocabulary
  import opened Counting
  import Jobs
  import JSearch
  import MarketJSearch
  import GroqExtractor

  /** The order of the categories in the grouped view; no other category is shown. */
  const CATEGORY_ORDER: seq<string> := [
    "programming_languages", "backend_frameworks", "frontend_frameworks", "databases",
    "cloud_platforms", "devops_tools", "ai_ml", "api_technologies", "testing", "version_control",
    "mobile_development", "methodologies", "security", "monitoring_observability",
    "operating_systems", "networking", "message_queues_streaming", "build_tools", "ide_editors",
    "project_management", "collaboration_tools", "certifications", "soft_skills", "cms_ecommerce",
    "game_development", "embedded_iot", "blockchain_web3", "low_code_no_code"]

  /** `MIN_PERCENTAGE` (20.0 %), in tenths of a percent. */
  const MIN_PERCENTAGE: nat := 200
  const MAX_PER_CATEGORY: nat := 5
  const OTHER: string := "other"

  /** The grouped answer of `get_skills_by_category`: an ordered dictionary as a list of pairs. */
  datatype CategoryAnalysis = CategoryAnalysis(
    query: string, location: string, totalJobs: nat,
    skillsByCategory: seq<(string, seq<CategorySkill>)>, message: Option<string>)

  // ---------------------------------------------------------------- extraction results

  /**
   * `_process_skills_results`: every extracted name in posting order, and
   * each name with the category of its first extraction.
   */
  method ProcessSkillsResults(results: seq<seq<SkillInfo>>) returns (allSkills: seq<string>, categories: map<string, string>)
    ensures allSkills == Flatten(results)
    ensures categories == FirstCategories(Concat(results))
  {
    allSkills, categories := [], map[];
    var i := 0;
    while i < |results|
      invariant 0 <= i <= |results|
      invariant allSkills == Names(Concat(results[..i]))
      invariant categories == FirstCategories(Concat(results[..i]))
    {
      ConcatSnoc(results, i);
      allSkills, categories := AppendSkills(allSkills, categories, results[i], Concat(results[..i]));
      i := i + 1;
    }
    assert results[..i] == results;
  }

  // ---------------------------------------------------------------- top skills

  /** The rounded percentage reaches `MIN_PERCENTAGE`. */
  predicate Passes(all: seq<string>, total: nat, name: string) {
    total > 0 && Tenths(Count(all, name), total) >= MIN_PERCENTAGE
  }

  /** The `top_skills` entry for `name`. */
  function Entry(all: seq<string>, cats: map<string, string>, total: nat, name: string): TopSkill
    requires total > 0
  {
    TopSkill(name, CategoryOr(cats, name, OTHER), Count(all, name), Tenths(Count(all, name), total))
  }

  /** An entry as the loop builds it: from the counts, and above the threshold. */
  predicate IsTopEntry(t: TopSkill, all: seq<string>, cats: map<string, string>, total: nat) {
    total > 0 && t == Entry(all, cats, total, t.name) && t.percentage >= MIN_PERCENTAGE
  }

  /** `category_counts[category]` of a `defaultdict(int)`. */
  function Used(used: map<string, nat>, category: string): nat {
    if category in used then used[category] else 0
  }

  /** The number of entries of `category` in `tops`. */
  function CountCategory(tops: seq<TopSkill>, category: string): nat
    decreases |tops|
  {
    if tops == [] then 0
    else CountCategory(tops[..|tops| - 1], category) + (if tops[|tops| - 1].category == category then 1 else 0)
  }

  /** The loop stops once `len(top_skills) >= top_n`, which is after the first entry when `top_n <= 0`. */
  function Limit(topN: int): nat {
    if topN >= 1 then topN else 1
  }

  /**
   * The loop over `most_common()` from candidate `cands[0]` on, with
   * `top_skills` = `acc` and `category_counts` = `used` so far.
   */
  function SelectFrom(cands: seq<string>, all: seq<string>, cats: map<string, string>, total: nat,
                      topN: int, balanced: bool, acc: seq<TopSkill>, used: map<string, nat>): seq<TopSkill>
    requires total > 0
    decreases |cands|
  {
    if cands == [] then acc
    else
      var t := Entry(all, cats, total, cands[0]);
      if t.percentage < MIN_PERCENTAGE then SelectFrom(cands[1..], all, cats, total, topN, balanced, acc, used)
      else if balanced && Used(used, t.category) >= MAX_PER_CATEGORY then
        SelectFrom(cands[1..], all, cats, total, topN, balanced, acc, used)
      else
        var acc' := acc + [t];
        var used' := used[t.category := Used(used, t.category) + 1];
        if |acc'| >= topN then acc' else SelectFrom(cands[1..], all, cats, total, topN, balanced, acc', used')
  }

  /** The `top_skills` of `analyze_market` for the extraction results of `total` postings. */
  function TopSkills(results: seq<seq<SkillInfo>>, total: nat, topN: int, balanced: bool): seq<TopSkill>
    requires total > 0
  {
    var all := Flatten(results);
    SelectFrom(MostCommon(all), all, FirstCategories(Concat(results)), total, topN, balanced, [], map[])
  }

  /** The loop over `most_common()` in `analyze_market`. */
  method SelectTopSkills(ranked: seq<string>, all: seq<string>, cats: map<string, string>, total: nat,
                         topN: int, balanced: bool) returns (top: seq<TopSkill>)
    requires total > 0
    ensures top == SelectFrom(ranked, all, cats, total, topN, balanced, [], map[])
  {
    top := [];
    var categoryCounts: map<string, nat> := map[];
    var i := 0;
    while i < |ranked|
      invariant 0 <= i <= |ranked|
      invariant SelectFrom(ranked, all, cats, total, topN, balanced, [], map[])
             == SelectFrom(ranked[i..], all, cats, total, topN, balanced, top, categoryCounts)
    {
      var name := ranked[i];
      assert ranked[i..][1..] == ranked[i + 1..];
      var count := Count(all, name);
      var category := CategoryOr(cats, name, OTHER);
      var percentage := Tenths(count, total);
      if percentage < MIN_PERCENTAGE {
        i := i + 1;
        continue;
      }
      if balanced && Used(categoryCounts, category) >= MAX_PER_CATEGORY {
        i := i + 1;
        continue;
      }
      top := top + [TopSkill(name, category, count, percentage)];
      categoryCounts := categoryCounts[category := Used(categoryCounts, category) + 1];
      if |top| >= topN {
        return;
      }
      i := i + 1;
    }
  }

  // ---------------------------------------------------------------- properties of the selection

  lemma CountCategorySnoc(tops: seq<TopSkill>, t: TopSkill, category: string)
    ensures CountCategory(tops + [t], category) == CountCategory(tops, category) + (if t.category == category then 1 else 0)
  {
    assert (tops + [t])[..|tops|] == tops;
  }

  /** The entries already selected stay in front. */
  lemma {:induction false} SelectPrefix(cands: seq<string>, all: seq<string>, cats: map<string, string>, total: nat,
                                        topN: int, balanced: bool, acc: seq<TopSkill>, used: map<string, nat>)
    requires total > 0
    ensures var r := SelectFrom(cands, all, cats, total, topN, balanced, acc, used);
      |acc| <= |r| && r[..|acc|] == acc
    decreases |cands|
  {
    if cands != [] {
      var t := Entry(all, cats, total, cands[0]);
      var used' := used[t.category := Used(used, t.category) + 1];
      if t.percentage < MIN_PERCENTAGE || (balanced && Used(used, t.category) >= MAX_PER_CATEGORY) {
        SkipStep(cands, all, cats, total, topN, balanced, acc, used);
        SelectPrefix(cands[1..], all, cats, total, topN, balanced, acc, used);
      } else {
        TakeStep(cands, all, cats, total, topN, balanced, acc, used);
        if |acc + [t]| < topN {
          SelectPrefix(cands[1..], all, cats, total, topN, balanced, acc + [t], used');
          var r := SelectFrom(cands, all, cats, total, topN, balanced, acc, used);
          assert r[..|acc + [t]|][..|acc|] == r[..|acc|];
        }
      }
    }
  }

  /** The entries found so far are kept, and every new entry comes from the counts and passes the threshold. */
  lemma {:induction false} SelectEntries(cands: seq<string>, all: seq<string>, cats: map<string, string>, total: nat,
                                         topN: int, balanced: bool, acc: seq<TopSkill>, used: map<string, nat>)
    requires total > 0
    ensures var r := SelectFrom(cands, all, cats, total, topN, balanced, acc, used);
      && |acc| <= |r| && r[..|acc|] == acc
      && (forall k :: |acc| <= k < |r| ==> IsTopEntry(r[k], all, cats, total))
    decreases |cands|
  {
    if cands != [] {
      var t := Entry(all, cats, total, cands[0]);
      SelectStep(cands, all, cats, total, topN, balanced, acc, used);
      var used' := used[t.category := Used(used, t.category) + 1];
      if t.percentage < MIN_PERCENTAGE || (balanced && Used(used, t.category) >= MAX_PER_CATEGORY) {
        SelectEntries(cands[1..], all, cats, total, topN, balanced, acc, used);
      } else if |acc + [t]| < topN {
        SelectEntries(cands[1..], all, cats, total, topN, balanced, acc + [t], used');
        var r := SelectFrom(cands, all, cats, total, topN, balanced, acc, used);
        assert r[..|acc + [t]|][..|acc|] == r[..|acc|];
      }
    }
  }

  /** The new names are taken from the candidates, in their order. */
  lemma {:induction false} SelectInOrder(cands: seq<string>, all: seq<string>, cats: map<string, string>, total: nat,
                                         topN: int, balanced: bool, acc: seq<TopSkill>, used: map<string, nat>)
    requires total > 0
    ensures var r := SelectFrom(cands, all, cats, total, topN, balanced, acc, used);
      |acc| <= |r| && IsSubseq(TopNames(r[|acc|..]), cands)
    decreases |cands|
  {
    var r := SelectFrom(cands, all, cats, total, topN, balanced, acc, used);
    SelectEntries(cands, all, cats, total, topN, balanced, acc, used);
    if cands == [] {
      assert TopNames(r[|acc|..]) == [];
    } else {
      var t := Entry(all, cats, total, cands[0]);
      SelectStep(cands, all, cats, total, topN, balanced, acc, used);
      var rest := cands[1..];
      assert [cands[0]] + rest == cands;
      if t.percentage < MIN_PERCENTAGE || (balanced && Used(used, t.category) >= MAX_PER_CATEGORY) {
        SelectInOrder(rest, all, cats, total, topN, balanced, acc, used);
        SubseqCons(TopNames(r[|acc|..]), rest, cands[0]);
      } else if |acc + [t]| >= topN {
        InOrderLast(r, acc, t, rest);
      } else {
        var acc' := acc + [t];
        var used' := used[t.category := Used(used, t.category) + 1];
        SelectInOrder(rest, all, cats, total, topN, balanced, acc', used');
        SelectEntries(rest, all, cats, total, topN, balanced, acc', used');
        InOrderNext(r, acc, t, rest);
      }
    }
  }

  lemma InOrderLast(r: seq<TopSkill>, acc: seq<TopSkill>, t: TopSkill, rest: seq<string>)
    requires r == acc + [t]
    ensures IsSubseq(TopNames(r[|acc|..]), [t.name] + rest)
  {
    assert TopNames(r[|acc|..]) == [t.name] + [];
    SubseqCons([], rest, t.name);
  }

  lemma InOrderNext(r: seq<TopSkill>, acc: seq<TopSkill>, t: TopSkill, rest: seq<string>)
    requires |acc| + 1 <= |r| && r[..|acc| + 1] == acc + [t]
    requires IsSubseq(TopNames(r[|acc| + 1..]), rest)
    ensures IsSubseq(TopNames(r[|acc|..]), [t.name] + rest)
  {
    assert r[|acc|] == t;
    assert r[|acc|..] == [t] + r[|acc| + 1..];
    assert TopNames(r[|acc|..]) == [t.name] + TopNames(r[|acc| + 1..]);
    SubseqCons(TopNames(r[|acc| + 1..]), rest, t.name);
  }

  /** The loop never emits more than `max(top_n, 1)` entries. */
  lemma {:induction false} SelectLength(cands: seq<string>, all: seq<string>, cats: map<string, string>, total: nat,
                                        topN: int, balanced: bool, acc: seq<TopSkill>, used: map<string, nat>)
    requires total > 0 && |acc| < Limit(topN)
    ensures |SelectFrom(cands, all, cats, total, topN, balanced, acc, used)| <= Limit(topN)
    decreases |cands|
  {
    if cands != [] {
      var t := Entry(all, cats, total, cands[0]);
      SelectStep(cands, all, cats, total, topN, balanced, acc, used);
      var used' := used[t.category := Used(used, t.category) + 1];
      SelectLength(cands[1..], all, cats, total, topN, balanced, acc, used);
      if |acc + [t]| < topN {
        SelectLength(cands[1..], all, cats, total, topN, balanced, acc + [t], used');
      }
    }
  }

  /**
   * With `balanced`, `category_counts` counts exactly the entries emitted per
   * category (a skipped skill uses no slot), so no category passes
   * `MAX_PER_CATEGORY`.
   */
  lemma {:induction false} SelectCapped(cands: seq<string>, all: seq<string>, cats: map<string, string>, total: nat,
                                        topN: int, acc: seq<TopSkill>, used: map<string, nat>)
    requires total > 0
    requires forall c :: Used(used, c) == CountCategory(acc, c)
    requires forall c :: CountCategory(acc, c) <= MAX_PER_CATEGORY
    ensures forall c :: CountCategory(SelectFrom(cands, all, cats, total, topN, true, acc, used), c) <= MAX_PER_CATEGORY
    decreases |cands|
  {
    if cands != [] {
      var t := Entry(all, cats, total, cands[0]);
      SelectStep(cands, all, cats, total, topN, true, acc, used);
      var used' := used[t.category := Used(used, t.category) + 1];
      if t.percentage >= MIN_PERCENTAGE && Used(used, t.category) < MAX_PER_CATEGORY {
        forall c ensures Used(used', c) == CountCategory(acc + [t], c) && CountCategory(acc + [t], c) <= MAX_PER_CATEGORY {
          CountCategorySnoc(acc, t, c);
        }
        if |acc + [t]| < topN {
          SelectCapped(cands[1..], all, cats, total, topN, acc + [t], used');
        }
      } else {
        SelectCapped(cands[1..], all, cats, total, topN, acc, used);
      }
    }
  }

  lemma {:induction false} CountCategoryPrefix(tops: seq<TopSkill>, n: nat, category: string)
    requires n <= |tops|
    ensures CountCategory(tops[..n], category) <= CountCategory(tops, category)
    decreases |tops|
  {
    if n < |tops| {
      var init := tops[..|tops| - 1];
      assert tops[..n] == init[..n];
      CountCategoryPrefix(init, n, category);
    } else {
      assert tops[..n] == tops;
    }
  }

  /** Every threshold-passing candidate whose category still has a free slot in `r` is named in `r`. */
  ghost predicate Covers(cands: seq<string>, r: seq<TopSkill>, all: seq<string>, cats: map<string, string>, total: nat) {
    forall i :: 0 <= i < |cands| && Passes(all, total, cands[i])
      && CountCategory(r, CategoryOr(cats, cands[i], OTHER)) < MAX_PER_CATEGORY
      ==> cands[i] in TopNames(r)
  }

  /**
   * With `balanced`, a list that is not full leaves out no passing candidate
   * whose category still has a free slot: the cap alone drops skills.
   */
  lemma {:induction false} SelectCapOnlyDrops(cands: seq<string>, all: seq<string>, cats: map<string, string>, total: nat,
                                              topN: int, acc: seq<TopSkill>, used: map<string, nat>)
    requires total > 0
    requires forall c :: Used(used, c) == CountCategory(acc, c)
    ensures var r := SelectFrom(cands, all, cats, total, topN, true, acc, used);
      |r| < Limit(topN) ==> Covers(cands, r, all, cats, total)
    decreases |cands|
  {
    var r := SelectFrom(cands, all, cats, total, topN, true, acc, used);
    if cands != [] && |r| < Limit(topN) {
      var t := Entry(all, cats, total, cands[0]);
      var rest := cands[1..];
      if t.percentage >= MIN_PERCENTAGE && Used(used, t.category) < MAX_PER_CATEGORY {
        var used' := used[t.category := Used(used, t.category) + 1];
        TakeStep(cands, all, cats, total, topN, true, acc, used);
        UsedSnoc(used, acc, t);
        if |acc + [t]| < topN {
          SelectCapOnlyDrops(rest, all, cats, total, topN, acc + [t], used');
          SelectPrefix(rest, all, cats, total, topN, true, acc + [t], used');
        }
        HeadTaken(r, acc, t);
      } else {
        SkipStep(cands, all, cats, total, topN, true, acc, used);
        SelectCapOnlyDrops(rest, all, cats, total, topN, acc, used);
        SelectPrefix(rest, all, cats, total, topN, true, acc, used);
        HeadSkipped(r, acc, used, t, all, total);
      }
      CoverCons(cands, r, all, cats, total);
    }
  }

  /** A taken candidate sits right after the entries before it. */
  lemma HeadTaken(r: seq<TopSkill>, acc: seq<TopSkill>, t: TopSkill)
    requires |acc| < |r| && r[..|acc| + 1] == acc + [t]
    ensures t.name in TopNames(r)
  {
    assert r[|acc|] == (acc + [t])[|acc|] == t;
    assert TopNames(r)[|acc|] == t.name;
  }

  /** A skipped candidate either misses the threshold or finds its category already full. */
  lemma HeadSkipped(r: seq<TopSkill>, acc: seq<TopSkill>, used: map<string, nat>, t: TopSkill, all: seq<string>, total: nat)
    requires |acc| <= |r| && r[..|acc|] == acc
    requires forall c :: Used(used, c) == CountCategory(acc, c)
    requires total > 0 && t.percentage == Tenths(Count(all, t.name), total)
    requires t.percentage < MIN_PERCENTAGE || Used(used, t.category) >= MAX_PER_CATEGORY
    ensures !Passes(all, total, t.name) || CountCategory(r, t.category) >= MAX_PER_CATEGORY
  {
    if t.percentage >= MIN_PERCENTAGE {
      CountCategoryPrefix(r, |acc|, t.category);
    }
  }

  /** Counting one more entry of `t`'s category keeps `category_counts` in step with the list. */
  lemma UsedSnoc(used: map<string, nat>, acc: seq<TopSkill>, t: TopSkill)
    requires forall c :: Used(used, c) == CountCategory(acc, c)
    ensures forall c :: Used(used[t.category := Used(used, t.category) + 1], c) == CountCategory(acc + [t], c)
  {
    forall c ensures Used(used[t.category := Used(used, t.category) + 1], c) == CountCategory(acc + [t], c) {
      CountCategorySnoc(acc, t, c);
    }
  }

  /** What holds for the head and for the tail of `cands` holds for all of it. */
  lemma CoverCons(cands: seq<string>, r: seq<TopSkill>, all: seq<string>, cats: map<string, string>, total: nat)
    requires cands != []
    requires Passes(all, total, cands[0]) && CountCategory(r, CategoryOr(cats, cands[0], OTHER)) < MAX_PER_CATEGORY
      ==> cands[0] in TopNames(r)
    requires Covers(cands[1..], r, all, cats, total)
    ensures Covers(cands, r, all, cats, total)
  {
    forall i | 0 < i < |cands|
      ensures cands[i] == cands[1..][i - 1]
    {
    }
  }

  /** The threshold-passing candidates, in order. */
  function Passing(cands: seq<string>, all: seq<string>, total: nat): seq<string>
    decreases |cands|
  {
    if cands == [] then []
    else if Passes(all, total, cands[0]) then [cands[0]] + Passing(cands[1..], all, total)
    else Passing(cands[1..], all, total)
  }

  /** Without `balanced`, the names are exactly the first `max(top_n, 1)` threshold-passing candidates. */
  lemma {:induction false} SelectUnbalanced(cands: seq<string>, all: seq<string>, cats: map<string, string>, total: nat,
                                            topN: int, acc: seq<TopSkill>, used: map<string, nat>)
    requires total > 0 && |acc| < Limit(topN)
    ensures TopNames(SelectFrom(cands, all, cats, total, topN, false, acc, used))
         == TopNames(acc) + Take(Passing(cands, all, total), Limit(topN) - |acc|)
    decreases |cands|
  {
    if cands == [] {
      assert TopNames(acc) + Take(Passing(cands, all, total), Limit(topN) - |acc|) == TopNames(acc) + [];
    } else {
      var t := Entry(all, cats, total, cands[0]);
      var rest := cands[1..];
      SelectStep(cands, all, cats, total, topN, false, acc, used);
      assert Passes(all, total, cands[0]) <==> t.percentage >= MIN_PERCENTAGE;
      var p := Passing(rest, all, total);
      if t.percentage < MIN_PERCENTAGE {
        SelectUnbalanced(rest, all, cats, total, topN, acc, used);
        assert Passing(cands, all, total) == p;
      } else {
        var used' := used[t.category := Used(used, t.category) + 1];
        assert Passing(cands, all, total) == [cands[0]] + p;
        TopNamesSnoc(acc, t);
        if |acc + [t]| >= topN {
          TakeHead(cands[0], p, Limit(topN) - |acc|);
        } else {
          SelectUnbalanced(rest, all, cats, total, topN, acc + [t], used');
          TakeCons(TopNames(acc), cands[0], p, Limit(topN) - |acc|);
        }
      }
    }
  }

  /** One candidate of the loop, unfolded. */
  lemma SelectStep(cands: seq<string>, all: seq<string>, cats: map<string, string>, total: nat,
                   topN: int, balanced: bool, acc: seq<TopSkill>, used: map<string, nat>)
    requires total > 0 && cands != []
    ensures var t := Entry(all, cats, total, cands[0]);
      var r := SelectFrom(cands, all, cats, total, topN, balanced, acc, used);
      var used' := used[t.category := Used(used, t.category) + 1];
      && (t.percentage < MIN_PERCENTAGE || (balanced && Used(used, t.category) >= MAX_PER_CATEGORY) ==>
            r == SelectFrom(cands[1..], all, cats, total, topN, balanced, acc, used))
      && (t.percentage >= MIN_PERCENTAGE && !(balanced && Used(used, t.category) >= MAX_PER_CATEGORY) ==>
            r == if |acc + [t]| >= topN then acc + [t]
                 else SelectFrom(cands[1..], all, cats, total, topN, balanced, acc + [t], used'))
  {
  }

  /** A candidate under the threshold, or over its category's cap, is passed over. */
  lemma SkipStep(cands: seq<string>, all: seq<string>, cats: map<string, string>, total: nat,
                 topN: int, balanced: bool, acc: seq<TopSkill>, used: map<string, nat>)
    requires total > 0 && cands != []
    requires var t := Entry(all, cats, total, cands[0]);
      t.percentage < MIN_PERCENTAGE || (balanced && Used(used, t.category) >= MAX_PER_CATEGORY)
    ensures SelectFrom(cands, all, cats, total, topN, balanced, acc, used)
         == SelectFrom(cands[1..], all, cats, total, topN, balanced, acc, used)
  {
  }

  /** Any other candidate is appended, and the loop stops once `top_n` entries are there. */
  lemma TakeStep(cands: seq<string>, all: seq<string>, cats: map<string, string>, total: nat,
                 topN: int, balanced: bool, acc: seq<TopSkill>, used: map<string, nat>)
    requires total > 0 && cands != []
    requires var t := Entry(all, cats, total, cands[0]);
      t.percentage >= MIN_PERCENTAGE && !(balanced && Used(used, t.category) >= MAX_PER_CATEGORY)
    ensures var t := Entry(all, cats, total, cands[0]);
      var used' := used[t.category := Used(used, t.category) + 1];
      SelectFrom(cands, all, cats, total, topN, balanced, acc, used)
        == if |acc + [t]| >= topN then acc + [t]
           else SelectFrom(cands[1..], all, cats, total, topN, balanced, acc + [t], used')
  {
  }

  lemma TopNamesSnoc(acc: seq<TopSkill>, t: TopSkill)
    ensures TopNames(acc + [t]) == TopNames(acc) + [t.name]
  {
  }

  lemma TakeHead(x: string, p: seq<string>, n: int)
    requires n == 1
    ensures Take([x] + p, n) == [x]
  {
  }

  lemma TakeCons(pre: seq<string>, x: string, p: seq<string>, n: int)
    requires n > 1
    ensures (pre + [x]) + Take(p, n - 1) == pre + Take([x] + p, n)
  {
    assert Take([x] + p, n) == [x] + Take(p, n - 1);
  }

  /** The shape of `top_skills`: from the counts, above the threshold, ranked, each name once, at most `max(top_n, 1)`. */
  lemma TopSkillsFacts(results: seq<seq<SkillInfo>>, total: nat, topN: int, balanced: bool)
    requires total > 0
    ensures var r := TopSkills(results, total, topN, balanced);
      && (forall k :: 0 <= k < |r| ==> IsTopEntry(r[k], Flatten(results), FirstCategories(Concat(results)), total))
      && (forall k :: 0 <= k < |r| ==> r[k].percentage >= MIN_PERCENTAGE && r[k].count == Count(Flatten(results), r[k].name))
      && IsSubseq(TopNames(r), MostCommon(Flatten(results)))
      && Distinct(TopNames(r))
      && (forall i, j :: 0 <= i < j < |r| ==> r[i].count >= r[j].count)
      && |r| <= Limit(topN)
  {
    var all := Flatten(results);
    var cats := FirstCategories(Concat(results));
    var r := TopSkills(results, total, topN, balanced);
    SelectEntries(MostCommon(all), all, cats, total, topN, balanced, [], map[]);
    SelectInOrder(MostCommon(all), all, cats, total, topN, balanced, [], map[]);
    SelectLength(MostCommon(all), all, cats, total, topN, balanced, [], map[]);
    assert r[0..] == r;
    MostCommonOrder(all);
    SubseqDistinct(TopNames(r), MostCommon(all));
    SubseqSortedByCount(TopNames(r), MostCommon(all), all);
    forall i, j | 0 <= i < j < |r| ensures r[i].count >= r[j].count {
      assert TopNames(r)[i] == r[i].name && TopNames(r)[j] == r[j].name;
    }
  }

  /** Every emitted category is the one of the name's first extraction; `"other"` is never used. */
  lemma TopSkillsCategories(results: seq<seq<SkillInfo>>, total: nat, topN: int, balanced: bool)
    requires total > 0
    ensures var r := TopSkills(results, total, topN, balanced);
      forall k :: 0 <= k < |r| ==>
        r[k].name in FirstCategories(Concat(results)) && r[k].category == FirstCategories(Concat(results))[r[k].name]
  {
    var all := Flatten(results);
    var r := TopSkills(results, total, topN, balanced);
    TopSkillsFacts(results, total, topN, balanced);
    MostCommonOrder(all);
    SubseqMembers(TopNames(r), MostCommon(all));
    FlattenedHaveCategories(results);
    forall k | 0 <= k < |r|
      ensures r[k].name in FirstCategories(Concat(results))
    {
      assert TopNames(r)[k] == r[k].name;
    }
  }

  /** With `balanced`, no category has more than `MAX_PER_CATEGORY` entries. */
  lemma TopSkillsBalanced(results: seq<seq<SkillInfo>>, total: nat, topN: int)
    requires total > 0
    ensures forall c :: CountCategory(TopSkills(results, total, topN, true), c) <= MAX_PER_CATEGORY
  {
    var all := Flatten(results);
    SelectCapped(MostCommon(all), all, FirstCategories(Concat(results)), total, topN, [], map[]);
  }

  /** Without `balanced`, `top_skills` names the first `max(top_n, 1)` threshold-passing skills of `most_common()`. */
  lemma TopSkillsUnbalanced(results: seq<seq<SkillInfo>>, total: nat, topN: int)
    requires total > 0
    ensures TopNames(TopSkills(results, total, topN, false)) == Take(Passing(MostCommon(Flatten(results)), Flatten(results), total), Limit(topN))
  {
    var all := Flatten(results);
    SelectUnbalanced(MostCommon(all), all, FirstCategories(Concat(results)), total, topN, [], map[]);
    assert TopNames([]) + Take(Passing(MostCommon(all), all, total), Limit(topN)) == Take(Passing(MostCommon(all), all, total), Limit(topN));
  }

  lemma RepeatedCounts(py: SkillInfo)
    ensures Concat([[py, py]]) == [py, py] && Flatten([[py, py]]) == [py.name, py.name]
    ensures MostCommon([py.name, py.name]) == [py.name]
    ensures FirstCategories([py, py]) == map[py.name := py.category]
    ensures Tenths(Count([py.name, py.name], py.name), 1) == 2000
  {
    assert [[py, py]][..0] == [];
    PairMostCommon(py.name);
    PairCategories(py);
    PairTenths(py.name);
  }

  lemma PairMostCommon(x: string)
    ensures MostCommon([x, x]) == [x]
  {
    var all := [x, x];
    assert all[..1] == [x] && all[..1][..0] == [];
    assert DistinctInOrder(all[..1]) == [x];
    assert DistinctInOrder(all) == [x];
    assert [x][..0] == [];
  }

  lemma PairCategories(py: SkillInfo)
    ensures FirstCategories([py, py]) == map[py.name := py.category]
  {
    assert [py, py][..1] == [py] && [py][..0] == [];
    assert FirstCategories([py]) == map[py.name := py.category];
  }

  lemma PairTenths(x: string)
    ensures Tenths(Count([x, x], x), 1) == 2000
  {
    assert Count([x, x], x) == 2;
    DivExact(2000, 1);
  }

  /**
   * Counts are occurrences, not postings: a single posting whose extraction
   * names a skill twice gives that skill 200.0 %.
   */
  lemma PercentageCanExceedHundred(py: SkillInfo, topN: int)
    ensures TopSkills([[py, py]], 1, topN, true) == [TopSkill(py.name, py.category, 2, 2000)]
  {
    RepeatedCounts(py);
    var all, cats := [py.name, py.name], map[py.name := py.category];
    PairEntry(py, all, cats);
    SelectSingle(py.name, all, cats, 1, topN, true);
    TopSkillsOf([[py, py]], 1, topN, true, all, cats);
  }

  lemma PairEntry(py: SkillInfo, all: seq<string>, cats: map<string, string>)
    requires all == [py.name, py.name] && cats == map[py.name := py.category]
    requires Tenths(Count(all, py.name), 1) == 2000
    ensures Entry(all, cats, 1, py.name) == TopSkill(py.name, py.category, 2, 2000)
  {
    assert Count(all, py.name) == 2;
  }

  lemma TopSkillsOf(results: seq<seq<SkillInfo>>, total: nat, topN: int, balanced: bool, all: seq<string>, cats: map<string, string>)
    requires total > 0 && Flatten(results) == all && FirstCategories(Concat(results)) == cats
    ensures TopSkills(results, total, topN, balanced) == SelectFrom(MostCommon(all), all, cats, total, topN, balanced, [], map[])
  {
  }

  /**
   * When one name is all there is, it is the whole of `top_skills` if it
   * passes the threshold, and `top_skills` is empty otherwise, whatever
   * `top_n`, the number of postings and the balancing.
   */
  lemma SingleSkillTop(results: seq<seq<SkillInfo>>, x: string, total: nat, topN: int, balanced: bool)
    requires total > 0
    requires MostCommon(Flatten(results)) == [x]
    ensures var t := Entry(Flatten(results), FirstCategories(Concat(results)), total, x);
      TopSkills(results, total, topN, balanced) == if t.percentage >= MIN_PERCENTAGE then [t] else []
  {
    SelectSingle(x, Flatten(results), FirstCategories(Concat(results)), total, topN, balanced);
  }

  /** A lone candidate is selected exactly when it passes the threshold. */
  lemma SelectSingle(x: string, all: seq<string>, cats: map<string, string>, total: nat, topN: int, balanced: bool)
    requires total > 0
    ensures var t := Entry(all, cats, total, x);
      SelectFrom([x], all, cats, total, topN, balanced, [], map[]) == if t.percentage >= MIN_PERCENTAGE then [t] else []
  {
    assert [x][1..] == [];
  }

  // ---------------------------------------------------------------- grouped view

  /** The entries `by_category[category]` collects: passing candidates of that category, in order. */
  function Group(ranked: seq<string>, all: seq<string>, cats: map<string, string>, total: nat, category: string)
    : (r: seq<CategorySkill>)
    ensures forall i :: 0 <= i < |r| ==>
      r[i].name in ranked && Passes(all, total, r[i].name) && CategoryOr(cats, r[i].name, OTHER) == category
      && r[i].count == Count(all, r[i].name) && r[i].percentage == Tenths(Count(all, r[i].name), total)
    decreases |ranked|
  {
    if ranked == [] then []
    else
      var init := ranked[..|ranked| - 1];
      var x := ranked[|ranked| - 1];
      assert ranked == init + [x];
      var g := Group(init, all, cats, total, category);
      if Passes(all, total, x) && CategoryOr(cats, x, OTHER) == category then
        g + [CategorySkill(x, Count(all, x), Tenths(Count(all, x), total))]
      else g
  }

  /** The first loop of `get_skills_by_category`: `by_category` holds exactly the non-empty groups. */
  method GroupByCategory(ranked: seq<string>, all: seq<string>, cats: map<string, string>, total: nat)
    returns (byCategory: map<string, seq<CategorySkill>>)
    requires total > 0
    ensures Indexes(byCategory, ranked, all, cats, total)
  {
    byCategory := map[];
    var i := 0;
    while i < |ranked|
      invariant 0 <= i <= |ranked|
      invariant Indexes(byCategory, ranked[..i], all, cats, total)
    {
      var name := ranked[i];
      ghost var before := byCategory;
      var category := CategoryOr(cats, name, OTHER);
      var count := Count(all, name);
      var percentage := Tenths(count, total);
      assert Passes(all, total, name) <==> percentage >= MIN_PERCENTAGE;
      if percentage >= MIN_PERCENTAGE {
        var entry := CategorySkill(name, count, percentage);
        if category in byCategory {
          byCategory := byCategory[category := byCategory[category] + [entry]];
        } else {
          byCategory := byCategory[category := [entry]];
        }
      }
      IndexesNext(before, byCategory, ranked, i, all, cats, total);
      i := i + 1;
    }
    assert ranked[..i] == ranked;
  }

  /** `by_category` holds, for each category, its passing skills in ranking order, and no empty list. */
  ghost predicate Indexes(byCategory: map<string, seq<CategorySkill>>, ranked: seq<string>, all: seq<string>,
                          cats: map<string, string>, total: nat) {
    && (forall c :: c in byCategory <==> Group(ranked, all, cats, total, c) != [])
    && (forall c :: c in byCategory ==> byCategory[c] == Group(ranked, all, cats, total, c))
  }

  /** One more ranked name appends its entry to its own category's list and leaves the others alone. */
  lemma GroupSnoc(ranked: seq<string>, x: string, all: seq<string>, cats: map<string, string>, total: nat, c: string)
    requires total > 0
    ensures Group(ranked + [x], all, cats, total, c)
         == Group(ranked, all, cats, total, c)
            + (if Passes(all, total, x) && CategoryOr(cats, x, OTHER) == c
               then [CategorySkill(x, Count(all, x), Tenths(Count(all, x), total))] else [])
  {
    assert (ranked + [x])[..|ranked|] == ranked;
  }

  lemma IndexesStep(before: map<string, seq<CategorySkill>>, after: map<string, seq<CategorySkill>>,
                    ranked: seq<string>, x: string, all: seq<string>, cats: map<string, string>, total: nat)
    requires total > 0 && Indexes(before, ranked, all, cats, total)
    requires var category := CategoryOr(cats, x, OTHER);
      var entry := CategorySkill(x, Count(all, x), Tenths(Count(all, x), total));
      after == if !Passes(all, total, x) then before
               else if category in before then before[category := before[category] + [entry]]
               else before[category := [entry]]
    ensures Indexes(after, ranked + [x], all, cats, total)
  {
    forall c ensures Group(ranked + [x], all, cats, total, c)
         == Group(ranked, all, cats, total, c)
            + (if Passes(all, total, x) && CategoryOr(cats, x, OTHER) == c
               then [CategorySkill(x, Count(all, x), Tenths(Count(all, x), total))] else []) {
      GroupSnoc(ranked, x, all, cats, total, c);
    }
  }

  lemma IndexesNext(before: map<string, seq<CategorySkill>>, after: map<string, seq<CategorySkill>>,
                    ranked: seq<string>, i: nat, all: seq<string>, cats: map<string, string>, total: nat)
    requires i < |ranked| && total > 0 && Indexes(before, ranked[..i], all, cats, total)
    requires var x := ranked[i];
      var category := CategoryOr(cats, x, OTHER);
      var entry := CategorySkill(x, Count(all, x), Tenths(Count(all, x), total));
      after == if !Passes(all, total, x) then before
               else if category in before then before[category := before[category] + [entry]]
               else before[category := [entry]]
    ensures Indexes(after, ranked[..i + 1], all, cats, total)
  {
    assert ranked[..i + 1] == ranked[..i] + [ranked[i]];
    IndexesStep(before, after, ranked[..i], ranked[i], all, cats, total);
  }

  /** `ordered`: for each category of `order` with a non-empty group, its first `MAX_PER_CATEGORY` entries. */
  function Ordered(order: seq<string>, ranked: seq<string>, all: seq<string>, cats: map<string, string>, total: nat)
    : seq<(string, seq<CategorySkill>)>
    decreases |order|
  {
    if order == [] then []
    else
      var c := order[|order| - 1];
      var g := Group(ranked, all, cats, total, c);
      Ordered(order[..|order| - 1], ranked, all, cats, total) + (if g != [] then [(c, Take(g, MAX_PER_CATEGORY))] else [])
  }

  /** The second loop of `get_skills_by_category`, over `CATEGORY_ORDER`. */
  method OrderGroups(byCategory: map<string, seq<CategorySkill>>, ghost ranked: seq<string>, ghost all: seq<string>,
                     ghost cats: map<string, string>, ghost total: nat) returns (ordered: seq<(string, seq<CategorySkill>)>)
    requires Indexes(byCategory, ranked, all, cats, total)
    ensures ordered == Ordered(CATEGORY_ORDER, ranked, all, cats, total)
  {
    ordered := [];
    var i := 0;
    while i < |CATEGORY_ORDER|
      invariant 0 <= i <= |CATEGORY_ORDER|
      invariant ordered == Ordered(CATEGORY_ORDER[..i], ranked, all, cats, total)
    {
      var category := CATEGORY_ORDER[i];
      OrderedNext(CATEGORY_ORDER, i, ranked, all, cats, total);
      IndexedGroup(byCategory, ranked, all, cats, total, category);
      if category in byCategory {
        var limited := Take(byCategory[category], MAX_PER_CATEGORY);
        if limited != [] {
          ordered := ordered + [(category, limited)];
        }
      }
      i := i + 1;
    }
    assert CATEGORY_ORDER[..i] == CATEGORY_ORDER;
  }

  /** What `by_category` holds for one category. */
  lemma IndexedGroup(byCategory: map<string, seq<CategorySkill>>, ranked: seq<string>, all: seq<string>,
                     cats: map<string, string>, total: nat, c: string)
    requires Indexes(byCategory, ranked, all, cats, total)
    ensures c in byCategory ==> byCategory[c] == Group(ranked, all, cats, total, c) != []
    ensures c !in byCategory ==> Group(ranked, all, cats, total, c) == []
  {
  }

  lemma OrderedNext(order: seq<string>, i: nat, ranked: seq<string>, all: seq<string>, cats: map<string, string>, total: nat)
    requires i < |order|
    ensures var g := Group(ranked, all, cats, total, order[i]);
      Ordered(order[..i + 1], ranked, all, cats, total)
        == Ordered(order[..i], ranked, all, cats, total) + (if g != [] then [(order[i], Take(g, MAX_PER_CATEGORY))] else [])
  {
    assert order[..i + 1] == order[..i] + [order[i]];
    OrderedSnoc(order[..i], order[i], ranked, all, cats, total);
  }

  lemma OrderedSnoc(order: seq<string>, c: string, ranked: seq<string>, all: seq<string>, cats: map<string, string>, total: nat)
    ensures var g := Group(ranked, all, cats, total, c);
      Ordered(order + [c], ranked, all, cats, total)
        == Ordered(order, ranked, all, cats, total) + (if g != [] then [(c, Take(g, MAX_PER_CATEGORY))] else [])
  {
    assert (order + [c])[..|order|] == order;
  }

  /** The grouped view of `total` postings' extraction results. */
  function SkillsByCategory(results: seq<seq<SkillInfo>>, total: nat): seq<(string, seq<CategorySkill>)> {
    var all := Flatten(results);
    Ordered(CATEGORY_ORDER, MostCommon(all), all, FirstCategories(Concat(results)), total)
  }

  /** The groups come in the order of `order`. */
  lemma {:induction false} OrderedKeys(order: seq<string>, ranked: seq<string>, all: seq<string>, cats: map<string, string>, total: nat)
    ensures IsSubseq(GroupKeys(Ordered(order, ranked, all, cats, total)), order)
    decreases |order|
  {
    if order != [] {
      var init := order[..|order| - 1];
      var c := order[|order| - 1];
      var o := Ordered(order, ranked, all, cats, total);
      var o' := Ordered(init, ranked, all, cats, total);
      OrderedKeys(init, ranked, all, cats, total);
      assert init + [c] == order;
      if Group(ranked, all, cats, total, c) != [] {
        assert GroupKeys(o) == GroupKeys(o') + [c];
      } else {
        assert o == o';
        SubseqOfPrefix(GroupKeys(o), init, c);
      }
    }
  }

  predicate WellFormedGroups(o: seq<(string, seq<CategorySkill>)>, ranked: seq<string>, all: seq<string>,
                             cats: map<string, string>, total: nat) {
    forall i :: 0 <= i < |o| ==>
      && 0 < |o[i].1| <= MAX_PER_CATEGORY
      && o[i].1 == Take(Group(ranked, all, cats, total, o[i].0), MAX_PER_CATEGORY)
  }

  /** Each group shown is non-empty and holds the first `MAX_PER_CATEGORY` entries of its category. */
  lemma {:induction false} OrderedLists(order: seq<string>, ranked: seq<string>, all: seq<string>, cats: map<string, string>, total: nat)
    ensures WellFormedGroups(Ordered(order, ranked, all, cats, total), ranked, all, cats, total)
    decreases |order|
  {
    if order != [] {
      var init := order[..|order| - 1];
      var c := order[|order| - 1];
      var g := Group(ranked, all, cats, total, c);
      var o := Ordered(order, ranked, all, cats, total);
      var o' := Ordered(init, ranked, all, cats, total);
      OrderedLists(init, ranked, all, cats, total);
      if g != [] {
        assert o == o' + [(c, Take(g, MAX_PER_CATEGORY))];
      } else {
        assert o == o';
      }
    }
  }

  predicate Ranked(g: seq<CategorySkill>) {
    forall i, j :: 0 <= i < j < |g| ==> g[i].count >= g[j].count
  }

  /** A group of a ranked list is ranked: counts never increase. */
  lemma {:induction false} GroupSorted(ranked: seq<string>, all: seq<string>, cats: map<string, string>, total: nat, category: string)
    requires CountsNonIncreasing(ranked, all)
    ensures Ranked(Group(ranked, all, cats, total, category))
    decreases |ranked|
  {
    if ranked != [] {
      var init := ranked[..|ranked| - 1];
      var x := ranked[|ranked| - 1];
      assert CountsNonIncreasing(init, all) by {
        forall i, j | 0 <= i < j < |init| ensures Count(all, init[i]) >= Count(all, init[j]) {
          assert init[i] == ranked[i] && init[j] == ranked[j];
        }
      }
      GroupSorted(init, all, cats, total, category);
      var g' := Group(init, all, cats, total, category);
      var g := Group(ranked, all, cats, total, category);
      forall i | 0 <= i < |g'| ensures g'[i].count >= Count(all, x) {
        var k :| 0 <= k < |init| && init[k] == g'[i].name;
        assert ranked[k] == init[k];
      }
      if g != g' {
        assert g == g' + [CategorySkill(x, Count(all, x), Tenths(Count(all, x), total))];
        forall i, j | 0 <= i < j < |g| ensures g[i].count >= g[j].count {
          if j == |g'| {
            assert g[i] == g'[i] && g[j].count == Count(all, x);
          } else {
            assert g[i] == g'[i] && g[j] == g'[j];
          }
        }
      }
    }
  }

  /** Categories outside `CATEGORY_ORDER`, `"other"` among them, never reach the grouped view. */
  lemma OtherIsNotListed(results: seq<seq<SkillInfo>>, total: nat)
    ensures var o := SkillsByCategory(results, total);
      forall i :: 0 <= i < |o| ==> o[i].0 in CATEGORY_ORDER && o[i].0 != OTHER
  {
    var all := Flatten(results);
    var o := SkillsByCategory(results, total);
    OrderedKeys(CATEGORY_ORDER, MostCommon(all), all, FirstCategories(Concat(results)), total);
    SubseqMembers(GroupKeys(o), CATEGORY_ORDER);
    forall i | 0 <= i < |o|
      ensures o[i].0 in CATEGORY_ORDER
    {
      assert GroupKeys(o)[i] == o[i].0;
    }
  }

  /**
   * The grouped view lists only categories of `CATEGORY_ORDER`, in that
   * order; each list is non-empty, holds at most `MAX_PER_CATEGORY` entries
   * taken from the counts, all at or above the threshold, in non-increasing
   * count order.
   */
  lemma SkillsByCategoryFacts(results: seq<seq<SkillInfo>>, total: nat)
    requires total > 0
    ensures var o := SkillsByCategory(results, total);
      && IsSubseq(GroupKeys(o), CATEGORY_ORDER)
      && forall i :: 0 <= i < |o| ==> Listed(o[i].1, Flatten(results))
  {
    var all := Flatten(results);
    var cats := FirstCategories(Concat(results));
    var ranked := MostCommon(all);
    var o := SkillsByCategory(results, total);
    OrderedKeys(CATEGORY_ORDER, ranked, all, cats, total);
    OrderedLists(CATEGORY_ORDER, ranked, all, cats, total);
    MostCommonOrder(all);
    forall i | 0 <= i < |o|
      ensures Listed(o[i].1, all)
    {
      TakenListed(ranked, all, cats, total, o[i].0);
    }
  }

  /**
   * A category's list as `get_skills_by_category` returns it: one to
   * `MAX_PER_CATEGORY` threshold-passing skills with their true counts,
   * most frequent first.
   */
  predicate Listed(g: seq<CategorySkill>, all: seq<string>) {
    && 0 < |g| <= MAX_PER_CATEGORY
    && (forall k :: 0 <= k < |g| ==> g[k].percentage >= MIN_PERCENTAGE && g[k].count == Count(all, g[k].name))
    && Ranked(g)
  }

  lemma TakenListed(ranked: seq<string>, all: seq<string>, cats: map<string, string>, total: nat, category: string)
    requires total > 0 && CountsNonIncreasing(ranked, all)
    requires Group(ranked, all, cats, total, category) != []
    ensures Listed(Take(Group(ranked, all, cats, total, category), MAX_PER_CATEGORY), all)
  {
    var g := Group(ranked, all, cats, total, category);
    var t := Take(g, MAX_PER_CATEGORY);
    GroupSorted(ranked, all, cats, total, category);
    forall k, l | 0 <= k < l < |t| ensures t[k].count >= t[l].count {
      assert t[k] == g[k] && t[l] == g[l];
    }
  }

  // ---------------------------------------------------------------- the two entry points

  /** The postings' descriptions, fetched from JSearch for `location`. */
  function FetchedDescriptions(query: string, location: string, numPages: int, fetch: JSearch.Request -> JSearch.PageResponse,
                               nfd: string -> string, isMn: char -> bool): seq<string> {
    Jobs.Descriptions(MarketJSearch.Search(query, location, fetch, numPages, nfd, isMn).jobs)
  }

  /**
   * `analyze_market`: no posting gives the no-jobs answer without any
   * extraction; otherwise the top skills of the extraction results, with
   * `total_jobs_analyzed` the number of descriptions.
   */
  method AnalyzeMarket(query: string, city: string, province: string, topN: int, balanced: bool, numPages: int,
                       fetch: JSearch.Request -> JSearch.PageResponse, nfd: string -> string, isMn: char -> bool,
                       v: Vocab, llm: (string, nat) -> GroqExtractor.Reply, parse: string -> GroqExtractor.ParseResult)
    returns (a: Analysis)
    ensures var descs := FetchedDescriptions(query, Location(city, province), numPages, fetch, nfd, isMn);
      && (descs == [] ==> a == NoJobs(query, Location(city, province)))
      && (descs != [] ==> a == Analysis(query, Location(city, province), |descs|,
            TopSkills(GroqExtractor.AllSkillLists(v, descs, llm, parse), |descs|, topN, balanced), None))
  {
    var location := Location(city, province);
    var descriptions := MarketJSearch.GetJobDescriptions(query, location, numPages, fetch, nfd, isMn);
    var totalJobs := |descriptions|;
    if totalJobs == 0 {
      return NoJobs(query, location);
    }
    var results := GroqExtractor.ExtractAllSkills(v, descriptions, llm, parse);
    var allSkills, skillCategories := ProcessSkillsResults(results);
    var ranked := MostCommon(allSkills);
    var topSkills := SelectTopSkills(ranked, allSkills, skillCategories, totalJobs, topN, balanced);
    a := Analysis(query, location, totalJobs, topSkills, None);
  }

  /**
   * `get_skills_by_category`: no posting gives an empty grouping with the
   * no-jobs message; otherwise the grouped view of the extraction results.
   */
  method GetSkillsByCategory(query: string, city: string, province: string, numPages: int,
                             fetch: JSearch.Request -> JSearch.PageResponse, nfd: string -> string, isMn: char -> bool,
                             v: Vocab, llm: (string, nat) -> GroqExtractor.Reply, parse: string -> GroqExtractor.ParseResult)
    returns (g: CategoryAnalysis)
    ensures var descs := FetchedDescriptions(query, Location(city, province), numPages, fetch, nfd, isMn);
      && (descs == [] ==> g == CategoryAnalysis(query, Location(city, province), 0, [], Some(NO_JOBS_MESSAGE)))
      && (descs != [] ==> g == CategoryAnalysis(query, Location(city, province), |descs|,
            SkillsByCategory(GroqExtractor.AllSkillLists(v, descs, llm, parse), |descs|), None))
  {
    var location := Location(city, province);
    var descriptions := MarketJSearch.GetJobDescriptions(query, location, numPages, fetch, nfd, isMn);
    var totalJobs := |descriptions|;
    if totalJobs == 0 {
      return CategoryAnalysis(query, location, 0, [], Some(NO_JOBS_MESSAGE));
    }
    var results := GroqExtractor.ExtractAllSkills(v, descriptions, llm, parse);
    var allSkills, skillCategories := ProcessSkillsResults(results);
    var ranked := MostCommon(allSkills);
    var byCategory := GroupByCategory(ranked, allSkills, skillCategories, totalJobs);
    var ordered := OrderGroups(byCategory, ranked, allSkills, skillCategories, totalJobs);
    g := CategoryAnalysis(query, location, totalJobs, ordered, None);
  }
}
