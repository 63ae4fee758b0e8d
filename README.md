# Joblyx job-market pipeline, modelled in Dafny

Joblyx answers the question "which skills does the job market ask for, for this
job title in this Canadian city?". It fetches job postings from a search provider,
extracts the skills each posting names, counts them and reports the most
frequent ones. Some reports are filtered by a threshold and capped per category.
Others are grouped by category.

This project models the deterministic middle of that pipeline:

- **Aggregation, current analyzer** (`MarketAnalyzer`, `market_analyzer.dfy`):
  - flattening of the per-posting extraction results;
  - occurrence counting and `Counter.most_common()` order;
  - the 20.0 % threshold, the per-category cap of 5 and the `top_n` cut-off;
  - the category-grouped view in `CATEGORY_ORDER`.
- **Aggregation, first analyzer** (`LegacyMarketAnalyzer`, `legacy_market_analyzer.dfy`):
  the unthresholded top-N and the group-by in order of first appearance.
- **Shared counting** (`Counting`, `counting.dfy`):
  - flattening and first-extraction categories;
  - `most_common` as a stable sort by count;
  - `round(count / total * 100, 1)` in integer tenths.
- **Language-model extraction** (`GroqExtractor`, `groq_extraction.dfy`):
  - the category lookup;
  - markdown-fence cleanup of the reply;
  - the vocabulary filter and the 3000-character truncation;
  - the retry loop with linear backoff;
  - the record lists and the batch result filter.

  The first-generation `services/groq_service.py` is the synchronous half of the
  second-generation file, line for line apart from the chat model name and the path
  of the vocabulary file, neither of which the model carries, so the same members model both.
- **Vocabulary matcher** (`SkillsMatcher`, `skills_matcher.dfy`; `Vocabulary`, `vocabulary.dfy`):
  - the name/variant dictionary and pattern list, built by a class whose methods update its fields;
  - the result contract of `detect_language`;
  - the deduplication of matched spans in both extractors.
- **Job search**:
  - the first-generation JSearch page loop (`JSearch`, `jsearch.dfy`);
  - the second-generation one, which normalises accents (`MarketJSearch`, `market_jsearch.dfy`);
  - the SerpAPI token-driven loop with its cap and French-to-English retry (`SerpApi`, `serpapi.dfy`);
  - the two-provider fallback with `last_provider` (`JobSearch`, `job_search.dfy`);
  - the description filter and accent stripping (`Jobs`, `jobs.dfy`).
- **Authentication** (`Auth`, `auth.dfy`): Bearer-token extraction and the mapping
  of every failure to a 401 error.

`strings.dfy` gives the Python `str` operations the services use, with Python's meaning.
`seqs.dfy` holds generic sequence facts. `wrappers.dfy` defines `Option` and `Result`.

Every external service becomes a parameter of the model. The parameters are:

- `fetch`: the HTTP and search-engine calls, from request parameters to the response or the exception;
- `llm`: the chat-completion call, from prompt and attempt number to the reply;
- `parse`: `json.loads`;
- `detect`: the language detector, `None` standing for a `LangDetectException`;
- `matches`: the phrase matcher, from language and text to the matched span texts;
- `nfd` and `isMn`: the Unicode decomposition and the "nonspacing mark" test;
- `lookup`: the identity service.

The vocabulary read from `skills.json` is an immutable `Vocab` value.

Some behaviours of the code are easy to misread. The model states each one as the code does it:

- Counts are occurrences in the flattened list, not distinct postings, although
  the percentage divides by `total_jobs_analyzed`. A posting whose extraction names
  a skill twice counts it twice, so a percentage can exceed 100 %
  (`MarketAnalyzer.PercentageCanExceedHundred`).
- The grouped view iterates over `CATEGORY_ORDER` only, so every other category,
  `"other"` included, is dropped (`MarketAnalyzer.OtherIsNotListed`).
- `extract_all_skills` returns one list per description that did not raise, not one
  slot per description, so a list's position need not match its description's
  (`GroqExtractor.DropsRaisedSlot`).
- The threshold is the fixed `MIN_PERCENTAGE` of 20.0 %. The tests in
  `joblyx_server/test/test_market_analyzer.py` (lines 46-77) call a `_get_min_percentage` that
  depends on volume and category, and the analyzer defines no such method.
- The orchestrator passes `num_pages` to SerpAPI in the `num_results` position, so a
  SerpAPI answer holds at most `num_pages` postings (`JobSearch.SerpApiFallbackCapped`).
- In the first analyzer every name the matcher reports is counted once per posting,
  so its percentages never exceed 100 % (`LegacyMarketAnalyzer.PercentAtMostHundred`).

## Model

| member | source | states |
|---|---|---|
| MarketAnalyzer.ProcessSkillsResults | joblyx_server/services/market_analysis/market_analyzer.py:50-63 | `all_skills` is every extracted name in posting order; `skill_categories` gives each name the category of its first extraction |
| Counting.AppendSkills | joblyx_server/services/market_analysis/market_analyzer.py:56-61 | the inner loop extends the flattened names and first categories by exactly one posting's list |
| Counting.FirstCategoriesKeys | joblyx_server/services/market_analysis/market_analyzer.py:59-61 | a name has a recorded category exactly when it was extracted |
| Counting.FirstCategoryWins | joblyx_server/services/market_analysis/market_analyzer.py:60-61 | a name's category is that of its first occurrence; later categories are ignored |
| Counting.FlattenedHaveCategories | joblyx_server/services/market_analysis/market_analyzer.py:113 | every counted name has a recorded category, so the `get` default is never used |
| Counting.NoJobs | joblyx_server/services/market_analysis/market_analyzer.py:92-99 | the no-postings answer has 0 jobs, no skills and the "No jobs found" message |
| Counting.DistinctInOrder | joblyx_server/services/market_analysis/market_analyzer.py:106 | the keys of a `Counter`: each distinct name once, and exactly the names of the input |
| Counting.DistinctInFirstSeenOrder | joblyx_server/services/market_analysis/market_analyzer.py:106 | the keys come in order of first occurrence |
| Counting.SortByCountSorted | joblyx_server/services/market_analysis/market_analyzer.py:112 | `most_common()` lists counts from highest to lowest |
| Counting.SortByCountStable | joblyx_server/services/market_analysis/market_analyzer.py:112 | `most_common()` is stable: names of equal count keep their order |
| Counting.InsertKeepsOrder | joblyx_server/services/market_analysis/market_analyzer.py:112 | inserting one name by count keeps a count-ordered list ordered |
| Counting.InsertStable | joblyx_server/services/market_analysis/market_analyzer.py:112 | an inserted name goes after the names of equal count already present |
| Counting.MostCommonOrder | joblyx_server/services/market_analysis/market_analyzer.py:112 | `most_common()` holds each distinct name once, counts non-increasing, ties in first-seen order |
| Counting.SubseqSortedByCount | joblyx_server/services/market_analysis/market_analyzer.py:112-132 | dropping names from a count-ordered list keeps it count-ordered |
| Counting.CountAtMostPostings | joblyx_server/services/market_analyzer.py:54-65 | when no posting's list repeats a name, no count exceeds the number of postings |
| Counting.DivModSpec | joblyx_server/services/market_analysis/market_analyzer.py:114 | the long division behind the percentage gives a quotient and a remainder below the divisor |
| Counting.TenthsNearest | joblyx_server/services/market_analysis/market_analyzer.py:114 | the percentage in tenths is a nearest integer to `1000 * count / total` |
| Counting.TenthsThreshold | joblyx_server/services/market_analysis/market_analyzer.py:114-117 | the rounded percentage reaches 20.0 % exactly when `count / total >= 0.1995` |
| Counting.TenthsMonotone | joblyx_server/services/market_analysis/market_analyzer.py:114 | more occurrences never give a smaller percentage |
| Counting.TenthsAtMostHundred | joblyx_server/services/market_analyzer.py:69 | a count at most the number of postings gives at most 100.0 %, and equal to it gives exactly 100.0 % |
| MarketAnalyzer.SelectTopSkills | joblyx_server/services/market_analysis/market_analyzer.py:109-132 | the loop over `most_common()` computes the selection `SelectFrom`, whose properties are the lemmas below |
| MarketAnalyzer.SelectPrefix | joblyx_server/services/market_analysis/market_analyzer.py:122-127 | entries already appended to `top_skills` stay in front, unchanged |
| MarketAnalyzer.SelectEntries | joblyx_server/services/market_analysis/market_analyzer.py:112-127 | every new entry carries the name's occurrence count, its rounded percentage, its category, and passes the threshold |
| MarketAnalyzer.SelectInOrder | joblyx_server/services/market_analysis/market_analyzer.py:112 | the selected names are a subsequence of the candidates, in their order |
| MarketAnalyzer.SelectLength | joblyx_server/services/market_analysis/market_analyzer.py:131-132 | at most `max(top_n, 1)` entries are emitted |
| MarketAnalyzer.SelectCapped | joblyx_server/services/market_analysis/market_analyzer.py:119-129 | with `balanced`, `category_counts` tracks the emitted entries, so no category exceeds `MAX_PER_CATEGORY` |
| MarketAnalyzer.SelectCapOnlyDrops | joblyx_server/services/market_analysis/market_analyzer.py:116-129 | with `balanced`, a list that is not full names every threshold-passing candidate whose category still has a free slot: skipped skills use no slot |
| MarketAnalyzer.HeadSkipped | joblyx_server/services/market_analysis/market_analyzer.py:116-120 | a skipped candidate fails the threshold or finds its category full |
| MarketAnalyzer.SelectUnbalanced | joblyx_server/services/market_analysis/market_analyzer.py:112-132 | without `balanced`, the names are exactly the first `max(top_n, 1)` threshold-passing candidates |
| MarketAnalyzer.SelectStep | joblyx_server/services/market_analysis/market_analyzer.py:112-132 | one candidate is skipped under the threshold or over the cap; otherwise it is appended, and the loop stops at `top_n` entries |
| MarketAnalyzer.TopSkillsFacts | joblyx_server/services/market_analysis/market_analyzer.py:106-132 | `top_skills` entries come from the counts and pass the threshold; names are distinct and in `most_common` order; counts never increase; there are at most `max(top_n, 1)` entries |
| MarketAnalyzer.TopSkillsCategories | joblyx_server/services/market_analysis/market_analyzer.py:113 | every emitted category is that of the name's first extraction; `"other"` is never substituted |
| MarketAnalyzer.TopSkillsBalanced | joblyx_server/services/market_analysis/market_analyzer.py:42 | with `balanced`, no category has more than 5 entries |
| MarketAnalyzer.TopSkillsUnbalanced | joblyx_server/services/market_analysis/market_analyzer.py:112-132 | without `balanced`, `top_skills` names the first `max(top_n, 1)` passing names of `most_common()` |
| MarketAnalyzer.PercentageCanExceedHundred | joblyx_server/services/market_analysis/market_analyzer.py:106 | one posting whose extraction names a skill twice gives that skill a count of 2 and 200.0 % |
| MarketAnalyzer.SingleSkillTop | joblyx_server/services/market_analysis/market_analyzer.py:112-132 | when one name is all there is, `top_skills` is that name's entry if it passes 20.0 % and empty otherwise, for any number of postings, any `top_n` and both values of `balanced` |
| MarketAnalyzer.Group | joblyx_server/services/market_analysis/market_analyzer.py:188-197 | a category's collected entries are ranked names of that category that pass the threshold, with their true counts and percentages |
| MarketAnalyzer.GroupByCategory | joblyx_server/services/market_analysis/market_analyzer.py:187-197 | `by_category` maps each category to its passing names in ranking order, and holds no empty list |
| MarketAnalyzer.GroupSnoc | joblyx_server/services/market_analysis/market_analyzer.py:192-197 | one more ranked name adds its entry to its own category only, and only when it passes |
| MarketAnalyzer.IndexesStep | joblyx_server/services/market_analysis/market_analyzer.py:188-197 | one iteration of the grouping loop preserves the `by_category` invariant |
| MarketAnalyzer.OrderGroups | joblyx_server/services/market_analysis/market_analyzer.py:200-205 | `ordered` is, for each category of `CATEGORY_ORDER` with entries, its first 5 entries |
| MarketAnalyzer.IndexedGroup | joblyx_server/services/market_analysis/market_analyzer.py:202-205 | a category present in `by_category` holds its non-empty group; an absent one has none |
| MarketAnalyzer.OrderedKeys | joblyx_server/services/market_analysis/market_analyzer.py:200-205 | the groups come in `CATEGORY_ORDER` order, and only categories listed there appear |
| MarketAnalyzer.OrderedLists | joblyx_server/services/market_analysis/market_analyzer.py:203-205 | each group shown is non-empty and is the first 5 entries of its category |
| MarketAnalyzer.GroupSorted | joblyx_server/services/market_analysis/market_analyzer.py:188-197 | a group drawn from `most_common()` has non-increasing counts |
| MarketAnalyzer.TakenListed | joblyx_server/services/market_analysis/market_analyzer.py:203 | a non-empty group cut to 5 has 1 to 5 passing entries with true counts, most frequent first |
| MarketAnalyzer.OtherIsNotListed | joblyx_server/services/market_analysis/market_analyzer.py:200-205 | every category of the grouped view is one of `CATEGORY_ORDER` (lines 10-39), so `"other"` never appears in it |
| MarketAnalyzer.SkillsByCategoryFacts | joblyx_server/services/market_analysis/market_analyzer.py:187-205 | the grouped view lists only `CATEGORY_ORDER` categories, in that order; each list has 1 to 5 entries at or above 20.0 % with non-increasing counts |
| MarketAnalyzer.AnalyzeMarket | joblyx_server/services/market_analysis/market_analyzer.py:77-139 | no description gives the no-jobs answer; otherwise `total_jobs_analyzed` is the number of descriptions and `top_skills` is the selection over the extraction results |
| MarketAnalyzer.GetSkillsByCategory | joblyx_server/services/market_analysis/market_analyzer.py:155-212 | no description gives an empty grouping with the no-jobs message; otherwise the grouped view of the extraction results |
| LegacyMarketAnalyzer.Extracted | joblyx_server/services/market_analyzer.py:55 | one posting's matcher extraction names each skill at most once |
| LegacyMarketAnalyzer.ProcessDescriptions | joblyx_server/services/market_analyzer.py:51-63 | the loop yields the flattened matcher extractions and each name's first category |
| LegacyMarketAnalyzer.BuildTopSkills | joblyx_server/services/market_analyzer.py:67-75 | the loop builds one entry per ranked name, in ranking order |
| LegacyMarketAnalyzer.TopSkillsFacts | joblyx_server/services/market_analyzer.py:65-75 | `top_skills` holds `min(top_n, distinct names)` entries in `most_common` order, each with its occurrence count, its percentage and its first category; `"unknown"` is never used |
| LegacyMarketAnalyzer.PercentAtMostHundred | joblyx_server/services/market_analyzer.py:54-69 | no count exceeds the number of postings and no percentage exceeds 100.0 % |
| LegacyMarketAnalyzer.AnalyzeMarket | joblyx_server/services/market_analyzer.py:32-82 | no description gives the no-jobs answer; otherwise the top `top_n` skills of the matcher's extractions |
| LegacyMarketAnalyzer.AnalyzedNamesDistinct | joblyx_server/services/market_analyzer.py:68 | the top skills of an analysis have distinct names |
| LegacyMarketAnalyzer.GroupByCategory | joblyx_server/services/market_analyzer.py:108-117 | the grouping loop builds `by_category` in insertion order |
| LegacyMarketAnalyzer.TracksStep | joblyx_server/services/market_analyzer.py:109-117 | one iteration keeps the insertion order and contents of `by_category` in step with the skills seen |
| LegacyMarketAnalyzer.GroupedKeys | joblyx_server/services/market_analyzer.py:111-112 | the groups are the categories of `top_skills`, each once, in order of first appearance |
| LegacyMarketAnalyzer.GroupedCover | joblyx_server/services/market_analyzer.py:109-117 | every top skill is listed under its own category, and each group keeps `top_skills` order |
| LegacyMarketAnalyzer.GroupedOnlyOwnCategory | joblyx_server/services/market_analyzer.py:109-117 | with distinct names, a skill appears under its own category only |
| LegacyMarketAnalyzer.InCategoryInOrder | joblyx_server/services/market_analyzer.py:113-117 | a category's entries come in `top_skills` order |
| LegacyMarketAnalyzer.GetSkillsByCategory | joblyx_server/services/market_analyzer.py:103-124 | the zero-job analysis is returned unchanged; otherwise the top 50 skills grouped by category |
| GroqExtractor.CategoryOf | joblyx_server/services/market_analysis/groq_service.py:31-36 | the first category in vocabulary order whose list holds the name, or `"other"` when none does (also `services/groq_service.py` lines 29-34) |
| GroqExtractor.CategoryOfIsVocabularyPair | joblyx_server/services/market_analysis/groq_service.py:31-35 | a vocabulary name is paired with a category that really lists it |
| GroqExtractor.CleanResponse | joblyx_server/services/market_analysis/groq_service.py:116-125 | trim; drop a leading "```json", then a leading "```", then a trailing "```"; trim again (also `services/groq_service.py` lines 60-70) |
| GroqExtractor.JsonFenceRemoved | joblyx_server/services/market_analysis/groq_service.py:118-125 | a payload wrapped in a "```json" fence comes back trimmed and unwrapped |
| GroqExtractor.BareFenceRemoved | joblyx_server/services/market_analysis/groq_service.py:120-125 | a payload wrapped in a bare "```" fence comes back trimmed and unwrapped |
| GroqExtractor.UnfencedUnchanged | joblyx_server/services/market_analysis/groq_service.py:116-125 | a trimmed reply without fences passes through unchanged |
| GroqExtractor.FilterToVocabulary | joblyx_server/services/market_analysis/groq_service.py:126 | the kept names are the parsed names in the vocabulary, order and duplicates kept, all others dropped |
| GroqExtractor.Truncated | joblyx_server/services/market_analysis/groq_service.py:102 | at most 3000 characters, a prefix of the description, the whole of a short one |
| GroqExtractor.PromptIgnoresTail | joblyx_server/services/market_analysis/groq_service.py:94-105 | text after the first 3000 characters never reaches the service (also `services/groq_service.py` line 47) |
| GroqExtractor.AttemptOnce | joblyx_server/services/market_analysis/groq_service.py:108-128 | an extracted list holds only vocabulary names; a raised call fails with its message |
| GroqExtractor.ExtractSkills | joblyx_server/services/market_analysis/groq_service.py:38-79 | the synchronous extraction is one request whose failures all give `[]` |
| GroqExtractor.ExtractOnceFacts | joblyx_server/services/market_analysis/groq_service.py:54-79 | only vocabulary names; `[]` when the call raises or the reply does not parse; otherwise the parsed names filtered to the vocabulary (also `services/groq_service.py` lines 52-77) |
| GroqExtractor.WithCategories | joblyx_server/services/market_analysis/groq_service.py:86-89 | one record per name, same order, each with its looked-up category |
| GroqExtractor.WithCategoriesArePairs | joblyx_server/services/market_analysis/groq_service.py:86-89 | every record built from vocabulary names pairs a name with a category listing it |
| GroqExtractor.ExtractSkillsList | joblyx_server/services/market_analysis/groq_service.py:81-89 | one record per extracted name, in extraction order, each a vocabulary pair (also `services/groq_service.py` lines 79-87) |
| GroqExtractor.RetryLoop | joblyx_server/services/market_analysis/groq_service.py:107-139 | the loop's skills, waits and request count are those of the retry specification `RetryFrom` |
| GroqExtractor.RetryNext | joblyx_server/services/market_analysis/groq_service.py:107-136 | success ends the run; a rate limit records a `(k + 1) * 15` s wait and goes on; any other error ends the run with `[]` |
| GroqExtractor.RetryBounds | joblyx_server/services/market_analysis/groq_service.py:107-139 | at most `max_retries` requests and at most one wait per request; the wait after attempt `k` is `(k + 1) * 15` s; the skills come from a successful attempt or are `[]` |
| GroqExtractor.RetryStopsOnOtherError | joblyx_server/services/market_analysis/groq_service.py:134-136 | after rate limits, a non-rate-limit error ends the run at once with `[]` |
| GroqExtractor.RetrySucceedsAt | joblyx_server/services/market_analysis/groq_service.py:125-126 | after rate limits, the first success is returned, after one wait per earlier attempt |
| GroqExtractor.RetryAllRateLimited | joblyx_server/services/market_analysis/groq_service.py:138-139 | all attempts rate limited give `[]` after one wait per attempt |
| GroqExtractor.ThreeRateLimitsWait15To45 | joblyx_server/services/market_analysis/groq_service.py:131 | with the default 3 attempts all rate limited: `[]`, after waits of 15, 30 and 45 s |
| GroqExtractor.RetryFacts | joblyx_server/services/market_analysis/groq_service.py:107-139 | the retry loop makes at most `max_retries` requests, waits 15, 30, 45, ... s and returns only vocabulary names |
| GroqExtractor.ExtractSkillsAsync | joblyx_server/services/market_analysis/groq_service.py:91-139 | `extract_skills_async` meets the retry specification and its bounds |
| GroqExtractor.TryOnce | joblyx_server/services/market_analysis/groq_service.py:108-126 | one request, cleaned, parsed and filtered |
| GroqExtractor.ExtractSkillsListAsync | joblyx_server/services/market_analysis/groq_service.py:141-147 | the retried names, each paired with its category, in order; every record is a vocabulary pair |
| GroqExtractor.KeepLists | joblyx_server/services/market_analysis/groq_service.py:161 | the filter keeps only slots that returned a list, so there are at most as many results as descriptions |
| GroqExtractor.KeepListsFilter | joblyx_server/services/market_analysis/groq_service.py:161 | the kept lists, seen as slots, are exactly `[r for r in results if isinstance(r, list)]`: every returned slot, in description order, and no raised one |
| GroqExtractor.KeepListsInOrder | joblyx_server/services/market_analysis/groq_service.py:161 | every returned list is kept, and the kept lists are a subsequence of the slots |
| GroqExtractor.DropsRaisedSlot | joblyx_server/services/market_analysis/groq_service.py:158-161 | a raised slot between two returned ones gives both lists in order, so the later list moves up a place |
| GroqExtractor.KeepListsAllReturned | joblyx_server/services/market_analysis/groq_service.py:161 | when every slot returned, the filter keeps each slot in place |
| GroqExtractor.KeepAllReturned | joblyx_server/services/market_analysis/groq_service.py:158-161 | when no task raised, the filter returns every list, in description order |
| GroqExtractor.ExtractAllSkills | joblyx_server/services/market_analysis/groq_service.py:149-161 | one retried list per description, in description order; every record is a vocabulary pair |
| GroqExtractor.AllSkillListsArePairs | joblyx_server/services/market_analysis/groq_service.py:143-161 | every record of every description's list is a vocabulary pair |
| Vocabulary.SkillsListMembers | joblyx_server/services/market_analysis/groq_service.py:25-27 | a name is in the flat skills list exactly when some category lists it |
| SkillsMatcher.Matcher.constructor | joblyx_server/services/skills_matcher.py:24-28 | the dictionary and pattern list start empty and are then built from the vocabulary |
| SkillsMatcher.Matcher.BuildSkillMappings | joblyx_server/services/skills_matcher.py:42-64 | every assignment of the vocabulary is applied in order, and every key is appended to the patterns |
| SkillsMatcher.Matcher.AddCategory | joblyx_server/services/skills_matcher.py:47-64 | one category's assignments, skill by skill |
| SkillsMatcher.Matcher.AddSkill | joblyx_server/services/skills_matcher.py:48-64 | the lower-cased name's assignment, then one per non-empty variant, each also appended to the patterns |
| SkillsMatcher.VariantEntries | joblyx_server/services/skills_matcher.py:58-64 | every variant assignment carries the owning skill's record |
| SkillsMatcher.RunStep | joblyx_server/services/skills_matcher.py:46-64 | applying two runs of assignments in turn equals applying them together, for the dictionary and the patterns |
| SkillsMatcher.OverlayKeys | joblyx_server/services/skills_matcher.py:51-64 | the dictionary's keys are its old keys plus every assigned key |
| SkillsMatcher.OverlayLastWins | joblyx_server/services/skills_matcher.py:51-64 | a key keeps the record of its last assignment |
| SkillsMatcher.OverlayValues | joblyx_server/services/skills_matcher.py:51-64 | every record was there before or was assigned under that key |
| SkillsMatcher.SkillsEntriesOwners | joblyx_server/services/skills_matcher.py:47-64 | every assignment of a category records one of its skills with that category |
| SkillsMatcher.EntriesArePairs | joblyx_server/services/skills_matcher.py:46-64 | every assignment records a (canonical name, category) pair of the vocabulary |
| SkillsMatcher.EntriesCover | joblyx_server/services/skills_matcher.py:51-64 | every skill's lower-cased name and non-empty lower-cased variants are assigned the skill's own record |
| SkillsMatcher.MappingKeysArePatterns | joblyx_server/services/skills_matcher.py:51-64 | the dictionary's keys are exactly the patterns handed to the phrase matcher |
| SkillsMatcher.MappingCoversVocabulary | joblyx_server/services/skills_matcher.py:51-64 | every lower-cased name and non-empty lower-cased variant is a key |
| SkillsMatcher.MappingValuesArePairs | joblyx_server/services/skills_matcher.py:51-63 | every record in the dictionary is a vocabulary pair |
| SkillsMatcher.MappingLaterWins | joblyx_server/services/skills_matcher.py:51-63 | on a key collision the later vocabulary entry wins |
| SkillsMatcher.MappingWithoutCollisions | joblyx_server/services/skills_matcher.py:51-63 | without collisions, every pattern maps to the skill that produced it |
| SkillsMatcher.DetectLanguage | joblyx_server/services/skills_matcher.py:83-97 | only "en" or "fr", and "fr" exactly when the detector says French on the first 1000 characters |
| SkillsMatcher.DetectFailureIsEnglish | joblyx_server/services/skills_matcher.py:96-97 | a `LangDetectException` from the detector reads as English |
| SkillsMatcher.DetectIgnoresTail | joblyx_server/services/skills_matcher.py:94 | only the first 1000 characters decide the language |
| SkillsMatcher.Recognized | joblyx_server/services/skills_matcher.py:126-131 | matched spans whose lower-cased text is a key contribute their record; others contribute nothing |
| SkillsMatcher.FirstByName | joblyx_server/services/skills_matcher.py:161-174 | each canonical name once, every name seen kept, every record one of the input's |
| SkillsMatcher.FirstByNameKeepsFirst | joblyx_server/services/skills_matcher.py:166-169 | the record kept for a name is its first occurrence, with that occurrence's category |
| SkillsMatcher.FirstByNameInOrder | joblyx_server/services/skills_matcher.py:161-174 | the kept records are in order of first match |
| SkillsMatcher.FirstRecognizedKnown | joblyx_server/services/skills_matcher.py:166-169 | every kept record is a value of the vocabulary dictionary |
| SkillsMatcher.Matcher.ExtractSkills | joblyx_server/services/skills_matcher.py:99-134 | empty text gives `[]`; otherwise each recognised canonical name exactly once; every name comes from the dictionary |
| SkillsMatcher.Matcher.ExtractSkillsWithCategory | joblyx_server/services/skills_matcher.py:136-174 | empty text gives `[]`; otherwise one record per canonical name, in first-match order, with that match's category |
| SkillsMatcher.ListOf | joblyx_server/services/skills_matcher.py:134 | `list(found_skills)` holds each member of the set once |
| JSearch.QueryParam | joblyx_server/services/jsearch_service.py:30 | "{query} in {location}" when a location is given, the bare query otherwise |
| JSearch.Params | joblyx_server/services/jsearch_service.py:29-35 | the query and page vary; `num_pages` "3", country "ca" and date_posted "month" are fixed |
| JSearch.PagesAscending | joblyx_server/services/jsearch_service.py:28-35 | requests go to pages 1, 2, ... in order, never more than `num_pages` |
| JSearch.PagesStopEarly | joblyx_server/services/jsearch_service.py:47-55 | an empty or failed page ends the loop with the earlier pages concatenated |
| JSearch.PagesAllFetched | joblyx_server/services/jsearch_service.py:28-57 | when every page has postings, the result is all pages concatenated |
| JSearch.FirstPageFailure | joblyx_server/services/jsearch_service.py:47-55 | a failure or empty answer on page 1 gives no postings after one request |
| JSearch.PageLoop | joblyx_server/services/jsearch_service.py:26-57 | the loop's postings and requests are those of the page specification |
| JSearch.PageNext | joblyx_server/services/jsearch_service.py:37-55 | one page: a failure or empty page ends the run; otherwise its postings are appended and the next page follows |
| JSearch.SearchJobs | joblyx_server/services/jsearch_service.py:14-57 | at most `num_pages` requests, for pages 1, 2, ... in order |
| JSearch.GetJobDescriptions | joblyx_server/services/jsearch_service.py:59-79 | the non-empty descriptions of the postings found, in order |
| MarketJSearch.SearchJobs | joblyx_server/services/market_analysis/jsearch_service.py:23-59 | the page loop runs on the normalised query and location; pages ascend from 1; at most `num_pages` requests; no mark outside " in " in the query |
| MarketJSearch.GetJobDescriptions | joblyx_server/services/market_analysis/jsearch_service.py:61-70 | the non-empty descriptions of the postings found, in order |
| Jobs.AllDescriptions | joblyx_server/services/market_analysis/job_search_service.py:51 | each posting's `job_description`, a missing one as "" |
| Jobs.Descriptions | joblyx_server/services/market_analysis/job_search_service.py:50-53 | only non-empty descriptions are kept |
| Jobs.DescriptionsFilter | joblyx_server/services/market_analysis/job_search_service.py:50-53 | the kept descriptions are exactly the non-empty ones, in posting order |
| Jobs.DescriptionsInOrder | joblyx_server/services/market_analysis/job_search_service.py:50-55 | order is kept and every non-empty description is kept |
| Jobs.CollectDescriptions | joblyx_server/services/market_analysis/job_search_service.py:48-55 | the loop yields the filtered descriptions |
| Jobs.NormalizeText | joblyx_server/services/market_analysis/jsearch_service.py:6-11 | the result holds no nonspacing mark and is no longer than the decomposition |
| Jobs.NormalizeKeepsOthers | joblyx_server/services/market_analysis/serpapi_service.py:7-10 | the decomposed characters that are not marks are kept, in order |
| Jobs.NormalizeIdempotent | joblyx_server/services/market_analysis/serpapi_service.py:7-10 | normalising a normal form that is its own decomposition changes nothing |
| SerpApi.City | joblyx_server/services/market_analysis/serpapi_service.py:32 | "Canada" for an empty location, otherwise the trimmed text before the first comma |
| SerpApi.MapJob | joblyx_server/services/market_analysis/serpapi_service.py:59-66 | exactly the five fields, each copied from its source key or "", and country "CA" |
| SerpApi.MapJobs | joblyx_server/services/market_analysis/serpapi_service.py:59-66 | every result of a page, mapped, in order |
| SerpApi.AppendMapped | joblyx_server/services/market_analysis/serpapi_service.py:59-66 | the loop appends the mapped results after the postings already collected |
| SerpApi.LoopKeepsCollected | joblyx_server/services/market_analysis/serpapi_service.py:45-79 | the loop keeps what it collected whatever stops it; each later request carries the previous answer's token, other parameters unchanged |
| SerpApi.LoopJobsMapped | joblyx_server/services/market_analysis/serpapi_service.py:59-66 | every posting collected is a mapped result |
| SerpApi.LoopStep | joblyx_server/services/market_analysis/serpapi_service.py:45-79 | an error, empty page or exception stops with the postings so far; a page without a token stops after adding its postings; otherwise the loop goes on with the token |
| SerpApi.PageLoop | joblyx_server/services/market_analysis/serpapi_service.py:44-79 | the loop's postings and requests are those of the loop specification |
| SerpApi.LoopSameLanguage | joblyx_server/services/market_analysis/serpapi_service.py:41-74 | every request of one loop is in that loop's language |
| SerpApi.NoKeyNoRequest | joblyx_server/services/market_analysis/serpapi_service.py:24-26 | without an API key, nothing is requested and nothing found |
| SerpApi.SearchFacts | joblyx_server/services/market_analysis/serpapi_service.py:23-86 | at most `num_results` postings, each mapped; a search not in French, or a French one that finds postings, runs one loop, never retries and returns that loop's postings cut to `num_results`; a search not in French asks only in its own language |
| SerpApi.FrenchFallsBackOnce | joblyx_server/services/market_analysis/serpapi_service.py:82-84 | a French search that finds nothing returns exactly the English search's capped result, after the French requests |
| SerpApi.SearchJobs | joblyx_server/services/market_analysis/serpapi_service.py:23-86 | the search meets its specification and returns at most `num_results` postings |
| SerpApi.GetJobDescriptions | joblyx_server/services/market_analysis/serpapi_service.py:88-98 | `num_pages * 10` results in English, non-empty descriptions only, at most `num_pages * 10` of them |
| JobSearch.Fallback | joblyx_server/services/market_analysis/job_search_service.py:17-44 | JSearch's postings when it has some; otherwise SerpAPI's when it has some; otherwise `[]` and no provider |
| JobSearch.RateLimitIsOrdinaryFailure | joblyx_server/services/market_analysis/job_search_service.py:25-35 | a 429 from JSearch is handled exactly like any other failure or an empty answer |
| JobSearch.JSearchFirst | joblyx_server/services/market_analysis/job_search_service.py:19-24 | when JSearch has postings, SerpAPI's outcome plays no part |
| JobSearch.SerpApiFallbackCapped | joblyx_server/services/market_analysis/job_search_service.py:35 | with the SerpAPI client called as the line calls it, `num_pages` in the `num_results` position, a SerpAPI answer holds at most `num_pages` postings; as written, where JSearch is never used, every search does |
| JobSearch.FallbackAsWritten | joblyx_server/services/market_analysis/job_search_service.py:20 | as written, the provider is never "jsearch" |
| JobSearch.AsWrittenDiscardsJSearch | joblyx_server/services/market_analysis/job_search_service.py:19-44 | one JSearch posting and no SerpAPI posting give nothing as written, but that posting under the corrected fallback |
| JobSearch.JobSearchService.constructor | joblyx_server/services/market_analysis/job_search_service.py:12-15 | no search yet, no provider |
| JobSearch.JobSearchService.SearchJobs | joblyx_server/services/market_analysis/job_search_service.py:17-44 | the chosen postings are returned and their provider recorded in `last_provider` |
| JobSearch.JobSearchService.GetJobDescriptions | joblyx_server/services/market_analysis/job_search_service.py:46-55 | the non-empty descriptions of the chosen postings; `last_provider` is updated |
| JobSearch.JobSearchService.GetLastProvider | joblyx_server/services/market_analysis/job_search_service.py:57-59 | the provider of the last search: "jsearch", "serpapi" or none |
| Auth.GetUserIdFromToken | joblyx_server/services/auth/get_user.py:5-23 | a missing or empty header, a blank token and a failed lookup each give their own 401 error; success exactly when the lookup finds a user, with that user's id |
| Auth.Token | joblyx_server/services/auth/get_user.py:9 | the token is trimmed and no longer than the header |
| Auth.BearerHeaderYieldsToken | joblyx_server/services/auth/get_user.py:9 | "Bearer <token>" yields the token |
| Auth.RawTokenPassesThrough | joblyx_server/services/auth/get_user.py:9 | a bare token passes through unchanged |
| Auth.BlankHeaderIsInvalidFormat | joblyx_server/services/auth/get_user.py:6-11 | a header of blanks is present, so it fails as "Invalid token format" |
| Auth.LookupFailuresAgree | joblyx_server/services/auth/get_user.py:13-23 | a raised lookup and an empty answer give the same "Authentication failed" error |
| Strings.Strip | joblyx_server/services/auth/get_user.py:9 | `strip()` leaves no whitespace at either end, leaves a trimmed text alone, and is empty exactly for blank text |
| Strings.RemoveAll | joblyx_server/services/auth/get_user.py:9 | `replace(p, "")` never lengthens and leaves a text without `p` unchanged |
| Strings.BeforeComma | joblyx_server/services/market_analysis/serpapi_service.py:32 | the prefix before the first comma, holding no comma |
| Strings.NatToString | joblyx_server/services/jsearch_service.py:31 | `str(page)` is a non-empty string of digits |

## Left out

- Network, language-model and NLP calls are parameters: HTTP requests, the Google Jobs search,
  chat completions, `json.loads`, spaCy pipelines and phrase matching, and language detection.
  JSON values other than strings in a decoded reply are not modelled.
- Concurrency is left out. `asyncio.Semaphore`, `gather`, `to_thread` and `sleep` are modelled
  sequentially, and each backoff delay is returned as data instead of being waited.
- Loading `skills.json` (`_load_skills`, `_load_skills_reference`) is file I/O. The vocabulary is
  an immutable parameter.
- The cache lookup and cache save inside both analyzers are left out. So are the Supabase
  services, the routers, the application, the configuration and the response schemas.
- SkillsMatcher.DetectLanguage: only `LangDetectException` is caught; any other exception the
  detector raises propagates, and the model does not represent it.
- The `SkillsMatcher` singleton `__new__` and `_build_matcher` (spaCy patterns) are not part of this model.
- Printing and the SerpAPI `page` counter, which is used only in printed messages, are left out.
- Counting.Tenths: percentages are integer tenths, rounded half to even on the exact ratio
  `1000 * count / total`. CPython's rounding of the binary float `count / total * 100` can
  differ at exact ties, and the model does not claim bit-exact agreement.
- Jobs.NormalizeText: the Unicode decomposition and the "Mn" test are parameters. No Unicode
  table is modelled.
- Strings.Lower: lower-casing covers ASCII and Latin-1 letters only.
- GroqExtractor.ExtractAllSkills: no task raises in the model, because every exception inside
  `extract_skills_async` is caught there. The list filter therefore never drops a slot when
  applied to these results. `GroqExtractor.KeepLists` models the filter itself, failed slots included.
- SkillsMatcher.Matcher.ExtractSkills: the order of `list(found_skills)` is the set's own and is
  left unspecified. Only its members and their uniqueness are stated.
- JobSearch.JobSearchService.SearchJobs: it uses the corrected fallback described under Findings.
  JSearch's answer is taken as already awaited.
- Tests that call helpers absent from the source are not modelled. These helpers are a dynamic
  threshold, two-phase category balancing, an ambiguous-skill check, quota recording in the router,
  and a `normalize_text` in the first-generation JSearch client.

## Findings

| source | as written | input that shows it | evidently intended | confidence | as-written member | corrected member |
|---|---|---|---|---|---|---|
| joblyx_server/services/market_analysis/job_search_service.py:20 | `await` is applied to the synchronous `JSearchService.search_jobs`, whose list result is not awaitable. The `TypeError` is caught by `except Exception`, so JSearch's postings are always discarded. | JSearch returns one posting and SerpAPI returns none: the search gives `[]` and `last_provider` None | the JSearch posting is returned, with `last_provider` "jsearch" | not executed | JobSearch.FallbackAsWritten | JobSearch.Fallback |
