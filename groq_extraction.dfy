/**
 * The LLM-backed skill extractor `GroqSkillsExtractor`.
 *
 * The chat-completion service and `json.loads` are parameters of the model:
 * `llm(prompt, attempt)` is the reply to the `attempt`-th request made with
 * `prompt` (0-based), and `parse(text)` is what `json.loads(text)` yields,
 * either the strings of the decoded list or the message of the exception it
 * raises. Waiting is not performed: every backoff delay is returned as data.
 */
module GroqExtractor {
  import opened Seqs
  import opened Strings
  import opened Vocabulary

  const OTHER_CATEGORY := "other"
  const MAX_DESCRIPTION_CHARS := 3000
  const MAX_RETRIES := 3
  const BACKOFF_SECONDS := 15

  // ---------------------------------------------------------------- category lookup

  /** `_get_category` from index `k` on: the first category, in file order, whose list holds `name`. */
  function CategoryFrom(v: Vocab, name: string, k: nat): (r: string)
    requires k <= |v|
    ensures (forall i :: k <= i < |v| ==> name !in BlockNames(v[i])) ==> r == OTHER_CATEGORY
    ensures forall i :: k <= i < |v| && name in BlockNames(v[i]) && (forall j :: k <= j < i ==> name !in BlockNames(v[j]))
                        ==> r == v[i].category
    decreases |v| - k
  {
    if k == |v| then OTHER_CATEGORY
    else if name in BlockNames(v[k]) then v[k].category
    else CategoryFrom(v, name, k + 1)
  }

  /** `_get_category(name)`: the category of the first block listing `name`, or "other". */
  function CategoryOf(v: Vocab, name: string): (r: string)
    ensures name !in SkillsList(v) ==> r == OTHER_CATEGORY
    ensures forall i :: 0 <= i < |v| && name in BlockNames(v[i]) && (forall j :: 0 <= j < i ==> name !in BlockNames(v[j]))
                        ==> r == v[i].category
  {
    SkillsListMembers(v, name);
    CategoryFrom(v, name, 0)
  }

  /** A name the vocabulary lists is paired with a category that really lists it. */
  lemma CategoryOfIsVocabularyPair(v: Vocab, name: string)
    requires name in SkillsList(v)
    ensures IsVocabularyPair(v, SkillInfo(name, CategoryOf(v, name)))
  {
    SkillsListMembers(v, name);
    var i :| 0 <= i < |v| && name in BlockNames(v[i]);
    var k := 0;
    while name !in BlockNames(v[k])
      invariant 0 <= k <= i
      invariant forall j :: 0 <= j < k ==> name !in BlockNames(v[j])
      decreases i - k
    {
      k := k + 1;
    }
    var n :| 0 <= n < |v[k].skills| && BlockNames(v[k])[n] == name;
    assert SkillInfo(name, CategoryOf(v, name)) == SkillInfo(v[k].skills[n].name, v[k].category);
  }

  // ---------------------------------------------------------------- reply cleanup and filtering

  const JSON_FENCE: string := "```json"
  const FENCE: string := "```"

  /** Drops a leading "```json". */
  function DropJsonFence(c: string): string {
    if StartsWith(c, JSON_FENCE) then c[|JSON_FENCE|..] else c
  }

  /** Drops a leading "```". */
  function DropOpenFence(c: string): string {
    if StartsWith(c, FENCE) then c[|FENCE|..] else c
  }

  /** Drops a trailing "```". */
  function DropCloseFence(c: string): string {
    if EndsWith(c, FENCE) then c[..|c| - |FENCE|] else c
  }

  /** The reply text after the cleanup `extract_skills` applies before `json.loads`. */
  function Cleaned(raw: string): string {
    Strip(DropCloseFence(DropOpenFence(DropJsonFence(Strip(raw)))))
  }

  /**
   * The cleanup as the source performs it: trim, drop a leading "```json", then a
   * leading "```", then a trailing "```", and trim again.
   */
  method CleanResponse(raw: string) returns (content: string)
    ensures content == Cleaned(raw)
  {
    content := Strip(raw);
    content := DropFences(content);
    content := Strip(content);
  }

  /** The three fence checks between the two `strip()` calls. */
  method DropFences(trimmed: string) returns (content: string)
    ensures content == DropCloseFence(DropOpenFence(DropJsonFence(trimmed)))
  {
    content := trimmed;
    if StartsWith(content, JSON_FENCE) {
      content := content[|JSON_FENCE|..];
    }
    assert content == DropJsonFence(trimmed);
    ghost var unfenced := content;
    if StartsWith(content, FENCE) {
      content := content[|FENCE|..];
    }
    assert content == DropOpenFence(unfenced);
    ghost var closing := content;
    if EndsWith(content, FENCE) {
      content := content[..|content| - |FENCE|];
    }
    assert content == DropCloseFence(closing);
  }

  /** A payload wrapped in a "```json" fence comes back trimmed and unwrapped. */
  lemma JsonFenceRemoved(p: string)
    requires p == [] || p[0] != '`'
    ensures Cleaned(JSON_FENCE + p + FENCE) == Strip(p)
  {
    var s := JSON_FENCE + p + FENCE;
    FencedTrimmed(JSON_FENCE, p);
    assert s[..|JSON_FENCE|] == JSON_FENCE && s[|JSON_FENCE|..] == p + FENCE;
    assert DropJsonFence(s) == p + FENCE;
    AfterOpening(p);
  }

  /** A payload wrapped in a bare "```" fence comes back trimmed and unwrapped. */
  lemma BareFenceRemoved(p: string)
    requires p == [] || (p[0] != '`' && !StartsWith(p, "json"))
    ensures Cleaned(FENCE + p + FENCE) == Strip(p)
  {
    var s := FENCE + p + FENCE;
    FencedTrimmed(FENCE, p);
    NotJsonFenced(p);
    assert s[..|FENCE|] == FENCE && s[|FENCE|..] == p + FENCE;
    assert DropOpenFence(s) == p + FENCE;
    ClosingDropped(p);
  }

  /** Text after a bare fence that does not read "json" does not make a "```json" fence. */
  lemma NotJsonFenced(p: string)
    requires p == [] || (p[0] != '`' && !StartsWith(p, "json"))
    ensures !StartsWith(FENCE + p + FENCE, JSON_FENCE)
  {
    var s := FENCE + p + FENCE;
    if p == [] {
      assert |s| < |JSON_FENCE|;
    } else if |p| < 4 {
      assert s[6] == '`' && JSON_FENCE[6] == 'n';
    } else {
      assert s[3..7] == p[..4];
      assert JSON_FENCE[3..7] == "json";
    }
  }

  /** A fenced text starts and ends with a backquote, so trimming leaves it alone. */
  lemma FencedTrimmed(opening: string, p: string)
    requires opening != [] && opening[0] == '`'
    ensures Strip(opening + p + FENCE) == opening + p + FENCE
  {
    var s := opening + p + FENCE;
    assert s[0] == '`' && s[|s| - 1] == '`';
    assert Trimmed(s);
  }

  /** What is left after the opening fence: the payload and the closing fence. */
  lemma AfterOpening(p: string)
    requires p == [] || p[0] != '`'
    ensures Strip(DropCloseFence(DropOpenFence(p + FENCE))) == Strip(p)
  {
    if p == [] {
      assert p + FENCE == FENCE && FENCE[..3] == FENCE;
      assert DropOpenFence(p + FENCE) == [];
    } else {
      assert (p + FENCE)[0] == p[0];
      assert DropOpenFence(p + FENCE) == p + FENCE;
      ClosingDropped(p);
    }
  }

  lemma ClosingDropped(p: string)
    ensures DropCloseFence(p + FENCE) == p
  {
    var q := p + FENCE;
    assert q[|q| - 3..] == FENCE;
    assert q[..|q| - 3] == p;
  }

  /** A reply that is already a trimmed, unfenced payload passes through unchanged. */
  lemma UnfencedUnchanged(p: string)
    requires Strip(p) == p
    requires !StartsWith(p, "```") && !EndsWith(p, "```")
    ensures Cleaned(p) == p
  {
    assert !StartsWith(p, "```json") by {
      if |p| >= 7 {
        assert p[..7][..3] == p[..3];
      }
    }
  }

  /**
   * `[s for s in skills if s in self.skills_list]`: order and duplicates are kept,
   * names outside the vocabulary are dropped.
   */
  function FilterToVocabulary(v: Vocab, items: seq<string>): (r: seq<string>)
    ensures IsSubseq(r, items)
    ensures forall i :: 0 <= i < |r| ==> r[i] in SkillsList(v)
    ensures forall x :: multiset(r)[x] == if x in SkillsList(v) then multiset(items)[x] else 0
  {
    var listed := (x: string) => x in SkillsList(v);
    FilterIsSubseq(items, listed);
    FilterCountAll(items, listed);
    Filter(items, listed)
  }

  // ---------------------------------------------------------------- the prompt

  /** `job_description[:3000]`. */
  function Truncated(desc: string): (r: string)
    ensures |r| <= MAX_DESCRIPTION_CHARS && |r| <= |desc| && r == desc[..|r|]
    ensures |desc| <= MAX_DESCRIPTION_CHARS ==> r == desc
  {
    Take(desc, MAX_DESCRIPTION_CHARS)
  }

  /** The fixed parts of the request text, around the skill list and the posting. */
  const PROMPT_HEAD: string := "Extract technical skills from this job posting.\n\nRULES:\n1. ONLY return skills from this list: "
  const PROMPT_RULES: string := "\n2. Return ONLY a JSON array, nothing else\n3. Ignore skills not in the list\n\nJOB POSTING:\n"
  const PROMPT_FORMAT: string := "\n\nRETURN FORMAT (JSON array only):\n[\"Python\", \"React\", \"AWS\"]"

  /** The request text: the vocabulary as a comma-separated list and the truncated posting. */
  function Prompt(v: Vocab, desc: string): string {
    PROMPT_HEAD + Join(", ", SkillsList(v)) + PROMPT_RULES + Truncated(desc) + PROMPT_FORMAT
  }

  /** Text after the first 3000 characters never reaches the service. */
  lemma PromptIgnoresTail(v: Vocab, desc: string, tail: string)
    requires |desc| >= MAX_DESCRIPTION_CHARS
    ensures Prompt(v, desc + tail) == Prompt(v, desc)
  {
    assert Truncated(desc + tail) == Truncated(desc);
  }

  // ---------------------------------------------------------------- one request

  /** What the chat-completion call returns: the message content, or the exception it raised. */
  datatype Reply = Completion(content: string) | RaisedError(message: string)

  /** What `json.loads` gives: the strings of the decoded list, or the message of its exception. */
  datatype ParseResult = Parsed(items: seq<string>) | ParseError(message: string)

  /** The outcome of one pass through the `try` block. */
  datatype Attempt = Extracted(skills: seq<string>) | Failed(message: string)

  /** One pass through the `try` block: call, clean, decode, filter. Any exception becomes `Failed`. */
  function AttemptOnce(v: Vocab, reply: Reply, parse: string -> ParseResult): (a: Attempt)
    ensures a.Extracted? ==> forall i :: 0 <= i < |a.skills| ==> a.skills[i] in SkillsList(v)
    ensures reply.RaisedError? ==> a == Failed(reply.message)
  {
    match reply
    case RaisedError(m) => Failed(m)
    case Completion(c) =>
      match parse(Cleaned(c))
      case ParseError(m) => Failed(m)
      case Parsed(items) => Extracted(FilterToVocabulary(v, items))
  }

  /** `"429" in error_str or "rate_limit" in error_str`. */
  predicate IsRateLimit(message: string) {
    Contains(message, "429") || Contains(message, "rate_limit")
  }

  /** The synchronous `extract_skills`: one request, and `[]` on any exception. */
  function ExtractOnce(v: Vocab, desc: string, llm: (string, nat) -> Reply, parse: string -> ParseResult): seq<string> {
    match AttemptOnce(v, llm(Prompt(v, desc), 0), parse)
    case Extracted(skills) => skills
    case Failed(_) => []
  }

  /** `extract_skills`: a single request whose failures of every kind yield no skills. */
  method ExtractSkills(v: Vocab, desc: string, llm: (string, nat) -> Reply, parse: string -> ParseResult)
    returns (skills: seq<string>)
    ensures skills == ExtractOnce(v, desc, llm, parse)
  {
    var prompt := Prompt(v, desc);
    var reply := llm(prompt, 0);
    OnceOf(v, desc, llm, parse, reply);
    match reply
    case RaisedError(m) =>
      skills := [];
    case Completion(raw) =>
      var content := CleanResponse(raw);
      match parse(content)
      case ParseError(m) =>
        skills := [];
      case Parsed(items) =>
        skills := FilterToVocabulary(v, items);
  }

  lemma OnceOf(v: Vocab, desc: string, llm: (string, nat) -> Reply, parse: string -> ParseResult, reply: Reply)
    requires reply == llm(Prompt(v, desc), 0)
    ensures ExtractOnce(v, desc, llm, parse) == match AttemptOnce(v, reply, parse)
      case Extracted(skills) => skills
      case Failed(_) => []
  {
  }

  /**
   * One extraction returns only vocabulary skills; nothing when the call
   * raises or its cleaned content does not parse; otherwise the parsed items
   * that are in the vocabulary.
   */
  lemma ExtractOnceFacts(v: Vocab, desc: string, llm: (string, nat) -> Reply, parse: string -> ParseResult)
    ensures var skills, reply := ExtractOnce(v, desc, llm, parse), llm(Prompt(v, desc), 0);
      && (forall i :: 0 <= i < |skills| ==> skills[i] in SkillsList(v))
      && (reply.RaisedError? ==> skills == [])
      && (reply.Completion? && parse(Cleaned(reply.content)).ParseError? ==> skills == [])
      && (reply.Completion? && parse(Cleaned(reply.content)).Parsed? ==>
            skills == FilterToVocabulary(v, parse(Cleaned(reply.content)).items))
  {
  }

  /** `[{"name": s, "category": self._get_category(s)} for s in skills]`. */
  function WithCategories(v: Vocab, names: seq<string>): (r: seq<SkillInfo>)
    ensures |r| == |names|
    ensures forall i :: 0 <= i < |r| ==> r[i].name == names[i] && r[i].category == CategoryOf(v, names[i])
    ensures forall i :: 0 <= i < |r| && names[i] !in SkillsList(v) ==> r[i].category == OTHER_CATEGORY
  {
    seq(|names|, i requires 0 <= i < |names| => SkillInfo(names[i], CategoryOf(v, names[i])))
  }

  /** Every record built from extracted names pairs a vocabulary name with a category listing it. */
  lemma WithCategoriesArePairs(v: Vocab, names: seq<string>)
    requires forall i :: 0 <= i < |names| ==> names[i] in SkillsList(v)
    ensures forall i :: 0 <= i < |names| ==> IsVocabularyPair(v, WithCategories(v, names)[i])
  {
    forall i | 0 <= i < |names|
      ensures IsVocabularyPair(v, WithCategories(v, names)[i])
    {
      CategoryOfIsVocabularyPair(v, names[i]);
    }
  }

  /** `extract_skills_list`: one record per extracted name, in extraction order. */
  method ExtractSkillsList(v: Vocab, desc: string, llm: (string, nat) -> Reply, parse: string -> ParseResult)
    returns (infos: seq<SkillInfo>)
    ensures infos == WithCategories(v, ExtractOnce(v, desc, llm, parse))
    ensures forall i :: 0 <= i < |infos| ==> IsVocabularyPair(v, infos[i])
  {
    var skills := ExtractSkills(v, desc, llm, parse);
    infos := WithCategories(v, skills);
    WithCategoriesArePairs(v, skills);
  }

  // ---------------------------------------------------------------- the retry loop

  /** The observable result of the retry loop: the skills, every backoff delay in order, and the number of requests. */
  datatype RetryRun = RetryRun(skills: seq<string>, waits: seq<nat>, calls: nat)

  /** What 0-based attempt `k` of one description yields: the reply to request `k`, cleaned, parsed and filtered. */
  function Outcomes(v: Vocab, prompt: string, llm: (string, nat) -> Reply, parse: string -> ParseResult): nat -> Attempt {
    (k: nat) => AttemptOnce(v, llm(prompt, k), parse)
  }

  /** Attempt `k` failed with a message the handler reads as a rate limit. */
  predicate RateLimitedAt(outcome: nat -> Attempt, k: nat) {
    outcome(k).Failed? && IsRateLimit(outcome(k).message)
  }

  /** The `for attempt in range(max_retries)` loop of `extract_skills_async`, from attempt `k` on. */
  function RetryFrom(outcome: nat -> Attempt, k: nat, maxRetries: int): RetryRun
    decreases maxRetries - k
  {
    if k >= maxRetries then RetryRun([], [], 0)
    else
      match outcome(k)
      case Extracted(skills) => RetryRun(skills, [], 1)
      case Failed(m) =>
        if IsRateLimit(m) then
          var rest := RetryFrom(outcome, k + 1, maxRetries);
          RetryRun(rest.skills, [(k + 1) * BACKOFF_SECONDS] + rest.waits, rest.calls + 1)
        else RetryRun([], [], 1)
  }

  /**
   * At most `maxRetries - k` requests, at most one wait per request, the wait
   * after 0-based attempt `j` is `(j + 1) * 15` seconds, and the skills are
   * those of a successful attempt or none.
   */
  lemma {:induction false} RetryBounds(outcome: nat -> Attempt, k: nat, maxRetries: int)
    ensures var r := RetryFrom(outcome, k, maxRetries);
      && (if k < maxRetries then r.calls <= maxRetries - k else r.calls == 0)
      && |r.waits| <= r.calls
      && (forall i :: 0 <= i < |r.waits| ==> r.waits[i] == (k + i + 1) * BACKOFF_SECONDS)
      && (r.skills == [] || exists j :: k <= j < maxRetries && outcome(j) == Extracted(r.skills))
    decreases maxRetries - k
  {
    if k < maxRetries && RateLimitedAt(outcome, k) {
      RetryBounds(outcome, k + 1, maxRetries);
      var rest := RetryFrom(outcome, k + 1, maxRetries);
      var r := RetryFrom(outcome, k, maxRetries);
      assert r.waits == [(k + 1) * BACKOFF_SECONDS] + rest.waits;
      forall i | 1 <= i < |r.waits|
        ensures r.waits[i] == (k + i + 1) * BACKOFF_SECONDS
      {
        assert r.waits[i] == rest.waits[i - 1];
      }
    }
  }

  /**
   * When attempts `k..n-1` were all rate limited and attempt `n` fails with any
   * other error, the run ends there: no skills, `n - k` waits, `n - k + 1` requests.
   */
  lemma {:induction false} RetryStopsOnOtherError(outcome: nat -> Attempt, k: nat, n: nat, maxRetries: int)
    requires k <= n < maxRetries
    requires forall j :: k <= j < n ==> RateLimitedAt(outcome, j)
    requires outcome(n).Failed? && !IsRateLimit(outcome(n).message)
    ensures var r := RetryFrom(outcome, k, maxRetries);
      r.skills == [] && |r.waits| == n - k && r.calls == n - k + 1
    decreases n - k
  {
    if k < n {
      assert RateLimitedAt(outcome, k);
      RetryStopsOnOtherError(outcome, k + 1, n, maxRetries);
    }
  }

  /**
   * When attempts `k..n-1` were all rate limited and attempt `n` succeeds, its
   * filtered names are the result, after `n - k` waits and `n - k + 1` requests.
   */
  lemma {:induction false} RetrySucceedsAt(outcome: nat -> Attempt, k: nat, n: nat, maxRetries: int)
    requires k <= n < maxRetries
    requires forall j :: k <= j < n ==> RateLimitedAt(outcome, j)
    requires outcome(n).Extracted?
    ensures var r := RetryFrom(outcome, k, maxRetries);
      r.skills == outcome(n).skills && |r.waits| == n - k && r.calls == n - k + 1
    decreases n - k
  {
    if k < n {
      assert RateLimitedAt(outcome, k);
      RetrySucceedsAt(outcome, k + 1, n, maxRetries);
    }
  }

  /** When every attempt is rate limited, the result is empty after one wait per attempt. */
  lemma {:induction false} RetryAllRateLimited(outcome: nat -> Attempt, k: nat, maxRetries: int)
    requires forall j :: k <= j < maxRetries ==> RateLimitedAt(outcome, j)
    ensures var r := RetryFrom(outcome, k, maxRetries);
      r.skills == [] && |r.waits| == r.calls && r.calls == (if k < maxRetries then maxRetries - k else 0)
    decreases maxRetries - k
  {
    if k < maxRetries {
      assert RateLimitedAt(outcome, k);
      RetryAllRateLimited(outcome, k + 1, maxRetries);
    }
  }

  /** With the default three attempts all rate limited: nothing, after waiting 15, 30 and 45 seconds. */
  lemma ThreeRateLimitsWait15To45(outcome: nat -> Attempt)
    requires forall j :: 0 <= j < MAX_RETRIES ==> RateLimitedAt(outcome, j)
    ensures RetryFrom(outcome, 0, MAX_RETRIES) == RetryRun([], [15, 30, 45], 3)
  {
    RetryAllRateLimited(outcome, 0, MAX_RETRIES);
    RetryBounds(outcome, 0, MAX_RETRIES);
  }

  /**
   * The retry loop of one prompt makes at most `maxRetries` requests, waits
   * 15, 30, 45, ... seconds, and returns only vocabulary names.
   */
  lemma RetryFacts(v: Vocab, prompt: string, llm: (string, nat) -> Reply, parse: string -> ParseResult,
                   maxRetries: int)
    ensures var r := RetryFrom(Outcomes(v, prompt, llm, parse), 0, maxRetries);
      && r.calls <= (if maxRetries < 0 then 0 else maxRetries)
      && |r.waits| <= r.calls
      && (forall i :: 0 <= i < |r.waits| ==> r.waits[i] == (i + 1) * BACKOFF_SECONDS)
      && (forall i :: 0 <= i < |r.skills| ==> r.skills[i] in SkillsList(v))
  {
    var outcome := Outcomes(v, prompt, llm, parse);
    RetryBounds(outcome, 0, maxRetries);
    var r := RetryFrom(outcome, 0, maxRetries);
    if r.skills != [] {
      var j :| 0 <= j < maxRetries && outcome(j) == Extracted(r.skills);
      assert AttemptOnce(v, llm(prompt, j), parse) == Extracted(r.skills);
    }
  }

  /**
   * `extract_skills_async`: up to `maxRetries` requests; a rate-limit failure on
   * attempt `k` records a wait of `(k + 1) * 15` seconds and tries again, any
   * other failure gives `[]` at once, and running out of attempts gives `[]`.
   */
  method ExtractSkillsAsync(v: Vocab, desc: string, llm: (string, nat) -> Reply, parse: string -> ParseResult,
                            maxRetries: int)
    returns (skills: seq<string>, waits: seq<nat>, calls: nat)
    ensures RetryRun(skills, waits, calls) == RetryFrom(Outcomes(v, Prompt(v, desc), llm, parse), 0, maxRetries)
    ensures calls <= (if maxRetries < 0 then 0 else maxRetries)
    ensures |waits| <= calls
    ensures forall i :: 0 <= i < |waits| ==> waits[i] == (i + 1) * BACKOFF_SECONDS
    ensures forall i :: 0 <= i < |skills| ==> skills[i] in SkillsList(v)
  {
    skills, waits, calls := RetryLoop(v, Prompt(v, desc), llm, parse, maxRetries);
    RetryFacts(v, Prompt(v, desc), llm, parse, maxRetries);
  }

  /** The body of `extract_skills_async` once the prompt is built. */
  method RetryLoop(v: Vocab, prompt: string, llm: (string, nat) -> Reply, parse: string -> ParseResult, maxRetries: int)
    returns (skills: seq<string>, waits: seq<nat>, calls: nat)
    ensures RetryRun(skills, waits, calls) == RetryFrom(Outcomes(v, prompt, llm, parse), 0, maxRetries)
  {
    ghost var outcome := Outcomes(v, prompt, llm, parse);
    waits, calls := [], 0;
    var attempt: nat := 0;
    while attempt < maxRetries
      invariant RetryFrom(outcome, 0, maxRetries) == Waited(waits, calls, RetryFrom(outcome, attempt, maxRetries))
      decreases maxRetries - attempt
    {
      var a := TryOnce(v, prompt, llm, parse, attempt);
      assert a == outcome(attempt);
      RetryNext(outcome, attempt, maxRetries, waits, calls);
      match a
      case Extracted(found) =>
        skills, calls := found, calls + 1;
        return;
      case Failed(m) =>
        if IsRateLimit(m) {
          // the source sleeps here; the delay is recorded instead
          waits, calls := waits + [(attempt + 1) * BACKOFF_SECONDS], calls + 1;
        } else {
          skills, calls := [], calls + 1;
          return;
        }
      attempt := attempt + 1;
    }
    skills := [];
    WaitedLast(waits, calls, [], 0);
  }

  /** One attempt of the loop, with `waits` and `calls` recorded before it. */
  lemma RetryNext(outcome: nat -> Attempt, k: nat, maxRetries: int, waits: seq<nat>, calls: nat)
    requires k < maxRetries
    requires RetryFrom(outcome, 0, maxRetries) == Waited(waits, calls, RetryFrom(outcome, k, maxRetries))
    ensures outcome(k).Extracted? ==> RetryFrom(outcome, 0, maxRetries) == RetryRun(outcome(k).skills, waits, calls + 1)
    ensures RateLimitedAt(outcome, k) ==>
      RetryFrom(outcome, 0, maxRetries)
        == Waited(waits + [(k + 1) * BACKOFF_SECONDS], calls + 1, RetryFrom(outcome, k + 1, maxRetries))
    ensures outcome(k).Failed? && !IsRateLimit(outcome(k).message) ==>
      RetryFrom(outcome, 0, maxRetries) == RetryRun([], waits, calls + 1)
  {
    RetryStep(outcome, k, maxRetries);
    if outcome(k).Extracted? {
      WaitedLast(waits, calls, outcome(k).skills, 1);
    } else if IsRateLimit(outcome(k).message) {
      WaitedStep(waits, calls, (k + 1) * BACKOFF_SECONDS, RetryFrom(outcome, k + 1, maxRetries));
    } else {
      WaitedLast(waits, calls, [], 1);
    }
  }

  /** A run that ends after `n` more calls and no more waits. */
  lemma WaitedLast(waits: seq<nat>, calls: nat, skills: seq<string>, n: nat)
    ensures Waited(waits, calls, RetryRun(skills, [], n)) == RetryRun(skills, waits, calls + n)
  {
    assert waits + [] == waits;
  }

  /** The run of a loop that had already waited `waits` over `calls` requests. */
  function Waited(waits: seq<nat>, calls: nat, rest: RetryRun): RetryRun {
    RetryRun(rest.skills, waits + rest.waits, calls + rest.calls)
  }

  lemma WaitedStep(waits: seq<nat>, calls: nat, wait: nat, rest: RetryRun)
    ensures Waited(waits, calls, RetryRun(rest.skills, [wait] + rest.waits, rest.calls + 1))
         == Waited(waits + [wait], calls + 1, rest)
  {
    assert waits + ([wait] + rest.waits) == (waits + [wait]) + rest.waits;
  }

  /** One attempt of the loop, unfolded. */
  lemma RetryStep(outcome: nat -> Attempt, k: nat, maxRetries: int)
    requires k < maxRetries
    ensures outcome(k).Extracted? ==> RetryFrom(outcome, k, maxRetries) == RetryRun(outcome(k).skills, [], 1)
    ensures RateLimitedAt(outcome, k) ==>
      var rest := RetryFrom(outcome, k + 1, maxRetries);
      RetryFrom(outcome, k, maxRetries) == RetryRun(rest.skills, [(k + 1) * BACKOFF_SECONDS] + rest.waits, rest.calls + 1)
    ensures outcome(k).Failed? && !IsRateLimit(outcome(k).message) ==> RetryFrom(outcome, k, maxRetries) == RetryRun([], [], 1)
  {
  }

  /** One request of the retry loop's `try` block: ask, clean the reply, parse it, keep vocabulary names. */
  method TryOnce(v: Vocab, prompt: string, llm: (string, nat) -> Reply, parse: string -> ParseResult, attempt: nat)
    returns (a: Attempt)
    ensures a == AttemptOnce(v, llm(prompt, attempt), parse)
  {
    match llm(prompt, attempt)
    case RaisedError(m) =>
      a := Failed(m);
    case Completion(raw) =>
      var content := CleanResponse(raw);
      match parse(content)
      case ParseError(m) =>
        a := Failed(m);
      case Parsed(items) =>
        a := Extracted(FilterToVocabulary(v, items));
  }

  /** `extract_skills_list_async`: the retried extraction, each name paired with its category. */
  method ExtractSkillsListAsync(v: Vocab, desc: string, llm: (string, nat) -> Reply, parse: string -> ParseResult,
                                maxRetries: int)
    returns (infos: seq<SkillInfo>, waits: seq<nat>, calls: nat)
    ensures infos == WithCategories(v, RetryFrom(Outcomes(v, Prompt(v, desc), llm, parse), 0, maxRetries).skills)
    ensures waits == RetryFrom(Outcomes(v, Prompt(v, desc), llm, parse), 0, maxRetries).waits
    ensures calls == RetryFrom(Outcomes(v, Prompt(v, desc), llm, parse), 0, maxRetries).calls
    ensures forall i :: 0 <= i < |infos| ==> IsVocabularyPair(v, infos[i])
  {
    var skills;
    skills, waits, calls := ExtractSkillsAsync(v, desc, llm, parse, maxRetries);
    infos := WithCategories(v, skills);
    WithCategoriesArePairs(v, skills);
  }

  // ---------------------------------------------------------------- batch extraction

  /** The outcome of one task under `asyncio.gather(..., return_exceptions=True)`. */
  datatype TaskOutcome = Returned(infos: seq<SkillInfo>) | TaskRaised

  /** `[r for r in results if isinstance(r, list)]`: the slots that returned, in description order (`KeepListsFilter`). */
  function KeepLists(results: seq<TaskOutcome>): (r: seq<seq<SkillInfo>>)
    ensures |r| <= |results|
    ensures (forall i :: 0 <= i < |results| ==> results[i].Returned?) ==> |r| == |results|
    ensures forall i :: 0 <= i < |r| ==> Returned(r[i]) in results
  {
    if results == [] then []
    else
      var init := KeepLists(results[..|results| - 1]);
      match results[|results| - 1]
      case Returned(infos) => init + [infos]
      case TaskRaised => init
  }

  /** `isinstance(r, list)`. */
  predicate IsReturned(o: TaskOutcome) {
    o.Returned?
  }

  /**
   * The list filter is exactly the comprehension `[r for r in results if
   * isinstance(r, list)]`: the kept lists, seen again as slots, are the
   * returned slots, all of them, in description order.
   */
  lemma {:induction false} KeepListsFilter(results: seq<TaskOutcome>)
    ensures AllReturned(KeepLists(results)) == Filter(results, IsReturned)
    decreases |results|
  {
    if results != [] {
      var init := results[..|results| - 1];
      var last := results[|results| - 1];
      KeepListsFilter(init);
      assert results == init + [last];
      FilterAppend(init, [last], IsReturned);
      FilterSingleton(last, IsReturned);
      if last.Returned? {
        var kept := KeepLists(init) + [last.infos];
        assert kept[..|kept| - 1] == KeepLists(init);
        AllReturnedLast(kept);
      }
    }
  }

  /** Every returned list is kept, and the kept lists keep description order. */
  lemma KeepListsInOrder(results: seq<TaskOutcome>)
    ensures IsSubseq(AllReturned(KeepLists(results)), results)
    ensures forall i :: 0 <= i < |results| && results[i].Returned? ==> results[i].infos in KeepLists(results)
  {
    KeepListsFilter(results);
    FilterIsSubseq(results, IsReturned);
    var kept := KeepLists(results);
    AllReturnedAt(kept);
    forall i | 0 <= i < |results| && results[i].Returned?
      ensures results[i].infos in kept
    {
      assert IsReturned(results[i]);
      assert results[i] in AllReturned(kept);
      var k :| 0 <= k < |kept| && AllReturned(kept)[k] == results[i];
    }
  }

  /** The slot of each list, position by position. */
  lemma {:induction false} AllReturnedAt(lists: seq<seq<SkillInfo>>)
    ensures |AllReturned(lists)| == |lists|
    ensures forall k :: 0 <= k < |lists| ==> AllReturned(lists)[k] == Returned(lists[k])
    decreases |lists|
  {
    if lists != [] {
      AllReturnedAt(lists[..|lists| - 1]);
    }
  }

  /** A raised slot between two returned ones: both lists are kept, in order, and the later one moves up a place. */
  lemma DropsRaisedSlot(a: seq<SkillInfo>, b: seq<SkillInfo>)
    ensures KeepLists([Returned(a), TaskRaised, Returned(b)]) == [a, b]
  {
    var results := [Returned(a), TaskRaised, Returned(b)];
    assert results[..2][..1] == [Returned(a)];
    assert results[..2] == [Returned(a), TaskRaised];
    assert [Returned(a)][..0] == [];
  }

  /** The skill lists of every description, in description order, each as `extract_skills_list_async` returns it. */
  function AllSkillLists(v: Vocab, descs: seq<string>, llm: (string, nat) -> Reply, parse: string -> ParseResult)
    : (r: seq<seq<SkillInfo>>)
    ensures |r| == |descs|
  {
    seq(|descs|, i requires 0 <= i < |descs| =>
      WithCategories(v, RetryFrom(Outcomes(v, Prompt(v, descs[i]), llm, parse), 0, MAX_RETRIES).skills))
  }

  /**
   * `extract_all_skills`: every description through the retried extraction;
   * since no task raises in this model, no slot is dropped by the list filter.
   * `llm` is keyed by the prompt, so the concurrent interleaving does not
   * change any one description's replies.
   */
  method ExtractAllSkills(v: Vocab, descs: seq<string>, llm: (string, nat) -> Reply, parse: string -> ParseResult)
    returns (lists: seq<seq<SkillInfo>>)
    ensures lists == AllSkillLists(v, descs, llm, parse)
    ensures forall i, j :: 0 <= i < |lists| && 0 <= j < |lists[i]| ==> IsVocabularyPair(v, lists[i][j])
  {
    ghost var expected := AllSkillLists(v, descs, llm, parse);
    var results: seq<TaskOutcome> := [];
    var i := 0;
    while i < |descs|
      invariant 0 <= i <= |descs|
      invariant results == AllReturned(expected[..i])
    {
      var infos, _, _ := ExtractSkillsListAsync(v, descs[i], llm, parse, MAX_RETRIES);
      assert infos == expected[i];
      AllReturnedNext(expected, i);
      results := results + [Returned(infos)];
      i := i + 1;
    }
    assert expected[..i] == expected;
    lists := KeepLists(results);
    KeepAllReturned(expected);
    AllSkillListsArePairs(v, descs, llm, parse);
  }

  /** Every record of every description's list pairs a vocabulary name with a category listing it. */
  lemma AllSkillListsArePairs(v: Vocab, descs: seq<string>, llm: (string, nat) -> Reply, parse: string -> ParseResult)
    ensures var all := AllSkillLists(v, descs, llm, parse);
      forall i, j :: 0 <= i < |all| && 0 <= j < |all[i]| ==> IsVocabularyPair(v, all[i][j])
  {
    var all := AllSkillLists(v, descs, llm, parse);
    forall i | 0 <= i < |all|
      ensures forall j :: 0 <= j < |all[i]| ==> IsVocabularyPair(v, all[i][j])
    {
      RetryFacts(v, Prompt(v, descs[i]), llm, parse, MAX_RETRIES);
      WithCategoriesArePairs(v, RetryFrom(Outcomes(v, Prompt(v, descs[i]), llm, parse), 0, MAX_RETRIES).skills);
    }
  }

  /** The `gather` results when every task returned its list. */
  function AllReturned(lists: seq<seq<SkillInfo>>): (r: seq<TaskOutcome>)
    decreases |lists|
  {
    if lists == [] then [] else AllReturned(lists[..|lists| - 1]) + [Returned(lists[|lists| - 1])]
  }

  lemma AllReturnedNext(lists: seq<seq<SkillInfo>>, i: nat)
    requires i < |lists|
    ensures AllReturned(lists[..i + 1]) == AllReturned(lists[..i]) + [Returned(lists[i])]
  {
    assert lists[..i + 1][..i] == lists[..i];
  }

  /** When no task raised, the filter keeps every list, in order. */
  lemma {:induction false} KeepAllReturned(lists: seq<seq<SkillInfo>>)
    ensures KeepLists(AllReturned(lists)) == lists
    decreases |lists|
  {
    if lists != [] {
      var init := lists[..|lists| - 1];
      KeepAllReturned(init);
      AllReturnedLast(lists);
      KeepListsSnoc(AllReturned(init), lists[|lists| - 1]);
      InitLast(lists);
    }
  }

  lemma AllReturnedLast(lists: seq<seq<SkillInfo>>)
    requires lists != []
    ensures AllReturned(lists) == AllReturned(lists[..|lists| - 1]) + [Returned(lists[|lists| - 1])]
  {
  }

  lemma KeepListsSnoc(results: seq<TaskOutcome>, infos: seq<SkillInfo>)
    ensures KeepLists(results + [Returned(infos)]) == KeepLists(results) + [infos]
  {
    assert (results + [Returned(infos)])[..|results|] == results;
  }

  /** When every slot returned, the filter keeps each one in place. */
  lemma {:induction false} KeepListsAllReturned(results: seq<TaskOutcome>)
    requires forall i :: 0 <= i < |results| ==> results[i].Returned?
    ensures |KeepLists(results)| == |results|
    ensures forall i :: 0 <= i < |results| ==> KeepLists(results)[i] == results[i].infos
  {
    if results != [] {
      KeepListsAllReturned(results[..|results| - 1]);
    }
  }
}
