/**
 * The vocabulary matcher of the first-generation analyzer: a dictionary from
 * every lower-cased canonical name and spelling variant to its (canonical
 * name, category) record, the list of patterns fed to the phrase matcher, and
 * the post-match deduplication of the two extractors. Language detection and
 * phrase matching are oracles: `detect` stands for the language detector
 * (`None` when it raises `LangDetectException`, the one exception
 * `detect_language` catches; any other exception it raises propagates and is
 * not modelled) and `matches` gives, for a language and a text, the
 * texts of the matched spans in match order.
 */
module SkillsMatcher {
  import opened Wrappers
  import opened Seqs
  import opened Strings
  import opened Vocabulary

  /** One `skill_to_category[key] = {...}` assignment, in the order the mapping builder makes them. */
  type Entry = (string, SkillInfo)

  /** The assignments a skill's variants make: every non-empty variant, lower-cased, in order. */
  function VariantEntries(variants: seq<string>, info: SkillInfo): (r: seq<Entry>)
    ensures forall i :: 0 <= i < |r| ==> r[i].1 == info
    decreases |variants|
  {
    if variants == [] then []
    else
      var last := variants[|variants| - 1];
      VariantEntries(variants[..|variants| - 1], info) + (if last != [] then [(Lower(last), info)] else [])
  }

  /** The assignments one skill makes: its lower-cased name, then its variants. */
  function SkillEntries(category: string, skill: SkillEntry): seq<Entry> {
    [(Lower(skill.name), SkillInfo(skill.name, category))] + VariantEntries(skill.variants, SkillInfo(skill.name, category))
  }

  /** The assignments one category makes, skill by skill. */
  function SkillsEntries(category: string, skills: seq<SkillEntry>): seq<Entry>
    decreases |skills|
  {
    if skills == [] then []
    else SkillsEntries(category, skills[..|skills| - 1]) + SkillEntries(category, skills[|skills| - 1])
  }

  /** Every assignment the mapping builder makes, category by category. */
  function Entries(v: Vocab): seq<Entry>
    decreases |v|
  {
    if v == [] then []
    else Entries(v[..|v| - 1]) + SkillsEntries(v[|v| - 1].category, v[|v| - 1].skills)
  }

  /** The keys of a run of assignments, in order: the `all_patterns` list. */
  function Keys(es: seq<Entry>): (r: seq<string>)
    ensures |r| == |es|
  {
    seq(|es|, i requires 0 <= i < |es| => es[i].0)
  }

  /** The dictionary after a run of assignments onto `m`, in order. */
  function OverlayOnto(m: map<string, SkillInfo>, es: seq<Entry>): map<string, SkillInfo>
    decreases |es|
  {
    if es == [] then m
    else OverlayOnto(m, es[..|es| - 1])[es[|es| - 1].0 := es[|es| - 1].1]
  }

  /** `skill_to_category` once built from an empty dictionary. */
  function Mapping(v: Vocab): map<string, SkillInfo> {
    OverlayOnto(map[], Entries(v))
  }

  lemma {:induction false} OverlayAppend(m: map<string, SkillInfo>, a: seq<Entry>, b: seq<Entry>)
    ensures OverlayOnto(m, a + b) == OverlayOnto(OverlayOnto(m, a), b)
    decreases |b|
  {
    if b == [] {
      assert a + b == a;
    } else {
      var b' := b[..|b| - 1];
      OverlayAppend(m, a, b');
      assert (a + b)[..|a + b| - 1] == a + b';
    }
  }

  /** The patterns of `a + b` are those of `a`, then those of `b`. */
  lemma KeysAppend(a: seq<Entry>, b: seq<Entry>)
    ensures Keys(a + b) == Keys(a) + Keys(b)
  {
    forall i | 0 <= i < |a + b|
      ensures Keys(a + b)[i] == (Keys(a) + Keys(b))[i]
    {
      if i < |a| {
        assert (a + b)[i] == a[i];
      } else {
        assert (a + b)[i] == b[i - |a|];
      }
    }
  }

  /** Assigning `a` and then `b` is assigning `a + b`, for the dictionary and for the pattern list. */
  lemma RunStep(m0: map<string, SkillInfo>, p0: seq<string>, a: seq<Entry>, b: seq<Entry>,
                m1: map<string, SkillInfo>, p1: seq<string>, m2: map<string, SkillInfo>, p2: seq<string>)
    requires m1 == OverlayOnto(m0, a) && p1 == p0 + Keys(a)
    requires m2 == OverlayOnto(m1, b) && p2 == p1 + Keys(b)
    ensures m2 == OverlayOnto(m0, a + b) && p2 == p0 + Keys(a + b)
  {
    OverlayAppend(m0, a, b);
    KeysAppend(a, b);
    assert (p0 + Keys(a)) + Keys(b) == p0 + (Keys(a) + Keys(b));
  }

  lemma OverlayOne(m: map<string, SkillInfo>, key: string, info: SkillInfo)
    ensures OverlayOnto(m, [(key, info)]) == m[key := info]
    ensures Keys([(key, info)]) == [key]
  {
    assert [(key, info)][..0] == [];
  }

  lemma SkillsEntriesStep(category: string, skills: seq<SkillEntry>, j: nat)
    requires j < |skills|
    ensures SkillsEntries(category, skills[..j + 1]) == SkillsEntries(category, skills[..j]) + SkillEntries(category, skills[j])
  {
    assert skills[..j + 1][..j] == skills[..j];
  }

  lemma VariantStep(variants: seq<string>, k: nat, info: SkillInfo)
    requires k < |variants|
    ensures VariantEntries(variants[..k + 1], info)
         == VariantEntries(variants[..k], info) + (if variants[k] != [] then [(Lower(variants[k]), info)] else [])
  {
    assert variants[..k + 1][..k] == variants[..k];
  }

  lemma EntriesStep(v: Vocab, i: nat)
    requires i < |v|
    ensures Entries(v[..i + 1]) == Entries(v[..i]) + SkillsEntries(v[i].category, v[i].skills)
  {
    assert v[..i + 1][..i] == v[..i];
  }

  /** The keys of the dictionary are those it started with plus every assigned key. */
  lemma {:induction false} OverlayKeys(m: map<string, SkillInfo>, es: seq<Entry>)
    ensures forall k :: k in OverlayOnto(m, es) <==> k in m || k in Keys(es)
    decreases |es|
  {
    if es != [] {
      var es' := es[..|es| - 1];
      OverlayKeys(m, es');
      assert Keys(es) == Keys(es') + [es[|es| - 1].0];
    }
  }

  /** A key keeps the record of its last assignment: on a collision the later entry wins. */
  lemma {:induction false} OverlayLastWins(m: map<string, SkillInfo>, es: seq<Entry>, i: nat)
    requires i < |es|
    requires forall j :: i < j < |es| ==> es[j].0 != es[i].0
    ensures es[i].0 in OverlayOnto(m, es) && OverlayOnto(m, es)[es[i].0] == es[i].1
    decreases |es|
  {
    if i < |es| - 1 {
      var es' := es[..|es| - 1];
      OverlayLastWins(m, es', i);
    }
  }

  /** Every record in the dictionary was either there before or assigned under that key. */
  lemma {:induction false} OverlayValues(m: map<string, SkillInfo>, es: seq<Entry>)
    ensures forall k :: k in OverlayOnto(m, es) ==>
      (k, OverlayOnto(m, es)[k]) in es || (k in m && OverlayOnto(m, es)[k] == m[k])
    decreases |es|
  {
    if es != [] {
      var es' := es[..|es| - 1];
      OverlayValues(m, es');
      forall k | k in OverlayOnto(m, es)
        ensures (k, OverlayOnto(m, es)[k]) in es || (k in m && OverlayOnto(m, es)[k] == m[k])
      {
        if k != es[|es| - 1].0 {
          if (k, OverlayOnto(m, es')[k]) in es' {
            var j :| 0 <= j < |es'| && es'[j] == (k, OverlayOnto(m, es')[k]);
            assert es[j] == es'[j];
          }
        }
      }
    }
  }

  /** Every assignment of a category's skills records one of those skills with that category. */
  lemma {:induction false} SkillsEntriesOwners(category: string, skills: seq<SkillEntry>)
    ensures forall e :: e in SkillsEntries(category, skills) ==>
      exists j :: 0 <= j < |skills| && e.1 == SkillInfo(skills[j].name, category)
    decreases |skills|
  {
    if skills != [] {
      var init := skills[..|skills| - 1];
      var last := skills[|skills| - 1];
      SkillsEntriesOwners(category, init);
      forall e | e in SkillsEntries(category, skills)
        ensures exists j :: 0 <= j < |skills| && e.1 == SkillInfo(skills[j].name, category)
      {
        if e in SkillsEntries(category, init) {
          var j :| 0 <= j < |init| && e.1 == SkillInfo(init[j].name, category);
          assert skills[j] == init[j];
        } else {
          SkillEntriesOwner(category, last, e);
        }
      }
    }
  }

  /** Every entry of one skill carries that skill's own name and category. */
  lemma SkillEntriesOwner(category: string, skill: SkillEntry, e: Entry)
    requires e in SkillEntries(category, skill)
    ensures e.1 == SkillInfo(skill.name, category)
  {
    var es := SkillEntries(category, skill);
    var n :| 0 <= n < |es| && es[n] == e;
    if n > 0 {
      assert es[n] == VariantEntries(skill.variants, SkillInfo(skill.name, category))[n - 1];
    }
  }

  /** Every assignment records a (canonical name, category) pair of the vocabulary. */
  lemma {:induction false} EntriesArePairs(v: Vocab)
    ensures forall e :: e in Entries(v) ==> IsVocabularyPair(v, e.1)
    decreases |v|
  {
    if v != [] {
      var init := v[..|v| - 1];
      var b := v[|v| - 1];
      EntriesArePairs(init);
      SkillsEntriesOwners(b.category, b.skills);
      forall e | e in Entries(v)
        ensures IsVocabularyPair(v, e.1)
      {
        if e in Entries(init) {
          assert IsVocabularyPair(init, e.1);
          var i, j :| 0 <= i < |init| && 0 <= j < |init[i].skills| && e.1 == SkillInfo(init[i].skills[j].name, init[i].category);
          assert v[i] == init[i];
        } else {
          var j :| 0 <= j < |b.skills| && e.1 == SkillInfo(b.skills[j].name, b.category);
          assert v[|v| - 1] == b;
        }
      }
    }
  }

  /** A skill's own assignments include its lower-cased name and every non-empty lower-cased variant. */
  lemma {:induction false} VariantEntriesCover(variants: seq<string>, info: SkillInfo)
    ensures forall n :: 0 <= n < |variants| && variants[n] != [] ==> (Lower(variants[n]), info) in VariantEntries(variants, info)
    decreases |variants|
  {
    if variants != [] {
      VariantEntriesCover(variants[..|variants| - 1], info);
      forall n | 0 <= n < |variants| - 1 && variants[n] != []
        ensures (Lower(variants[n]), info) in VariantEntries(variants, info)
      {
        assert variants[..|variants| - 1][n] == variants[n];
      }
    }
  }

  /** The assignments of a list of skills include every assignment of each skill. */
  lemma {:induction false} SkillsEntriesCover(category: string, skills: seq<SkillEntry>, j: nat)
    requires j < |skills|
    ensures forall e :: e in SkillEntries(category, skills[j]) ==> e in SkillsEntries(category, skills)
    decreases |skills|
  {
    if j < |skills| - 1 {
      SkillsEntriesCover(category, skills[..|skills| - 1], j);
      assert skills[..|skills| - 1][j] == skills[j];
    }
  }

  /**
   * The assignments of the whole vocabulary include, for every skill, its
   * lower-cased name and every non-empty lower-cased variant, each with the
   * skill's own (name, category) record.
   */
  lemma {:induction false} EntriesCover(v: Vocab, i: nat, j: nat)
    requires i < |v| && j < |v[i].skills|
    ensures var s := v[i].skills[j]; var info := SkillInfo(s.name, v[i].category);
      && (Lower(s.name), info) in Entries(v)
      && forall n :: 0 <= n < |s.variants| && s.variants[n] != [] ==> (Lower(s.variants[n]), info) in Entries(v)
    decreases |v|
  {
    var s := v[i].skills[j];
    var info := SkillInfo(s.name, v[i].category);
    if i < |v| - 1 {
      EntriesCover(v[..|v| - 1], i, j);
      assert v[..|v| - 1][i] == v[i];
    } else {
      SkillsEntriesCover(v[i].category, v[i].skills, j);
      VariantEntriesCover(s.variants, info);
      assert (Lower(s.name), info) in SkillEntries(v[i].category, s);
    }
  }

  // ---------------------------------------------------------------- properties of the built mapping

  /** The dictionary's keys are exactly the patterns handed to the phrase matcher. */
  lemma MappingKeysArePatterns(v: Vocab)
    ensures forall k :: k in Mapping(v) <==> k in Keys(Entries(v))
  {
    OverlayKeys(map[], Entries(v));
  }

  /** Every lower-cased canonical name and every non-empty lower-cased variant is a key. */
  lemma MappingCoversVocabulary(v: Vocab, i: nat, j: nat)
    requires i < |v| && j < |v[i].skills|
    ensures Lower(v[i].skills[j].name) in Mapping(v)
    ensures forall n :: 0 <= n < |v[i].skills[j].variants| && v[i].skills[j].variants[n] != [] ==>
      Lower(v[i].skills[j].variants[n]) in Mapping(v)
  {
    var es := Entries(v);
    var s := v[i].skills[j];
    var info := SkillInfo(s.name, v[i].category);
    EntriesCover(v, i, j);
    OverlayKeys(map[], es);
    KeyOfEntry(es, (Lower(s.name), info));
    forall n | 0 <= n < |s.variants| && s.variants[n] != []
      ensures Lower(s.variants[n]) in Mapping(v)
    {
      KeyOfEntry(es, (Lower(s.variants[n]), info));
    }
  }

  lemma KeyOfEntry(es: seq<Entry>, e: Entry)
    requires e in es
    ensures e.0 in Keys(es)
  {
    var n :| 0 <= n < |es| && es[n] == e;
    assert Keys(es)[n] == e.0;
  }

  /** Every record in the dictionary is a (canonical name, category) pair of the vocabulary. */
  lemma MappingValuesArePairs(v: Vocab)
    ensures forall k :: k in Mapping(v) ==> IsVocabularyPair(v, Mapping(v)[k])
  {
    OverlayValues(map[], Entries(v));
    EntriesArePairs(v);
  }

  /** On a key collision the later vocabulary entry wins: a key holds the record of its last assignment. */
  lemma MappingLaterWins(v: Vocab, i: nat)
    requires i < |Entries(v)|
    requires forall j :: i < j < |Entries(v)| ==> Entries(v)[j].0 != Entries(v)[i].0
    ensures Entries(v)[i].0 in Mapping(v) && Mapping(v)[Entries(v)[i].0] == Entries(v)[i].1
  {
    OverlayLastWins(map[], Entries(v), i);
  }

  /** Without collisions, every pattern maps to the skill that produced it. */
  lemma MappingWithoutCollisions(v: Vocab)
    requires Distinct(Keys(Entries(v)))
    ensures forall i :: 0 <= i < |Entries(v)| ==> Entries(v)[i].0 in Mapping(v) && Mapping(v)[Entries(v)[i].0] == Entries(v)[i].1
  {
    var es := Entries(v);
    forall i | 0 <= i < |es|
      ensures es[i].0 in Mapping(v) && Mapping(v)[es[i].0] == es[i].1
    {
      forall j | i < j < |es|
        ensures es[j].0 != es[i].0
      {
        assert Keys(es)[i] == es[i].0 && Keys(es)[j] == es[j].0;
      }
      OverlayLastWins(map[], es, i);
    }
  }

  // ---------------------------------------------------------------- matching

  /** `detect_language`: "fr" when the detector says French on the first 1000 characters, "en" otherwise. */
  function DetectLanguage(text: string, detect: string -> Option<string>): (r: string)
    ensures r == "en" || r == "fr"
    ensures r == "fr" <==> detect(Take(text, 1000)) == Some("fr")
  {
    match detect(Take(text, 1000))
    case Some(lang) => if lang == "fr" then "fr" else "en"
    case None => "en"
  }

  /** A `LangDetectException` from the detector reads as English. */
  lemma DetectFailureIsEnglish(text: string, detect: string -> Option<string>)
    requires detect(Take(text, 1000)) == None
    ensures DetectLanguage(text, detect) == "en"
  {
  }

  /** Only the first 1000 characters decide the language. */
  lemma DetectIgnoresTail(text: string, tail: string, detect: string -> Option<string>)
    requires |text| >= 1000
    ensures DetectLanguage(text + tail, detect) == DetectLanguage(text, detect)
  {
    assert Take(text + tail, 1000) == Take(text, 1000);
  }

  /** The records of the matched spans whose lower-cased text is a key, in match order. */
  function Recognized(m: map<string, SkillInfo>, spans: seq<string>): (r: seq<SkillInfo>)
    ensures |r| <= |spans|
    ensures forall i :: 0 <= i < |r| ==> r[i] in m.Values
    ensures forall j :: 0 <= j < |spans| && Lower(spans[j]) in m ==> m[Lower(spans[j])] in r
    decreases |spans|
  {
    if spans == [] then []
    else
      var init := Recognized(m, spans[..|spans| - 1]);
      var key := Lower(spans[|spans| - 1]);
      if key in m then init + [m[key]] else init
  }

  /** The first record of each canonical name, in order of first occurrence. */
  function FirstByName(infos: seq<SkillInfo>): (r: seq<SkillInfo>)
    ensures Distinct(Names(r))
    ensures forall i :: 0 <= i < |r| ==> r[i] in infos
    ensures forall i :: 0 <= i < |infos| ==> infos[i].name in Names(r)
    decreases |infos|
  {
    if infos == [] then []
    else
      var init := FirstByName(infos[..|infos| - 1]);
      var x := infos[|infos| - 1];
      if x.name in Names(init) then init
      else
        assert Names(init + [x]) == Names(init) + [x.name];
        init + [x]
  }

  /** The record kept for a name is its first occurrence. */
  lemma RecognizedNext(m: map<string, SkillInfo>, spans: seq<string>, i: nat)
    requires i < |spans|
    ensures Lower(spans[i]) in m ==>
      Recognized(m, spans[..i + 1]) == Recognized(m, spans[..i]) + [m[Lower(spans[i])]]
    ensures Lower(spans[i]) !in m ==> Recognized(m, spans[..i + 1]) == Recognized(m, spans[..i])
  {
    assert spans[..i + 1][..i] == spans[..i];
  }

  lemma FirstByNameSnoc(infos: seq<SkillInfo>, x: SkillInfo)
    ensures x.name in Names(FirstByName(infos)) ==> FirstByName(infos + [x]) == FirstByName(infos)
    ensures x.name !in Names(FirstByName(infos)) ==> FirstByName(infos + [x]) == FirstByName(infos) + [x]
  {
    assert (infos + [x])[..|infos|] == infos;
  }

  /** The records kept are recognised ones, so each is a value of the vocabulary map. */
  lemma FirstRecognizedKnown(m: map<string, SkillInfo>, spans: seq<string>)
    ensures forall i :: 0 <= i < |FirstByName(Recognized(m, spans))| ==> FirstByName(Recognized(m, spans))[i] in m.Values
  {
  }

  lemma {:induction false} FirstByNameKeepsFirst(infos: seq<SkillInfo>, j: nat)
    requires j < |infos|
    requires forall k :: 0 <= k < j ==> infos[k].name != infos[j].name
    ensures infos[j] in FirstByName(infos)
    decreases |infos|
  {
    if j < |infos| - 1 {
      FirstByNameKeepsFirst(infos[..|infos| - 1], j);
    }
  }

  /** The records are kept in order of first occurrence. */
  lemma {:induction false} FirstByNameInOrder(infos: seq<SkillInfo>)
    ensures IsSubseq(FirstByName(infos), infos)
    decreases |infos|
  {
    if infos != [] {
      var init := infos[..|infos| - 1];
      var x := infos[|infos| - 1];
      FirstByNameInOrder(init);
      var r := FirstByName(infos);
      assert init + [x] == infos;
      if x.name in Names(FirstByName(init)) {
        SubseqOfPrefix(r, init, x);
      } else {
        assert r[..|r| - 1] == FirstByName(init);
      }
    }
  }

  /** The matched vocabulary: the built dictionary and the phrase-matcher patterns. */
  class Matcher {
    const skillsData: Vocab
    var skillToCategory: map<string, SkillInfo>
    var allPatterns: seq<string>

    /** Built once from the vocabulary; the spaCy pipelines and phrase matchers are not part of this model. */
    constructor(v: Vocab)
      ensures skillsData == v
      ensures skillToCategory == Mapping(v)
      ensures allPatterns == Keys(Entries(v))
    {
      skillsData := v;
      skillToCategory := map[];
      allPatterns := [];
      new;
      BuildSkillMappings();
    }

    /** `_build_skill_mappings`: one assignment and one pattern per canonical name and non-empty variant. */
    method BuildSkillMappings()
      modifies this
      ensures skillToCategory == OverlayOnto(old(skillToCategory), Entries(skillsData))
      ensures allPatterns == old(allPatterns) + Keys(Entries(skillsData))
    {
      ghost var m0, p0 := skillToCategory, allPatterns;
      var v := skillsData;
      for i := 0 to |v|
        invariant skillToCategory == OverlayOnto(m0, Entries(v[..i]))
        invariant allPatterns == p0 + Keys(Entries(v[..i]))
      {
        ghost var mi, pi := skillToCategory, allPatterns;
        AddCategory(v[i].category, v[i].skills);
        EntriesStep(v, i);
        RunStep(m0, p0, Entries(v[..i]), SkillsEntries(v[i].category, v[i].skills), mi, pi, skillToCategory, allPatterns);
      }
      assert v[..|v|] == v;
    }

    /** The body of the `for category, skills in it_skills.items()` loop. */
    method AddCategory(category: string, skills: seq<SkillEntry>)
      modifies this
      ensures skillToCategory == OverlayOnto(old(skillToCategory), SkillsEntries(category, skills))
      ensures allPatterns == old(allPatterns) + Keys(SkillsEntries(category, skills))
    {
      ghost var m0, p0 := skillToCategory, allPatterns;
      for j := 0 to |skills|
        invariant skillToCategory == OverlayOnto(m0, SkillsEntries(category, skills[..j]))
        invariant allPatterns == p0 + Keys(SkillsEntries(category, skills[..j]))
      {
        ghost var mj, pj := skillToCategory, allPatterns;
        AddSkill(category, skills[j]);
        SkillsEntriesStep(category, skills, j);
        RunStep(m0, p0, SkillsEntries(category, skills[..j]), SkillEntries(category, skills[j]), mj, pj, skillToCategory, allPatterns);
      }
      assert skills[..|skills|] == skills;
    }

    /** The body of the `for skill in skills` loop: the name's assignment, then each non-empty variant's. */
    method AddSkill(category: string, skill: SkillEntry)
      modifies this
      ensures skillToCategory == OverlayOnto(old(skillToCategory), SkillEntries(category, skill))
      ensures allPatterns == old(allPatterns) + Keys(SkillEntries(category, skill))
    {
      var name, variants := skill.name, skill.variants;
      var info := SkillInfo(name, category);
      ghost var m0, p0 := skillToCategory, allPatterns;
      skillToCategory := skillToCategory[Lower(name) := info];
      allPatterns := allPatterns + [Lower(name)];
      for k := 0 to |variants|
        invariant skillToCategory == OverlayOnto(m0, [(Lower(name), info)] + VariantEntries(variants[..k], info))
        invariant allPatterns == p0 + Keys([(Lower(name), info)] + VariantEntries(variants[..k], info))
      {
        ghost var done := [(Lower(name), info)] + VariantEntries(variants[..k], info);
        var variant := variants[k];
        VariantStep(variants, k, info);
        if variant != [] {
          ghost var before, patternsBefore := skillToCategory, allPatterns;
          skillToCategory := skillToCategory[Lower(variant) := info];
          allPatterns := allPatterns + [Lower(variant)];
          OverlayOne(before, Lower(variant), info);
          RunStep(m0, p0, done, [(Lower(variant), info)], before, patternsBefore, skillToCategory, allPatterns);
          assert [(Lower(name), info)] + VariantEntries(variants[..k + 1], info) == done + [(Lower(variant), info)];
        } else {
          assert [(Lower(name), info)] + VariantEntries(variants[..k + 1], info) == done;
        }
      }
      assert variants[..|variants|] == variants;
    }

    /**
     * `extract_skills`: the canonical names of the recognised spans, each once,
     * in no particular order; empty text gives none.
     */
    method ExtractSkills(text: string, detect: string -> Option<string>, matches: (string, string) -> seq<string>)
      returns (names: seq<string>)
      ensures text == [] ==> names == []
      ensures Distinct(names)
      ensures text != [] ==> forall n :: n in names <==>
        n in Names(Recognized(skillToCategory, matches(DetectLanguage(text, detect), text)))
      ensures forall i :: 0 <= i < |names| ==> exists info :: info in skillToCategory.Values && info.name == names[i]
    {
      if text == [] {
        return [];
      }
      var lang := DetectLanguage(text, detect);
      var spans := matches(lang, text);
      var found: set<string> := {};
      for i := 0 to |spans|
        invariant forall n :: n in found <==> n in Names(Recognized(skillToCategory, spans[..i]))
      {
        RecognizedNext(skillToCategory, spans, i);
        var matched := Lower(spans[i]);
        if matched in skillToCategory {
          var info := skillToCategory[matched];
          found := found + {info.name};
          NamesSnoc(Recognized(skillToCategory, spans[..i]), info);
        }
      }
      assert spans[..|spans|] == spans;
      names := ListOf(found);
      forall i | 0 <= i < |names|
        ensures exists info :: info in skillToCategory.Values && info.name == names[i]
      {
        var r := Recognized(skillToCategory, spans);
        assert names[i] in Names(r);
        var k :| 0 <= k < |r| && Names(r)[k] == names[i];
        assert r[k] in skillToCategory.Values;
      }
    }

    /**
     * `extract_skills_with_category`: one record per canonical name, in order
     * of first match, with the category of that first match; empty text gives none.
     */
    method ExtractSkillsWithCategory(text: string, detect: string -> Option<string>, matches: (string, string) -> seq<string>)
      returns (infos: seq<SkillInfo>)
      ensures text == [] ==> infos == []
      ensures text != [] ==> infos == FirstByName(Recognized(skillToCategory, matches(DetectLanguage(text, detect), text)))
      ensures Distinct(Names(infos))
      ensures forall i :: 0 <= i < |infos| ==> infos[i] in skillToCategory.Values
    {
      if text == [] {
        return [];
      }
      var lang := DetectLanguage(text, detect);
      var spans := matches(lang, text);
      infos := [];
      for i := 0 to |spans|
        invariant infos == FirstByName(Recognized(skillToCategory, spans[..i]))
      {
        RecognizedNext(skillToCategory, spans, i);
        var matched := Lower(spans[i]);
        if matched in skillToCategory {
          var info := skillToCategory[matched];
          FirstByNameSnoc(Recognized(skillToCategory, spans[..i]), info);
          if info.name !in Names(infos) {
            infos := infos + [info];
          }
        }
      }
      assert spans[..|spans|] == spans;
      FirstRecognizedKnown(skillToCategory, spans);
    }
  }

  /** `list(found_skills)`: the members of a set, each once, in an order the set chooses. */
  method ListOf(s: set<string>) returns (r: seq<string>)
    ensures Distinct(r)
    ensures forall x :: x in r <==> x in s
  {
    r := [];
    var rest := s;
    while rest != {}
      invariant rest <= s
      invariant Distinct(r)
      invariant forall x :: x in r <==> x in s && x !in rest
      decreases |rest|
    {
      var x :| x in rest;
      r := r + [x];
      rest := rest - {x};
    }
  }
}
