/**
 * The skill vocabulary loaded from `skills.json`: under its "IT" key, an ordered
 * dictionary from category to a list of skills, each with a canonical name and
 * optional spelling variants. The model takes it as an immutable parameter.
 */
module Vocabulary {

  datatype SkillEntry = SkillEntry(name: string, variants: seq<string>)

  datatype CategoryBlock = CategoryBlock(category: string, skills: seq<SkillEntry>)

  /** The categories in file order; Python dictionaries keep insertion order. */
  type Vocab = seq<CategoryBlock>

  /** The `{"name": ..., "category": ...}` record every extractor produces. */
  datatype SkillInfo = SkillInfo(name: string, category: string)

  /** The canonical names of one category, in file order. */
  function BlockNames(b: CategoryBlock): (r: seq<string>)
    ensures |r| == |b.skills|
  {
    seq(|b.skills|, i requires 0 <= i < |b.skills| => b.skills[i].name)
  }

  /** The flat list of every canonical name, category by category (the extractor's `skills_list`). */
  function SkillsList(v: Vocab): seq<string>
    decreases |v|
  {
    if v == [] then [] else SkillsList(v[..|v| - 1]) + BlockNames(v[|v| - 1])
  }

  /** A name is in the flat list exactly when some category lists it. */
  lemma {:induction false} SkillsListMembers(v: Vocab, name: string)
    ensures name in SkillsList(v) <==> exists i :: 0 <= i < |v| && name in BlockNames(v[i])
    decreases |v|
  {
    if v != [] {
      var v' := v[..|v| - 1];
      SkillsListMembers(v', name);
      if name in BlockNames(v[|v| - 1]) {
        assert name in SkillsList(v);
      }
      if exists i :: 0 <= i < |v| && name in BlockNames(v[i]) {
        var i :| 0 <= i < |v| && name in BlockNames(v[i]);
        if i < |v| - 1 {
          assert v'[i] == v[i];
        }
      }
    }
  }

  /** Every (name, category) pair the vocabulary defines. */
  ghost predicate IsVocabularyPair(v: Vocab, info: SkillInfo) {
    exists i, j :: 0 <= i < |v| && 0 <= j < |v[i].skills| && info == SkillInfo(v[i].skills[j].name, v[i].category)
  }

  /** The names of a list of records, in order. */
  function Names(infos: seq<SkillInfo>): (r: seq<string>)
    ensures |r| == |infos|
    ensures forall i :: 0 <= i < |r| ==> r[i] == infos[i].name
  {
    seq(|infos|, i requires 0 <= i < |infos| => infos[i].name)
  }

  lemma NamesSnoc(infos: seq<SkillInfo>, x: SkillInfo)
    ensures Names(infos + [x]) == Names(infos) + [x.name]
  {
  }
}
