/** Generic facts about sequences: filtering, subsequences and prefixes. */
module Seqs {

  /** The elements of `s` that satisfy `p`, in order (a Python list comprehension with an `if`). */
  function Filter<T(==)>(s: seq<T>, p: T -> bool): (r: seq<T>)
    ensures |r| <= |s|
    ensures forall i :: 0 <= i < |r| ==> r[i] in s && p(r[i])
    ensures forall i :: 0 <= i < |s| && p(s[i]) ==> s[i] in r
    decreases |s|
  {
    if s == [] then []
    else
      var rest := Filter(s[..|s| - 1], p);
      assert s == s[..|s| - 1] + [s[|s| - 1]];
      if p(s[|s| - 1]) then rest + [s[|s| - 1]] else rest
  }

  lemma FilterAppend<T>(a: seq<T>, b: seq<T>, p: T -> bool)
    ensures Filter(a + b, p) == Filter(a, p) + Filter(b, p)
    decreases |b|
  {
    if b == [] {
      assert a + b == a;
    } else {
      var b' := b[..|b| - 1];
      assert (a + b)[..|a + b| - 1] == a + b';
      FilterAppend(a, b', p);
    }
  }

  lemma FilterSingleton<T>(x: T, p: T -> bool)
    ensures Filter([x], p) == if p(x) then [x] else []
  {
    assert [x][..0] == [];
  }

  /** `sub` can be obtained from `s` by deleting elements: relative order is kept. */
  predicate IsSubseq<T(==)>(sub: seq<T>, s: seq<T>)
    decreases |s|
  {
    if sub == [] then true
    else if s == [] then false
    else if sub[|sub| - 1] == s[|s| - 1] then IsSubseq(sub[..|sub| - 1], s[..|s| - 1])
    else IsSubseq(sub, s[..|s| - 1])
  }

  lemma {:induction false} FilterIsSubseq<T>(s: seq<T>, p: T -> bool)
    ensures IsSubseq(Filter(s, p), s)
    decreases |s|
  {
    if s != [] {
      FilterIsSubseq(s[..|s| - 1], p);
      if p(s[|s| - 1]) {
        var r := Filter(s, p);
        assert r[..|r| - 1] == Filter(s[..|s| - 1], p);
      } else {
        SubseqOfPrefix(Filter(s, p), s[..|s| - 1], s[|s| - 1]);
        assert s[..|s| - 1] + [s[|s| - 1]] == s;
      }
    }
  }

  lemma {:induction false} SubseqOfPrefix<T>(sub: seq<T>, s: seq<T>, x: T)
    requires IsSubseq(sub, s)
    ensures IsSubseq(sub, s + [x])
    decreases |s|, 1
  {
    var t := s + [x];
    assert t[..|t| - 1] == s;
    if sub != [] && sub[|sub| - 1] == x {
      SubseqDropLast(sub, s);
    }
  }

  lemma {:induction false} SubseqDropLast<T>(sub: seq<T>, s: seq<T>)
    requires sub != [] && IsSubseq(sub, s)
    ensures IsSubseq(sub[..|sub| - 1], s)
    decreases |s|, 0
  {
    var s' := s[..|s| - 1];
    if sub[|sub| - 1] == s[|s| - 1] {
      if sub[..|sub| - 1] != [] {
        SubseqOfPrefix(sub[..|sub| - 1], s', s[|s| - 1]);
        assert s' + [s[|s| - 1]] == s;
      }
    } else {
      SubseqDropLast(sub, s');
      if sub[..|sub| - 1] != [] {
        SubseqOfPrefix(sub[..|sub| - 1], s', s[|s| - 1]);
        assert s' + [s[|s| - 1]] == s;
      }
    }
  }

  /** A non-empty sequence is its front followed by its last element. */
  lemma InitLast<T>(s: seq<T>)
    requires s != []
    ensures s[..|s| - 1] + [s[|s| - 1]] == s
  {
  }

  /** Appending the same element to both keeps a subsequence one. */
  lemma SubseqSnocBoth<T>(sub: seq<T>, s: seq<T>, x: T)
    requires IsSubseq(sub, s)
    ensures IsSubseq(sub + [x], s + [x])
  {
    assert (sub + [x])[..|sub|] == sub;
    assert (s + [x])[..|s|] == s;
  }

  /** A subsequence stays one when an element is put in front of the sequence, or in front of both. */
  lemma {:induction false} SubseqCons<T>(sub: seq<T>, s: seq<T>, x: T)
    requires IsSubseq(sub, s)
    ensures IsSubseq(sub, [x] + s) && IsSubseq([x] + sub, [x] + s)
    decreases |s|
  {
    var t := [x] + s;
    if s == [] {
      assert [x][..0] == [];
    } else {
      var s', y := s[..|s| - 1], s[|s| - 1];
      assert t[..|t| - 1] == [x] + s';
      if sub != [] && sub[|sub| - 1] == y {
        var sub' := sub[..|sub| - 1];
        SubseqCons(sub', s', x);
        assert ([x] + sub)[..|sub|] == [x] + sub';
      } else {
        SubseqCons(sub, s', x);
        if sub == [] {
          assert ([x] + sub)[..0] == [];
        } else {
          assert ([x] + sub)[|sub|] == sub[|sub| - 1];
        }
      }
    }
  }

  /** Elements of a subsequence are elements of the sequence. */
  lemma {:induction false} SubseqMembers<T>(sub: seq<T>, s: seq<T>)
    requires IsSubseq(sub, s)
    ensures forall i :: 0 <= i < |sub| ==> sub[i] in s
    decreases |s|
  {
    if sub != [] && s != [] {
      if sub[|sub| - 1] == s[|s| - 1] {
        SubseqMembers(sub[..|sub| - 1], s[..|s| - 1]);
        assert sub == sub[..|sub| - 1] + [sub[|sub| - 1]];
        assert s == s[..|s| - 1] + [s[|s| - 1]];
      } else {
        SubseqMembers(sub, s[..|s| - 1]);
        assert s == s[..|s| - 1] + [s[|s| - 1]];
      }
    }
  }

  lemma {:induction false} FilterNone<T>(s: seq<T>, p: T -> bool)
    requires forall i :: 0 <= i < |s| ==> !p(s[i])
    ensures Filter(s, p) == []
    decreases |s|
  {
    if s != [] {
      FilterNone(s[..|s| - 1], p);
    }
  }

  /** A subsequence of a sequence without repeats has none either. */
  lemma {:induction false} SubseqDistinct<T>(sub: seq<T>, s: seq<T>)
    requires IsSubseq(sub, s) && Distinct(s)
    ensures Distinct(sub)
    decreases |s|
  {
    if sub != [] {
      var s' := s[..|s| - 1];
      assert Distinct(s') by {
        forall i, j | 0 <= i < j < |s'| ensures s'[i] != s'[j] {
          assert s'[i] == s[i] && s'[j] == s[j];
        }
      }
      if sub[|sub| - 1] == s[|s| - 1] {
        var sub' := sub[..|sub| - 1];
        SubseqDistinct(sub', s');
        SubseqMembers(sub', s');
        forall i | 0 <= i < |sub'| ensures sub'[i] != s[|s| - 1] {
          var k :| 0 <= k < |s'| && s'[k] == sub'[i];
          assert s[k] == s'[k];
        }
        assert sub == sub' + [s[|s| - 1]];
      } else {
        SubseqDistinct(sub, s');
      }
    }
  }

  /** The first `n` elements of `s`, none for `n <= 0`: `s[:n]` for `n >= 0`, and `most_common(n)` for any `n`. */
  function Take<T>(s: seq<T>, n: int): (r: seq<T>)
    ensures |r| == if n <= 0 then 0 else if n < |s| then n else |s|
    ensures forall i :: 0 <= i < |r| ==> r[i] == s[i]
  {
    if n <= 0 then [] else if n < |s| then s[..n] else s
  }

  /** The concatenation of a sequence of sequences. */
  function Concat<T>(ss: seq<seq<T>>): (r: seq<T>)
    decreases |ss|
  {
    if ss == [] then [] else Concat(ss[..|ss| - 1]) + ss[|ss| - 1]
  }

  /** No element occurs twice. */
  predicate Distinct<T(==)>(s: seq<T>) {
    forall i, j :: 0 <= i < j < |s| ==> s[i] != s[j]
  }

  /** Filtering keeps every copy of an element that passes and no copy of one that fails. */
  lemma {:induction false} FilterCount<T>(s: seq<T>, p: T -> bool, x: T)
    ensures multiset(Filter(s, p))[x] == if p(x) then multiset(s)[x] else 0
    decreases |s|
  {
    if s != [] {
      var s' := s[..|s| - 1];
      FilterCount(s', p, x);
      assert s == s' + [s[|s| - 1]];
    }
  }

  lemma FilterCountAll<T>(s: seq<T>, p: T -> bool)
    ensures forall x :: multiset(Filter(s, p))[x] == if p(x) then multiset(s)[x] else 0
  {
    forall x ensures multiset(Filter(s, p))[x] == if p(x) then multiset(s)[x] else 0 {
      FilterCount(s, p, x);
    }
  }
}
