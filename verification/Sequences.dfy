/** Outcome types and a few facts about sequences used by every other module. */
module Sequences {

  datatype Option<+T> = None | Some(value: T) {
    function GetOr(default: T): T {
      if Some? then value else default
    }
  }

  datatype Result<+T, +E> = Ok(value: T) | Err(error: E)

  ghost predicate Distinct<T>(s: seq<T>) {
    forall i, j :: 0 <= i < j < |s| ==> s[i] != s[j]
  }

  ghost function Elements<T>(s: seq<T>): set<T> {
    set x | x in s
  }

  /** `sub` is obtained from `s` by dropping elements and keeping the order. */
  ghost predicate IsSubsequence<T>(sub: seq<T>, s: seq<T>) {
    if sub == [] then true
    else if s == [] then false
    else if sub[|sub| - 1] == s[|s| - 1] then IsSubsequence(sub[..|sub| - 1], s[..|s| - 1])
    else IsSubsequence(sub, s[..|s| - 1])
  }

  lemma ElementsAppend<T>(s: seq<T>, x: T)
    ensures Elements(s + [x]) == Elements(s) + {x}
  {
  }

  lemma {:induction false} ElementsSize<T>(s: seq<T>)
    ensures |Elements(s)| <= |s|
    ensures |Elements(s)| == |s| <==> Distinct(s)
  {
    if s == [] {
    } else {
      var front, last := s[..|s| - 1], s[|s| - 1];
      assert s == front + [last];
      ElementsSize(front);
      ElementsAppend(front, last);
      if last in front {
        assert Elements(s) == Elements(front);
      } else {
        assert Distinct(s) <==> Distinct(front);
      }
    }
  }

  lemma SubsetSize<T>(a: set<T>, b: set<T>)
    requires a <= b
    ensures |a| <= |b|
    ensures |a| == |b| ==> a == b
  {
    assert b == a + (b - a);
  }

  /** More entries than values: some value occurs twice. */
  lemma Pigeonhole<T>(s: seq<T>, values: set<T>) returns (i: nat, j: nat)
    requires Elements(s) <= values && |s| > |values|
    ensures i < j < |s| && s[i] == s[j]
  {
    ElementsSize(s);
    SubsetSize(Elements(s), values);
    i, j :| 0 <= i < j < |s| && s[i] == s[j];
  }

  lemma DistinctPermutation<T>(s: seq<T>, t: seq<T>)
    requires Distinct(s) && Distinct(t) && Elements(s) == Elements(t)
    ensures multiset(s) == multiset(t)
  {
    forall x
      ensures multiset(s)[x] == multiset(t)[x]
    {
      DistinctMultiplicity(s, x);
      DistinctMultiplicity(t, x);
      assert x in s <==> x in Elements(s);
      assert x in t <==> x in Elements(t);
    }
  }

  lemma {:induction false} DistinctMultiplicity<T>(s: seq<T>, x: T)
    requires Distinct(s)
    ensures multiset(s)[x] == if x in s then 1 else 0
  {
    if s == [] {
    } else {
      var front := s[..|s| - 1];
      assert s == front + [s[|s| - 1]];
      DistinctMultiplicity(front, x);
    }
  }

  /** A subsequence of all but the last entry is a subsequence of the whole. */
  lemma {:induction false} SubsequenceExtend<T>(sub: seq<T>, s: seq<T>)
    requires s != [] && IsSubsequence(sub, s[..|s| - 1])
    ensures IsSubsequence(sub, s)
    decreases |s|, 0
  {
    if sub != [] && sub[|sub| - 1] == s[|s| - 1] {
      SubsequenceDropLast(sub, s[..|s| - 1]);
    }
  }

  lemma {:induction false} SubsequenceDropLast<T>(sub: seq<T>, s: seq<T>)
    requires sub != [] && IsSubsequence(sub, s)
    ensures IsSubsequence(sub[..|sub| - 1], s)
    decreases |s|, 1
  {
    if sub[|sub| - 1] == s[|s| - 1] {
      SubsequenceExtend(sub[..|sub| - 1], s);
    } else {
      SubsequenceDropLast(sub, s[..|s| - 1]);
      SubsequenceExtend(sub[..|sub| - 1], s);
    }
  }

  /** A subsequence of the same length is the whole. */
  lemma {:induction false} FullSubsequence<T>(sub: seq<T>, s: seq<T>)
    requires IsSubsequence(sub, s)
    ensures |sub| <= |s|
    ensures |sub| == |s| ==> sub == s
    decreases |s|
  {
    if sub != [] {
      FullSubsequence(if sub[|sub| - 1] == s[|s| - 1] then sub[..|sub| - 1] else sub, s[..|s| - 1]);
    }
  }
}
