/** Sorting strings by code point, without repetitions. */
module SortedStrings {
  import opened Sequences

  predicate Less(a: string, b: string) {
    b != [] && (a == [] || a[0] < b[0] || (a[0] == b[0] && Less(a[1..], b[1..])))
  }

  lemma {:induction false} LessIsTotal(a: string, b: string)
    ensures a == b || Less(a, b) || Less(b, a)
  {
    if a != [] && b != [] && a[0] == b[0] {
      LessIsTotal(a[1..], b[1..]);
      assert a == [a[0]] + a[1..] && b == [b[0]] + b[1..];
    }
  }

  lemma {:induction false} LessIsStrict(a: string, b: string)
    requires Less(a, b)
    ensures !Less(b, a) && a != b
  {
    if a != [] && a[0] == b[0] {
      LessIsStrict(a[1..], b[1..]);
    }
  }

  lemma {:induction false} LessIsTransitive(a: string, b: string, c: string)
    requires Less(a, b) && Less(b, c)
    ensures Less(a, c)
  {
    if a != [] && a[0] == b[0] == c[0] {
      LessIsTransitive(a[1..], b[1..], c[1..]);
    }
  }

  ghost predicate Ascending(s: seq<string>) {
    forall i, j :: 0 <= i < j < |s| ==> Less(s[i], s[j])
  }

  function Insert(sorted: seq<string>, x: string): seq<string> {
    if sorted == [] then [x]
    else if x == sorted[0] then sorted
    else if Less(x, sorted[0]) then [x] + sorted
    else [sorted[0]] + Insert(sorted[1..], x)
  }

  /** The distinct values, in ascending order. */
  function Sorted(values: seq<string>): seq<string> {
    if values == [] then [] else Insert(Sorted(values[..|values| - 1]), values[|values| - 1])
  }

  lemma {:induction false} InsertElements(sorted: seq<string>, x: string)
    ensures Elements(Insert(sorted, x)) == Elements(sorted) + {x}
  {
    if sorted == [] {
    } else {
      InsertElements(sorted[1..], x);
      assert sorted == [sorted[0]] + sorted[1..];
      assert Elements(sorted) == {sorted[0]} + Elements(sorted[1..]);
      assert Elements([sorted[0]] + Insert(sorted[1..], x)) == {sorted[0]} + Elements(Insert(sorted[1..], x));
    }
  }

  lemma {:induction false} InsertAscending(sorted: seq<string>, x: string)
    requires Ascending(sorted)
    ensures Ascending(Insert(sorted, x))
  {
    if sorted != [] && x != sorted[0] {
      if Less(x, sorted[0]) {
        forall j | 0 <= j < |sorted|
          ensures Less(x, sorted[j])
        {
          if j > 0 {
            LessIsTransitive(x, sorted[0], sorted[j]);
          }
        }
      } else {
        LessIsTotal(x, sorted[0]);
        var rest := Insert(sorted[1..], x);
        InsertAscending(sorted[1..], x);
        InsertElements(sorted[1..], x);
        forall j | 0 <= j < |rest|
          ensures Less(sorted[0], rest[j])
        {
          assert rest[j] in Elements(rest);
          if rest[j] != x {
            assert rest[j] in Elements(sorted[1..]);
            var k :| 0 <= k < |sorted[1..]| && sorted[1..][k] == rest[j];
            assert sorted[k + 1] == rest[j];
          }
        }
      }
    }
  }

  lemma {:induction false} SortedIsSorted(values: seq<string>)
    ensures Ascending(Sorted(values)) && Elements(Sorted(values)) == Elements(values)
  {
    if values == [] {
    } else {
      var front, last := values[..|values| - 1], values[|values| - 1];
      assert values == front + [last];
      SortedIsSorted(front);
      InsertElements(Sorted(front), last);
      InsertAscending(Sorted(front), last);
      ElementsAppend(front, last);
    }
  }

  lemma AscendingIsDistinct(s: seq<string>)
    requires Ascending(s)
    ensures Distinct(s)
  {
    forall i, j | 0 <= i < j < |s|
      ensures s[i] != s[j]
    {
      LessIsStrict(s[i], s[j]);
    }
  }

  lemma FirstIsLeast(s: seq<string>, x: string)
    requires Ascending(s) && x in s
    ensures s[0] == x || Less(s[0], x)
  {
  }

  /** There is one way to list a set of strings in ascending order. */
  lemma {:induction false} AscendingIsUnique(a: seq<string>, b: seq<string>)
    requires Ascending(a) && Ascending(b) && Elements(a) == Elements(b)
    ensures a == b
    decreases |a|
  {
    if b == [] {
    } else {
      assert b[0] in Elements(b);
    }
    if a == [] {
    } else {
      assert a[0] in Elements(a) && a[0] in b;
      assert b[0] in Elements(b) && b[0] in a;
      FirstIsLeast(a, b[0]);
      FirstIsLeast(b, a[0]);
      if a[0] != b[0] {
        LessIsStrict(a[0], b[0]);
      }
      TailElements(a);
      TailElements(b);
      AscendingIsUnique(a[1..], b[1..]);
      assert a == [a[0]] + a[1..] && b == [b[0]] + b[1..];
    }
  }

  lemma TailElements(s: seq<string>)
    requires Ascending(s) && s != []
    ensures Ascending(s[1..]) && Elements(s[1..]) == Elements(s) - {s[0]}
  {
    AscendingIsDistinct(s);
    assert s == [s[0]] + s[1..];
    forall x
      ensures x in Elements(s[1..]) <==> x in Elements(s) - {s[0]}
    {
      if x in s[1..] {
        var k :| 0 <= k < |s[1..]| && s[1..][k] == x;
        assert s[k + 1] == x;
      }
    }
  }

  lemma SameElementsSameOrder(a: seq<string>, b: seq<string>)
    requires Elements(a) == Elements(b)
    ensures Sorted(a) == Sorted(b)
  {
    SortedIsSorted(a);
    SortedIsSorted(b);
    AscendingIsUnique(Sorted(a), Sorted(b));
  }

  /** The elements of a set in some order, as a walk over a map gives them, then sorted. */
  method SortSet(values: set<string>) returns (r: seq<string>)
    ensures Ascending(r) && Elements(r) == values
  {
    var listed: seq<string> := [];
    var rest := values;
    while rest != {}
      invariant rest <= values && Elements(listed) == values - rest
    {
      var x :| x in rest;
      ElementsAppend(listed, x);
      listed := listed + [x];
      rest := rest - {x};
    }
    SortedIsSorted(listed);
    r := Sorted(listed);
  }
}
