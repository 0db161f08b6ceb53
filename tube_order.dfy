/** Python's ordering of tubes taken as tuples of colour codes, and sorting
    by it. Tuples compare element by element; a proper prefix comes first. */
module TubeOrder {
  import opened Colors

  predicate Le(a: seq<Color>, b: seq<Color>)
  {
    a == [] || (b != [] && (Rank(a[0]) < Rank(b[0]) || (a[0] == b[0] && Le(a[1..], b[1..]))))
  }

  lemma {:induction false} LeTotal(a: seq<Color>, b: seq<Color>)
    ensures Le(a, b) || Le(b, a)
  {
    if a != [] && b != [] && Rank(a[0]) == Rank(b[0]) {
      RankInjective(a[0], b[0]);
      LeTotal(a[1..], b[1..]);
    }
  }

  lemma {:induction false} LeReflexive(a: seq<Color>)
    ensures Le(a, a)
  {
    if a != [] {
      LeReflexive(a[1..]);
    }
  }

  lemma {:induction false} LeAntisymmetric(a: seq<Color>, b: seq<Color>)
    requires Le(a, b) && Le(b, a)
    ensures a == b
  {
    if a != [] {
      assert a[0] == b[0];
      LeAntisymmetric(a[1..], b[1..]);
      assert a == [a[0]] + a[1..];
      assert b == [b[0]] + b[1..];
    }
  }

  lemma {:induction false} LeTransitive(a: seq<Color>, b: seq<Color>, c: seq<Color>)
    requires Le(a, b) && Le(b, c)
    ensures Le(a, c)
  {
    if a != [] && a[0] == b[0] && b[0] == c[0] {
      LeTransitive(a[1..], b[1..], c[1..]);
    }
  }

  predicate Sorted(s: seq<seq<Color>>)
  {
    forall i, j :: 0 <= i < j < |s| ==> Le(s[i], s[j])
  }

  /** Putting in front an element that does not exceed any of a sorted sequence keeps it sorted. */
  lemma SortedCons(x: seq<Color>, s: seq<seq<Color>>)
    requires Sorted(s)
    requires forall j :: 0 <= j < |s| ==> Le(x, s[j])
    ensures Sorted([x] + s)
  {
    forall i, j | 0 <= i < j < |s| + 1 ensures Le(([x] + s)[i], ([x] + s)[j]) {
      if i > 0 {
        assert ([x] + s)[i] == s[i - 1];
      }
    }
  }

  /** Inserts x before the first element it does not exceed. */
  function Insert(x: seq<Color>, s: seq<seq<Color>>): (r: seq<seq<Color>>)
    requires Sorted(s)
    ensures Sorted(r)
    ensures multiset(r) == multiset(s) + multiset{x}
  {
    if s == [] then [x]
    else if Le(x, s[0]) then
      assert forall j :: 0 <= j < |s| ==> Le(x, s[j]) by {
        forall j | 0 <= j < |s| ensures Le(x, s[j]) {
          if j > 0 { LeTransitive(x, s[0], s[j]); }
        }
      }
      SortedCons(x, s);
      [x] + s
    else
      var rest := Insert(x, s[1..]);
      LeTotal(x, s[0]);
      assert s == [s[0]] + s[1..];
      assert forall j :: 0 <= j < |rest| ==> Le(s[0], rest[j]) by {
        forall j | 0 <= j < |rest| ensures Le(s[0], rest[j]) {
          assert rest[j] in multiset(s[1..]) + multiset{x};
          if rest[j] != x {
            assert rest[j] in s[1..];
          }
        }
      }
      SortedCons(s[0], rest);
      [s[0]] + rest
  }

  /** Sorts the tubes into ascending order (insertion sort). */
  function Sort(s: seq<seq<Color>>): (r: seq<seq<Color>>)
    ensures Sorted(r)
    ensures multiset(r) == multiset(s)
  {
    if s == [] then []
    else
      assert s == s[..|s| - 1] + [s[|s| - 1]];
      Insert(s[|s| - 1], Sort(s[..|s| - 1]))
  }

  lemma SortedHeadLeast(a: seq<seq<Color>>, x: seq<Color>)
    requires Sorted(a) && x in a
    ensures Le(a[0], x)
  {
    var k :| 0 <= k < |a| && a[k] == x;
    if k == 0 {
      LeReflexive(x);
    }
  }

  lemma TailMultiset(a: seq<seq<Color>>, b: seq<seq<Color>>)
    requires a != [] && b != [] && a[0] == b[0]
    requires multiset(a) == multiset(b)
    ensures multiset(a[1..]) == multiset(b[1..])
  {
    assert a == [a[0]] + a[1..];
    assert b == [b[0]] + b[1..];
    forall t: seq<Color> ensures multiset(a[1..])[t] == multiset(b[1..])[t] {
      assert multiset(a)[t] == multiset{a[0]}[t] + multiset(a[1..])[t];
      assert multiset(b)[t] == multiset{b[0]}[t] + multiset(b[1..])[t];
    }
  }

  /** Two sorted sequences holding the same multiset are the same sequence. */
  lemma {:induction false} SortedUnique(a: seq<seq<Color>>, b: seq<seq<Color>>)
    requires Sorted(a) && Sorted(b)
    requires multiset(a) == multiset(b)
    ensures a == b
  {
    if a == [] {
      assert |b| == |multiset(b)|;
    } else {
      assert |b| == |multiset(b)|;
      assert a[0] in multiset(b) && b[0] in multiset(a);
      SortedHeadLeast(b, a[0]);
      SortedHeadLeast(a, b[0]);
      LeAntisymmetric(a[0], b[0]);
      TailMultiset(a, b);
      assert Sorted(a[1..]) && Sorted(b[1..]);
      SortedUnique(a[1..], b[1..]);
      assert a == [a[0]] + a[1..];
      assert b == [b[0]] + b[1..];
    }
  }

  /** Sorting equates exactly the sequences that are permutations of each other. */
  lemma SortEqualIff(a: seq<seq<Color>>, b: seq<seq<Color>>)
    ensures Sort(a) == Sort(b) <==> multiset(a) == multiset(b)
  {
    if multiset(a) == multiset(b) {
      SortedUnique(Sort(a), Sort(b));
    }
  }
}
