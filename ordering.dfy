/**
 * The default order of `Array.prototype.sort` on strings: lexicographic
 * comparison of code units.  `Sort` is insertion sort; since a sorted
 * permutation of a list of strings is unique, it returns what any correct
 * sort returns.
 */
module Ordering {

  /** `a` comes no later than `b` in code-unit lexicographic order. */
  predicate Below(a: string, b: string)
    decreases |a|
  {
    a == [] || (b != [] && (a[0] < b[0] || (a[0] == b[0] && Below(a[1..], b[1..]))))
  }

  lemma {:induction false} BelowReflexive(a: string)
    ensures Below(a, a)
    decreases |a|
  {
    if a != [] { BelowReflexive(a[1..]); }
  }

  lemma {:induction false} BelowTotal(a: string, b: string)
    ensures Below(a, b) || Below(b, a)
    decreases |a|
  {
    if a != [] && b != [] && a[0] == b[0] { BelowTotal(a[1..], b[1..]); }
  }

  lemma {:induction false} BelowAntisymmetric(a: string, b: string)
    requires Below(a, b) && Below(b, a)
    ensures a == b
    decreases |a|
  {
    if a != [] {
      BelowAntisymmetric(a[1..], b[1..]);
      assert a == [a[0]] + a[1..] && b == [b[0]] + b[1..];
    }
  }

  lemma {:induction false} BelowTransitive(a: string, b: string, c: string)
    requires Below(a, b) && Below(b, c)
    ensures Below(a, c)
    decreases |a|
  {
    if a != [] && a[0] == b[0] && b[0] == c[0] { BelowTransitive(a[1..], b[1..], c[1..]); }
  }

  predicate Sorted(s: seq<string>) {
    forall i, j :: 0 <= i < j < |s| ==> Below(s[i], s[j])
  }

  /** Places `x` before the first element it is `Below`. */
  function Insert(x: string, s: seq<string>): seq<string>
    decreases |s|
  {
    if s == [] then [x]
    else if Below(x, s[0]) then [x] + s
    else [s[0]] + Insert(x, s[1..])
  }

  function Sort(s: seq<string>): seq<string>
    decreases |s|
  {
    if s == [] then [] else Insert(s[0], Sort(s[1..]))
  }

  lemma {:induction false} InsertPermutes(x: string, s: seq<string>)
    ensures multiset(Insert(x, s)) == multiset(s) + multiset{x}
    decreases |s|
  {
    if s != [] && !Below(x, s[0]) {
      InsertPermutes(x, s[1..]);
      assert s == [s[0]] + s[1..];
    }
  }

  /** A head below every element of a sorted tail gives a sorted list. */
  lemma ConsSorted(h: string, t: seq<string>)
    requires Sorted(t) && forall y :: y in t ==> Below(h, y)
    ensures Sorted([h] + t)
  {
    var r := [h] + t;
    forall i, j | 0 <= i < j < |r| ensures Below(r[i], r[j]) {
      if i > 0 {
        assert r[i] == t[i - 1] && r[j] == t[j - 1];
      } else {
        assert r[j] in t;
      }
    }
  }

  /** What is below the head of a sorted list is below all of it. */
  lemma BelowAll(x: string, s: seq<string>)
    requires Sorted(s) && s != [] && Below(x, s[0])
    ensures forall y :: y in s ==> Below(x, y)
  {
    forall y | y in s ensures Below(x, y) {
      var k :| 0 <= k < |s| && s[k] == y;
      if k > 0 {
        BelowTransitive(x, s[0], y);
      }
    }
  }

  /** The head of a sorted list is below everything `x` is inserted among. */
  lemma HeadBelowInserted(x: string, s: seq<string>)
    requires Sorted(s) && s != [] && !Below(x, s[0])
    ensures forall y :: y in Insert(x, s[1..]) ==> Below(s[0], y)
  {
    BelowTotal(x, s[0]);
    var t := Insert(x, s[1..]);
    InsertPermutes(x, s[1..]);
    forall y | y in t ensures Below(s[0], y) {
      assert y in multiset(t);
      if y != x {
        assert y in multiset(s[1..]);
        var k :| 0 <= k < |s[1..]| && s[1..][k] == y;
        assert Below(s[0], s[k + 1]);
      }
    }
  }

  lemma {:induction false} InsertCorrect(x: string, s: seq<string>)
    requires Sorted(s)
    ensures Sorted(Insert(x, s))
    ensures multiset(Insert(x, s)) == multiset(s) + multiset{x}
    decreases |s|
  {
    InsertPermutes(x, s);
    if s == [] {
    } else if Below(x, s[0]) {
      BelowAll(x, s);
      ConsSorted(x, s);
    } else {
      assert Sorted(s[1..]);
      InsertCorrect(x, s[1..]);
      HeadBelowInserted(x, s);
      ConsSorted(s[0], Insert(x, s[1..]));
    }
  }

  /** `Sort` returns a sorted permutation of its input. */
  lemma {:induction false} SortCorrect(s: seq<string>)
    ensures Sorted(Sort(s))
    ensures multiset(Sort(s)) == multiset(s)
    decreases |s|
  {
    if s != [] {
      SortCorrect(s[1..]);
      InsertCorrect(s[0], Sort(s[1..]));
      assert s == [s[0]] + s[1..];
    }
  }

  /** Sorted lists with the same elements start alike. */
  lemma SortedSameHead(a: seq<string>, b: seq<string>)
    requires Sorted(a) && Sorted(b) && multiset(a) == multiset(b) && a != []
    ensures b != [] && a[0] == b[0]
  {
    assert a[0] in multiset(b);
    var j :| 0 <= j < |b| && b[j] == a[0];
    assert b[0] in multiset(a);
    var i :| 0 <= i < |a| && a[i] == b[0];
    if j > 0 { assert Below(b[0], a[0]); } else { BelowReflexive(a[0]); }
    if i > 0 { assert Below(a[0], b[0]); } else { BelowReflexive(a[0]); }
    BelowAntisymmetric(a[0], b[0]);
  }

  /** Dropping the head of a sorted list leaves a sorted list of the rest. */
  lemma DropHead(a: seq<string>)
    requires Sorted(a) && a != []
    ensures Sorted(a[1..])
    ensures multiset(a[1..]) == multiset(a) - multiset{a[0]}
  {
    assert a == [a[0]] + a[1..];
  }

  /** Two sorted lists with the same elements are the same list. */
  lemma {:induction false} SortedUnique(a: seq<string>, b: seq<string>)
    requires Sorted(a) && Sorted(b) && multiset(a) == multiset(b)
    ensures a == b
    decreases |a|
  {
    if a == [] {
      assert |b| == |multiset(b)| == 0;
    } else {
      SortedSameHead(a, b);
      DropHead(a);
      DropHead(b);
      SortedUnique(a[1..], b[1..]);
      assert a == [a[0]] + a[1..] && b == [b[0]] + b[1..];
    }
  }

  /** Sorting forgets the input order: lists that are permutations of each
      other sort to the same list. */
  lemma SortIgnoresOrder(a: seq<string>, b: seq<string>)
    requires multiset(a) == multiset(b)
    ensures Sort(a) == Sort(b)
  {
    SortCorrect(a);
    SortCorrect(b);
    SortedUnique(Sort(a), Sort(b));
  }
}
