/**
  The library sort the node relies on, as a function: a stable sort by a total preorder. Sorting is
  what makes iteration over a hash map, or arrival order in a mempool, irrelevant.
 */
module Ordering {

  ghost predicate TotalPreorder<T(!new)>(le: (T, T) -> bool) {
    && (forall x, y :: le(x, y) || le(y, x))
    && (forall x, y, z :: le(x, y) && le(y, z) ==> le(x, z))
  }

  ghost predicate SortedBy<T>(le: (T, T) -> bool, s: seq<T>) {
    forall i, j :: 0 <= i < j < |s| ==> le(s[i], s[j])
  }

  /** Insert after every element that is not greater. */
  function Insert<T>(le: (T, T) -> bool, s: seq<T>, x: T): (r: seq<T>)
    ensures multiset(r) == multiset(s) + multiset{x}
  {
    if s == [] then [x]
    else
      var front, last := s[..|s| - 1], s[|s| - 1];
      assert s == front + [last];
      if le(last, x) then s + [x] else Insert(le, front, x) + [last]
  }

  function Sort<T>(le: (T, T) -> bool, s: seq<T>): (r: seq<T>)
    ensures multiset(r) == multiset(s)
  {
    if s == [] then [] else
      var front, last := s[..|s| - 1], s[|s| - 1];
      assert s == front + [last];
      Insert(le, Sort(le, front), last)
  }

  lemma {:induction false} InsertSorted<T(!new)>(le: (T, T) -> bool, s: seq<T>, x: T)
    requires TotalPreorder(le) && SortedBy(le, s)
    ensures SortedBy(le, Insert(le, s, x))
  {
    if s != [] && !le(s[|s| - 1], x) {
      var front, last := s[..|s| - 1], s[|s| - 1];
      InsertSorted(le, front, x);
      var r := Insert(le, front, x);
      forall i | 0 <= i < |r| ensures le(r[i], last) {
        assert r[i] in multiset(r);
        assert r[i] in multiset(front) || r[i] == x;
      }
    }
  }

  lemma {:induction false} SortSorts<T(!new)>(le: (T, T) -> bool, s: seq<T>)
    requires TotalPreorder(le)
    ensures SortedBy(le, Sort(le, s))
  {
    if s != [] {
      SortSorts(le, s[..|s| - 1]);
      InsertSorted(le, Sort(le, s[..|s| - 1]), s[|s| - 1]);
    }
  }

  /** No two different elements tie. */
  ghost predicate NoTies<T>(le: (T, T) -> bool, s: multiset<T>) {
    forall x, y :: x in s && y in s && le(x, y) && le(y, x) ==> x == y
  }

  lemma FrontAndLast<T>(s: seq<T>)
    requires s != []
    ensures s == s[..|s| - 1] + [s[|s| - 1]] && multiset(s[..|s| - 1]) == multiset(s) - multiset{s[|s| - 1]}
  {
    assert s == s[..|s| - 1] + [s[|s| - 1]];
  }

  lemma FewerTies<T>(le: (T, T) -> bool, few: multiset<T>, many: multiset<T>)
    requires few <= many && NoTies(le, many)
    ensures NoTies(le, few)
  {
  }

  lemma FrontKeepsOrder<T>(le: (T, T) -> bool, s: seq<T>)
    requires s != [] && SortedBy(le, s)
    ensures s == s[..|s| - 1] + [s[|s| - 1]] && SortedBy(le, s[..|s| - 1])
    ensures multiset(s[..|s| - 1]) == multiset(s) - multiset{s[|s| - 1]}
    ensures NoTies(le, multiset(s)) ==> NoTies(le, multiset(s[..|s| - 1]))
  {
    FrontAndLast(s);
    if NoTies(le, multiset(s)) {
      FewerTies(le, multiset(s[..|s| - 1]), multiset(s));
    }
  }

  lemma SameLast<T(!new)>(le: (T, T) -> bool, s: seq<T>, t: seq<T>)
    requires s != [] && TotalPreorder(le) && SortedBy(le, s) && SortedBy(le, t)
    requires multiset(s) == multiset(t) && NoTies(le, multiset(s))
    ensures t != [] && s[|s| - 1] == t[|t| - 1]
  {
    assert s[|s| - 1] in multiset(t) && |multiset(t)| > 0;
    var i :| 0 <= i < |t| && t[i] == s[|s| - 1];
    assert t[|t| - 1] in multiset(s);
    var j :| 0 <= j < |s| && s[j] == t[|t| - 1];
    assert le(t[i], t[|t| - 1]) && le(s[j], s[|s| - 1]);
  }

  /** Without ties, a multiset has exactly one sorted arrangement. */
  lemma {:induction false} SortedIsUnique<T(!new)>(le: (T, T) -> bool, s: seq<T>, t: seq<T>)
    requires TotalPreorder(le) && SortedBy(le, s) && SortedBy(le, t)
    requires multiset(s) == multiset(t) && NoTies(le, multiset(s))
    ensures s == t
    decreases |s|
  {
    if s == [] {
      assert |multiset(t)| == 0;
    } else {
      SameLast(le, s, t);
      FrontKeepsOrder(le, s);
      FrontKeepsOrder(le, t);
      SortedIsUnique(le, s[..|s| - 1], t[..|t| - 1]);
    }
  }

  /** Arrival order does not matter. */
  lemma SortIgnoresArrival<T(!new)>(le: (T, T) -> bool, s: seq<T>, t: seq<T>)
    requires TotalPreorder(le) && multiset(s) == multiset(t) && NoTies(le, multiset(s))
    ensures Sort(le, s) == Sort(le, t)
  {
    SortSorts(le, s);
    SortSorts(le, t);
    SortedIsUnique(le, Sort(le, s), Sort(le, t));
  }

  ghost function IfTie<T>(le: (T, T) -> bool, y: T, x: T): seq<T> {
    if le(x, y) && le(y, x) then [y] else []
  }

  /** The elements that tie with x, in order. */
  ghost function Ties<T>(le: (T, T) -> bool, s: seq<T>, x: T): seq<T> {
    if s == [] then [] else Ties(le, s[..|s| - 1], x) + IfTie(le, s[|s| - 1], x)
  }

  lemma TiesOfSnoc<T>(le: (T, T) -> bool, s: seq<T>, y: T, x: T)
    ensures Ties(le, s + [y], x) == Ties(le, s, x) + IfTie(le, y, x)
  {
    assert (s + [y])[..|s|] == s;
  }

  /** Whatever goes behind y does not tie with what y ties with. */
  ghost predicate Apart<T>(le: (T, T) -> bool, s: seq<T>, y: T, x: T) {
    forall i :: 0 <= i < |s| && !le(s[i], y) ==> IfTie(le, y, x) == [] || IfTie(le, s[i], x) == []
  }

  lemma AlwaysApart<T(!new)>(le: (T, T) -> bool, s: seq<T>, y: T, x: T)
    requires TotalPreorder(le)
    ensures Apart(le, s, y, x)
  {
  }

  lemma {:induction false} InsertIsStable<T>(le: (T, T) -> bool, s: seq<T>, y: T, x: T)
    requires Apart(le, s, y, x)
    ensures Ties(le, Insert(le, s, y), x) == Ties(le, s, x) + IfTie(le, y, x)
  {
    TiesOfSnoc(le, s, y, x);
    if s == [] {
      assert s + [y] == [y];
    } else if !le(s[|s| - 1], y) {
      var front, last := s[..|s| - 1], s[|s| - 1];
      InsertIsStable(le, front, y, x);
      TiesOfSnoc(le, Insert(le, front, y), last, x);
    }
  }

  /** The sort is stable: elements that tie keep the order in which they came. */
  lemma {:induction false} SortIsStable<T(!new)>(le: (T, T) -> bool, s: seq<T>, x: T)
    requires TotalPreorder(le)
    ensures Ties(le, Sort(le, s), x) == Ties(le, s, x)
  {
    if s != [] {
      var front, last := s[..|s| - 1], s[|s| - 1];
      var sorted := Sort(le, front);
      SortIsStable(le, front, x);
      AlwaysApart(le, sorted, last, x);
      InsertIsStable(le, sorted, last, x);
    }
  }

  // ---------------------------------------------------------------- strings

  /** Lexicographic order on strings. */
  predicate StringLe(a: string, b: string) {
    a == [] || (b != [] && (a[0] < b[0] || (a[0] == b[0] && StringLe(a[1..], b[1..]))))
  }

  lemma {:induction false} StringLeTotal(a: string, b: string)
    ensures StringLe(a, b) || StringLe(b, a)
  {
    if a != [] && b != [] {
      StringLeTotal(a[1..], b[1..]);
    }
  }

  lemma {:induction false} StringLeTransitive(a: string, b: string, c: string)
    requires StringLe(a, b) && StringLe(b, c)
    ensures StringLe(a, c)
  {
    if a != [] && a[0] == b[0] == c[0] {
      StringLeTransitive(a[1..], b[1..], c[1..]);
    }
  }

  lemma {:induction false} StringLeAntisymmetric(a: string, b: string)
    requires StringLe(a, b) && StringLe(b, a)
    ensures a == b
  {
    if a != [] {
      StringLeAntisymmetric(a[1..], b[1..]);
      assert a == [a[0]] + a[1..] && b == [b[0]] + b[1..];
    }
  }

  /** As in a dictionary: the first difference decides, and what ends first comes first. */
  lemma {:induction false} FirstDifferenceDecides(p: string, x: char, s: string, y: char, t: string)
    requires x < y
    ensures StringLe(p + [x] + s, p + [y] + t) && !StringLe(p + [y] + t, p + [x] + s)
    ensures StringLe(p, p + [x] + s) && !StringLe(p + [x] + s, p)
  {
    if p == [] {
      assert p + [x] + s == [x] + s && p + [y] + t == [y] + t;
    } else {
      FirstDifferenceDecides(p[1..], x, s, y, t);
      assert (p + [x] + s)[1..] == p[1..] + [x] + s && (p + [y] + t)[1..] == p[1..] + [y] + t;
    }
  }

  lemma StringOrder()
    ensures TotalPreorder(StringLe)
    ensures forall a, b :: StringLe(a, b) && StringLe(b, a) ==> a == b
  {
    forall a: string, b: string ensures StringLe(a, b) || StringLe(b, a) {
      StringLeTotal(a, b);
    }
    forall a: string, b: string, c: string | StringLe(a, b) && StringLe(b, c) ensures StringLe(a, c) {
      StringLeTransitive(a, b, c);
    }
    forall a: string, b: string | StringLe(a, b) && StringLe(b, a) ensures a == b {
      StringLeAntisymmetric(a, b);
    }
  }
}
