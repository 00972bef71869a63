/** The stable `sort_by` of the standard library, and the order of strings by code point. */
module Sorting {

  /** `x` after everything that may precede it. */
  function InsertLast<T>(le: (T, T) -> bool, sorted: seq<T>, x: T): seq<T> {
    if sorted == [] then [x]
    else if le(sorted[0], x) then [sorted[0]] + InsertLast(le, sorted[1..], x)
    else [x] + sorted
  }

  function SortBy<T>(le: (T, T) -> bool, xs: seq<T>): seq<T> {
    if xs == [] then [] else InsertLast(le, SortBy(le, xs[..|xs| - 1]), xs[|xs| - 1])
  }

  ghost predicate IsSorted<T>(le: (T, T) -> bool, xs: seq<T>) {
    forall i, j | 0 <= i < j < |xs| :: le(xs[i], xs[j])
  }

  ghost predicate TotalPreorder<T(!new)>(le: (T, T) -> bool) {
    && (forall x, y :: le(x, y) || le(y, x))
    && (forall x, y, z :: le(x, y) && le(y, z) ==> le(x, z))
  }

  lemma {:induction false} InsertKeepsElements<T>(le: (T, T) -> bool, s: seq<T>, x: T)
    ensures multiset(InsertLast(le, s, x)) == multiset(s) + multiset{x}
  {
    if s != [] {
      InsertKeepsElements(le, s[1..], x);
      assert s == [s[0]] + s[1..];
    }
  }

  /** Sorting only rearranges. */
  lemma {:induction false} SortKeepsElements<T>(le: (T, T) -> bool, xs: seq<T>)
    ensures multiset(SortBy(le, xs)) == multiset(xs)
  {
    if xs != [] {
      var n := |xs| - 1;
      SortKeepsElements(le, xs[..n]);
      InsertKeepsElements(le, SortBy(le, xs[..n]), xs[n]);
      assert xs == xs[..n] + [xs[n]];
    }
  }

  lemma {:induction false} InsertKeepsSorted<T(!new)>(le: (T, T) -> bool, s: seq<T>, x: T)
    requires TotalPreorder(le) && IsSorted(le, s)
    ensures IsSorted(le, InsertLast(le, s, x))
    ensures forall y | y in InsertLast(le, s, x) :: y == x || y in s
  {
    if s != [] && le(s[0], x) {
      InsertKeepsSorted(le, s[1..], x);
      var r := InsertLast(le, s[1..], x);
      forall y | y in r ensures le(s[0], y) {
        if y in s[1..] {
          var i :| 0 <= i < |s[1..]| && s[1..][i] == y;
          assert s[i + 1] == y;
        }
      }
    }
  }

  lemma {:induction false} SortSorts<T(!new)>(le: (T, T) -> bool, xs: seq<T>)
    requires TotalPreorder(le)
    ensures IsSorted(le, SortBy(le, xs))
  {
    if xs != [] {
      SortSorts(le, xs[..|xs| - 1]);
      InsertKeepsSorted(le, SortBy(le, xs[..|xs| - 1]), xs[|xs| - 1]);
    }
  }

  lemma SortTwo<T>(le: (T, T) -> bool, a: T, b: T)
    ensures SortBy(le, [a, b]) == if le(a, b) then [a, b] else [b, a]
  {
    assert [a, b][..1] == [a] && [a][..0] == [] && [a][1..] == [];
    assert SortBy(le, [a]) == InsertLast(le, SortBy(le, []), a) == [a];
    assert SortBy(le, [a, b]) == InsertLast(le, [a], b);
    assert InsertLast(le, [], b) == [b];
  }

  /** The elements that tie with `x`, in their order. */
  function Ties<T>(le: (T, T) -> bool, xs: seq<T>, x: T): seq<T> {
    if xs == [] then [] else (if le(xs[0], x) && le(x, xs[0]) then [xs[0]] else []) + Ties(le, xs[1..], x)
  }

  lemma {:induction false} TiesConcat<T>(le: (T, T) -> bool, a: seq<T>, b: seq<T>, x: T)
    ensures Ties(le, a + b, x) == Ties(le, a, x) + Ties(le, b, x)
  {
    if a == [] {
      assert a + b == b;
    } else {
      assert (a + b)[1..] == a[1..] + b;
      TiesConcat(le, a[1..], b, x);
    }
  }

  lemma {:induction false} InsertKeepsTies<T(!new)>(le: (T, T) -> bool, s: seq<T>, y: T, x: T)
    requires TotalPreorder(le) && IsSorted(le, s)
    ensures Ties(le, InsertLast(le, s, y), x) == Ties(le, s + [y], x)
  {
    if s == [] {
      assert s + [y] == [y];
    } else if le(s[0], y) {
      InsertKeepsTies(le, s[1..], y, x);
      assert (s + [y])[1..] == s[1..] + [y];
    } else {
      TiesConcat(le, s, [y], x);
      TiesConcat(le, [y], s, x);
      assert [y][1..] == [];
      if le(y, x) && le(x, y) { NoTies(le, s, y, x); }
    }
  }

  /** What sorts after `y` does not tie with what `y` ties with. */
  lemma {:induction false} NoTies<T(!new)>(le: (T, T) -> bool, s: seq<T>, y: T, x: T)
    requires TotalPreorder(le) && IsSorted(le, s) && s != [] && !le(s[0], y) && le(y, x) && le(x, y)
    ensures Ties(le, s, x) == []
  {
    if |s| > 1 {
      assert le(s[0], s[1]);
      NoTies(le, s[1..], y, x);
    }
  }

  /** Sorting is stable: what ties stays in its order. */
  lemma {:induction false} SortIsStable<T(!new)>(le: (T, T) -> bool, xs: seq<T>, x: T)
    requires TotalPreorder(le)
    ensures Ties(le, SortBy(le, xs), x) == Ties(le, xs, x)
  {
    if xs != [] {
      var init, last := xs[..|xs| - 1], xs[|xs| - 1];
      assert xs == init + [last];
      SortIsStable(le, init, x);
      SortSorts(le, init);
      InsertKeepsTies(le, SortBy(le, init), last, x);
      TiesConcat(le, SortBy(le, init), [last], x);
      TiesConcat(le, init, [last], x);
    }
  }

  // ─── Order-preserving splits ────────────────────────────────────

  /** `ss` is `a` and `b` merged, each in its own order. */
  ghost predicate IsMerge<T>(ss: seq<T>, a: seq<T>, b: seq<T>)
    decreases |ss|
  {
    if ss == [] then a == [] && b == []
    else
      || (a != [] && a[0] == ss[0] && IsMerge(ss[1..], a[1..], b))
      || (b != [] && b[0] == ss[0] && IsMerge(ss[1..], a, b[1..]))
  }

  // ─── Strings ────────────────────────────────────────────────────

  /** `Ord for str`: UTF-8 byte order, which is code point order. */
  predicate StringLe(a: string, b: string) {
    a == [] || (b != [] && (a[0] < b[0] || (a[0] == b[0] && StringLe(a[1..], b[1..]))))
  }

  lemma {:induction false} StringLeTotal(a: string, b: string)
    ensures StringLe(a, b) || StringLe(b, a)
    ensures StringLe(a, b) && StringLe(b, a) ==> a == b
  {
    if a != [] && b != [] {
      StringLeTotal(a[1..], b[1..]);
      assert a == [a[0]] + a[1..] && b == [b[0]] + b[1..];
    }
  }

  lemma {:induction false} StringLeTransitive(a: string, b: string, c: string)
    requires StringLe(a, b) && StringLe(b, c)
    ensures StringLe(a, c)
  {
    if a != [] && a[0] == b[0] == c[0] {
      StringLeTransitive(a[1..], b[1..], c[1..]);
    }
  }

  lemma StringLeIsPreorder()
    ensures TotalPreorder(StringLe)
  {
    forall a: string, b: string ensures StringLe(a, b) || StringLe(b, a) {
      StringLeTotal(a, b);
    }
    forall a: string, b: string, c: string | StringLe(a, b) && StringLe(b, c) ensures StringLe(a, c) {
      StringLeTransitive(a, b, c);
    }
  }

  lemma HeadPrecedes(a: seq<string>, x: string)
    requires IsSorted(StringLe, a) && x in a
    ensures StringLe(a[0], x)
  {
    StringLeTotal(a[0], a[0]);
  }

  lemma HeadAndTail<T>(a: seq<T>)
    requires a != []
    ensures multiset(a) == multiset{a[0]} + multiset(a[1..])
  {
    assert a == [a[0]] + a[1..];
  }

  lemma SortedStringsSameHead(a: seq<string>, b: seq<string>)
    requires IsSorted(StringLe, a) && IsSorted(StringLe, b) && multiset(a) == multiset(b) && a != [] && b != []
    ensures a[0] == b[0] && multiset(a[1..]) == multiset(b[1..])
  {
    HeadAndTail(a);
    HeadAndTail(b);
    assert a[0] in multiset(b);
    assert b[0] in multiset(a);
    HeadPrecedes(a, b[0]);
    HeadPrecedes(b, a[0]);
    StringLeTotal(a[0], b[0]);
    assert multiset(a[1..]) == multiset(a) - multiset{a[0]};
    assert multiset(b[1..]) == multiset(b) - multiset{b[0]};
  }

  lemma {:induction false} SortedStringsUnique(a: seq<string>, b: seq<string>)
    requires IsSorted(StringLe, a) && IsSorted(StringLe, b) && multiset(a) == multiset(b)
    ensures a == b
    decreases |a|
  {
    assert |a| == |multiset(a)| == |multiset(b)| == |b|;
    if a != [] {
      SortedStringsSameHead(a, b);
      SortedStringsUnique(a[1..], b[1..]);
      assert a == [a[0]] + a[1..] && b == [b[0]] + b[1..];
    }
  }

  /** A sorted list of strings depends only on which strings there are and how often. */
  lemma SortForgetsOrder(a: seq<string>, b: seq<string>)
    ensures multiset(a) == multiset(b) <==> SortBy(StringLe, a) == SortBy(StringLe, b)
  {
    StringLeIsPreorder();
    SortSorts(StringLe, a);
    SortSorts(StringLe, b);
    SortKeepsElements(StringLe, a);
    SortKeepsElements(StringLe, b);
    if multiset(a) == multiset(b) {
      SortedStringsUnique(SortBy(StringLe, a), SortBy(StringLe, b));
    }
  }
}
