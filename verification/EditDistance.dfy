/** The Levenshtein row computation behind category-typo detection (src/doctor/checks.rs),
    measured against edit scripts. */
module EditDistance {

  /** One edit. A script is read left to right along the source string. */
  datatype Edit = Keep | Insert(c: char) | Delete | Substitute(c: char)

  function EditCost(e: Edit): nat {
    if e.Keep? then 0 else 1
  }

  function Cost(script: seq<Edit>): nat {
    if script == [] then 0 else Cost(Init(script)) + EditCost(Last(script))
  }

  function Last<T>(s: seq<T>): T
    requires s != []
  {
    s[|s| - 1]
  }

  function Init<T>(s: seq<T>): seq<T>
    requires s != []
  {
    s[..|s| - 1]
  }

  /** `script` turns `a` into `b`: every character of `a` is kept, substituted or deleted, in order,
      and what is kept, substituted in or inserted spells `b`. Stated by the last edit. */
  predicate Transforms(script: seq<Edit>, a: string, b: string)
    decreases |script|
  {
    if script == [] then a == [] && b == []
    else
      match Last(script)
      case Keep => a != [] && b != [] && Last(a) == Last(b) && Transforms(Init(script), Init(a), Init(b))
      case Substitute(c) => a != [] && b != [] && Last(b) == c && Transforms(Init(script), Init(a), Init(b))
      case Insert(c) => b != [] && Last(b) == c && Transforms(Init(script), a, Init(b))
      case Delete => a != [] && Transforms(Init(script), Init(a), b)
  }

  function Min(x: nat, y: nat): nat {
    if x <= y then x else y
  }

  /** The recurrence the two rows tabulate. */
  function Distance(a: string, b: string): nat
    decreases |a| + |b|
  {
    if a == [] then |b|
    else if b == [] then |a|
    else
      Min(Min(Distance(Init(a), Init(b)) + (if Last(a) != Last(b) then 1 else 0),
              Distance(Init(a), b) + 1),
          Distance(a, Init(b)) + 1)
  }

  /** No script from `a` to `b` is cheaper than the recurrence. */
  lemma {:induction false} DistanceIsLowerBound(script: seq<Edit>, a: string, b: string)
    requires Transforms(script, a, b)
    ensures Distance(a, b) <= Cost(script)
    decreases |script|
  {
    if script != [] {
      match Last(script)
      case Keep => DistanceIsLowerBound(Init(script), Init(a), Init(b));
      case Substitute(_) => DistanceIsLowerBound(Init(script), Init(a), Init(b));
      case Insert(_) =>
        DistanceIsLowerBound(Init(script), a, Init(b));
      case Delete =>
        DistanceIsLowerBound(Init(script), Init(a), b);
    }
  }

  function Snoc(script: seq<Edit>, e: Edit): (r: seq<Edit>)
    ensures r != [] && Init(r) == script && Last(r) == e
    ensures Cost(r) == Cost(script) + EditCost(e)
  {
    var r := script + [e];
    assert Init(r) == script;
    r
  }

  /** A cheapest script, read off the recurrence. */
  function BestScript(a: string, b: string): (script: seq<Edit>)
    ensures Transforms(script, a, b) && Cost(script) == Distance(a, b)
    decreases |a| + |b|
  {
    if a == [] && b == [] then []
    else if a == [] || (b != [] && Distance(a, b) == Distance(a, Init(b)) + 1) then
      Snoc(BestScript(a, Init(b)), Insert(Last(b)))
    else if b == [] || Distance(a, b) == Distance(Init(a), b) + 1 then
      Snoc(BestScript(Init(a), b), Delete)
    else
      Snoc(BestScript(Init(a), Init(b)), if Last(a) == Last(b) then Keep else Substitute(Last(b)))
  }

  /** `d` is the length of a shortest script from `a` to `b`. */
  ghost predicate IsShortest(d: nat, a: string, b: string) {
    && (exists script :: Transforms(script, a, b) && Cost(script) == d)
    && (forall script | Transforms(script, a, b) :: d <= Cost(script))
  }

  lemma DistanceIsShortest(a: string, b: string)
    ensures IsShortest(Distance(a, b), a, b)
  {
    var best := BestScript(a, b);
    assert Transforms(best, a, b) && Cost(best) == Distance(a, b);
    forall script | Transforms(script, a, b)
      ensures Distance(a, b) <= Cost(script)
    {
      DistanceIsLowerBound(script, a, b);
    }
  }

  lemma DistanceOfPrefixes(a: string, b: string, i: nat, j: nat)
    requires i < |a| && j < |b|
    ensures Distance(a[..i + 1], b[..j + 1]) ==
            Min(Min(Distance(a[..i], b[..j]) + (if a[i] != b[j] then 1 else 0), Distance(a[..i], b[..j + 1]) + 1),
                Distance(a[..i + 1], b[..j]) + 1)
  {
    assert Init(a[..i + 1]) == a[..i] && Init(b[..j + 1]) == b[..j];
  }

  /** `row` holds the distances from `a` to the first 0, 1, ..., `n` characters of `b`. */
  ghost predicate IsRow(row: seq<nat>, a: string, b: string, n: nat)
    requires n <= |b|
  {
    |row| == n + 1 && forall j | 0 <= j <= n :: row[j] == Distance(a, b[..j])
  }

  lemma RowStep(prev: seq<nat>, cur: seq<nat>, a: string, b: string, i: nat, j: nat)
    requires i < |a| && j < |b| && IsRow(prev, a[..i], b, |b|) && IsRow(cur, a[..i + 1], b, j)
    ensures IsRow(cur + [Min(Min(prev[j] + (if a[i] != b[j] then 1 else 0), prev[j + 1] + 1), cur[j] + 1)],
                  a[..i + 1], b, j + 1)
  {
    DistanceOfPrefixes(a, b, i, j);
  }

  /** The two-row computation. The result is the length of a shortest edit script. */
  method EditDistance(a: string, b: string) returns (d: nat)
    ensures d == Distance(a, b)
    ensures IsShortest(d, a, b)
  {
    var prev: seq<nat> := seq(|b| + 1, (j: nat) => j);
    for i := 0 to |a|
      invariant IsRow(prev, a[..i], b, |b|)
    {
      var cur: seq<nat> := [i + 1];
      for j := 0 to |b|
        invariant IsRow(cur, a[..i + 1], b, j)
      {
        RowStep(prev, cur, a, b, i, j);
        cur := cur + [Min(Min(prev[j] + (if a[i] != b[j] then 1 else 0), prev[j + 1] + 1), cur[j] + 1)];
      }
      prev := cur;
    }
    assert a[..|a|] == a && b[..|b|] == b;
    d := prev[|b|];
    DistanceIsShortest(a, b);
  }

  /** Zero exactly on equal strings. */
  lemma {:induction false} DistanceZeroIffEqual(a: string, b: string)
    ensures Distance(a, b) == 0 <==> a == b
    decreases |a| + |b|
  {
    if a != [] && b != [] {
      DistanceZeroIffEqual(Init(a), Init(b));
      assert a == Init(a) + [Last(a)] && b == Init(b) + [Last(b)];
    }
  }

  lemma {:induction false} DistanceSymmetric(a: string, b: string)
    ensures Distance(a, b) == Distance(b, a)
    decreases |a| + |b|
  {
    if a != [] && b != [] {
      DistanceSymmetric(Init(a), Init(b));
      DistanceSymmetric(Init(a), b);
      DistanceSymmetric(a, Init(b));
    }
  }

  /** Running `s` and then `t` in one script, never costing more than both. */
  function Compose(s: seq<Edit>, t: seq<Edit>, a: string, b: string, c: string): (u: seq<Edit>)
    requires Transforms(s, a, b) && Transforms(t, b, c)
    ensures Transforms(u, a, c) && Cost(u) <= Cost(s) + Cost(t)
    decreases |s| + |t|
  {
    if t != [] && Last(t).Insert? then
      Snoc(Compose(s, Init(t), a, b, Init(c)), Last(t))
    else if s != [] && Last(s).Delete? then
      Snoc(Compose(Init(s), t, Init(a), b, c), Delete)
    else if s == [] || t == [] then []
    else if Last(s).Insert? then
      if Last(t).Delete? then Compose(Init(s), Init(t), a, Init(b), c)
      else Snoc(Compose(Init(s), Init(t), a, Init(b), Init(c)), Insert(Last(c)))
    else if Last(t).Delete? then
      Snoc(Compose(Init(s), Init(t), Init(a), Init(b), c), Delete)
    else
      Snoc(Compose(Init(s), Init(t), Init(a), Init(b), Init(c)),
           if Last(s).Keep? && Last(t).Keep? then Keep else Substitute(Last(c)))
  }

  lemma DistanceTriangle(a: string, b: string, c: string)
    ensures Distance(a, c) <= Distance(a, b) + Distance(b, c)
  {
    var u := Compose(BestScript(a, b), BestScript(b, c), a, b, c);
    DistanceIsLowerBound(u, a, c);
  }
}
