/** What duplicate removal, budget fit and regrowth promise about the sections they are given. */
module CompressLaws {
  import opened Text
  import opened Compress
  import Scalars

  // ─── Order-preserving splits ────────────────────────────────────

  /** `ss` is `a` and `b` interleaved, each in its own order. */
  ghost predicate IsSplit<T>(ss: seq<T>, a: seq<T>, b: seq<T>)
    decreases |ss|
  {
    if ss == [] then a == [] && b == []
    else
      var init, last := ss[..|ss| - 1], ss[|ss| - 1];
      || (a != [] && a[|a| - 1] == last && IsSplit(init, a[..|a| - 1], b))
      || (b != [] && b[|b| - 1] == last && IsSplit(init, a, b[..|b| - 1]))
  }

  lemma {:induction false} SplitKeepsElements<T>(ss: seq<T>, a: seq<T>, b: seq<T>)
    requires IsSplit(ss, a, b)
    ensures multiset(ss) == multiset(a) + multiset(b)
    decreases |ss|
  {
    if ss != [] {
      var init, last := ss[..|ss| - 1], ss[|ss| - 1];
      assert ss == init + [last];
      if a != [] && a[|a| - 1] == last && IsSplit(init, a[..|a| - 1], b) {
        SplitKeepsElements(init, a[..|a| - 1], b);
        assert a == a[..|a| - 1] + [last];
      } else {
        SplitKeepsElements(init, a, b[..|b| - 1]);
        assert b == b[..|b| - 1] + [last];
      }
    }
  }

  // ─── Duplicate removal ──────────────────────────────────────────

  lemma {:induction false} PartitionSplits(ss: seq<Section>)
    ensures IsSplit(ss, KeptOf(ss), DupesOf(ss))
  {
    hide IsDupOf;
    if ss != [] {
      var init, last := ss[..|ss| - 1], ss[|ss| - 1];
      PartitionSplits(init);
      if IsDupOf(last, KeptOf(init)) {
        assert DupesOf(ss)[..|DupesOf(ss)| - 1] == DupesOf(init);
      } else {
        assert KeptOf(ss)[..|KeptOf(ss)| - 1] == KeptOf(init);
      }
    }
  }

  /** No section overlaps one before it. */
  ghost predicate Apart(ss: seq<Section>) {
    forall i, j | 0 <= i < j < |ss| :: !Overlaps(ss[j], ss[i])
  }

  lemma OverlapsBothWays(a: Section, b: Section)
    ensures Overlaps(a, b) <==> Overlaps(b, a)
  {
    var x, y := LineSet(a.content), LineSet(b.content);
    assert x * y == y * x && x + y == y + x;
  }

  lemma {:induction false} KeptAreApart(ss: seq<Section>)
    ensures Apart(KeptOf(ss))
  {
    hide Overlaps;
    if ss != [] {
      KeptAreApart(ss[..|ss| - 1]);
    }
  }

  lemma {:induction false} KeptGrows(ss: seq<Section>, n: nat)
    requires n <= |ss|
    ensures KeptOf(ss[..n]) <= KeptOf(ss)
    decreases |ss|
  {
    hide IsDupOf;
    if n == |ss| {
      assert ss[..n] == ss;
    } else {
      var init := ss[..|ss| - 1];
      assert init[..n] == ss[..n];
      KeptGrows(init, n);
    }
  }

  lemma {:induction false} DupesHaveWitness(ss: seq<Section>)
    ensures forall d | d in DupesOf(ss) :: IsDupOf(d, KeptOf(ss))
  {
    hide Overlaps;
    if ss != [] {
      var n := |ss| - 1;
      DupesHaveWitness(ss[..n]);
      KeptGrows(ss, n);
      forall d | d in DupesOf(ss) ensures IsDupOf(d, KeptOf(ss)) {
        assert IsDupOf(d, KeptOf(ss[..n]));
        var k :| k in KeptOf(ss[..n]) && Overlaps(d, k);
        assert k in KeptOf(ss);
      }
    }
  }

  /** Dedup splits the sections in order; what is kept is pairwise below the threshold, in both
      directions; what is dropped overlaps something kept. */
  lemma PartitionLaw(ss: seq<Section>)
    ensures IsSplit(ss, KeptOf(ss), DupesOf(ss))
    ensures var k := KeptOf(ss); forall i, j | 0 <= i < |k| && 0 <= j < |k| && i != j :: !Overlaps(k[i], k[j])
    ensures forall d | d in DupesOf(ss) :: IsDupOf(d, KeptOf(ss))
  {
    PartitionSplits(ss);
    KeptAreApart(ss);
    DupesHaveWitness(ss);
    var k := KeptOf(ss);
    forall i, j | 0 <= i < |k| && 0 <= j < |k| && i != j ensures !Overlaps(k[i], k[j]) {
      OverlapsBothWays(k[i], k[j]);
    }
  }

  /** Each section is kept exactly when nothing kept before it overlaps it. */
  lemma KeptIffNoDupBefore(ss: seq<Section>, i: nat)
    requires i < |ss|
    ensures KeptOf(ss[..i + 1]) == KeptOf(ss[..i]) + (if IsDupOf(ss[i], KeptOf(ss[..i])) then [] else [ss[i]])
    ensures KeptOf(ss[..i + 1]) <= KeptOf(ss)
  {
    assert ss[..i + 1][..i] == ss[..i];
    KeptGrows(ss, i + 1);
  }

  /** Sections already apart from each other survive dedup when they come first. */
  lemma {:induction false} ApartPrefixSurvives(ss: seq<Section>, n: nat)
    requires n <= |ss| && Apart(ss[..n])
    ensures KeptOf(ss[..n]) == ss[..n] && ss[..n] <= KeptOf(ss)
  {
    hide Overlaps;
    ApartIsKept(ss[..n]);
    KeptGrows(ss, n);
  }

  lemma {:induction false} ApartIsKept(ss: seq<Section>)
    requires Apart(ss)
    ensures KeptOf(ss) == ss
  {
    hide Overlaps;
    if ss != [] {
      var n := |ss| - 1;
      ApartIsKept(ss[..n]);
      forall o | o in ss[..n] ensures !Overlaps(ss[n], o) {
        var i :| 0 <= i < n && ss[i] == o;
      }
      assert ss == ss[..n] + [ss[n]];
    }
  }

  // ─── Excerpts ───────────────────────────────────────────────────

  predicate IsWholeLine(l: string) {
    '\n' !in l && (l == "" || l[|l| - 1] != '\r')
  }

  lemma {:induction false} JoinedLines(ls: seq<string>, tail: string)
    requires ls != [] && forall l | l in ls :: IsWholeLine(l)
    ensures Lines(Join(ls, "\n") + ("\n" + tail)) == ls + Lines(tail)
  {
    hide Lines, IsWholeLine;
    assert ls[0] in ls;
    if |ls| == 1 {
      LineThen(ls[0], tail);
      assert Join(ls, "\n") == ls[0];
      assert ls == [ls[0]];
    } else {
      JoinedLines(ls[1..], tail);
      var rest := Join(ls[1..], "\n");
      Regroup(ls[0], "\n", rest, "\n" + tail);
      assert Join(ls, "\n") == ls[0] + "\n" + rest;
      WholeLineThen(ls[0], rest + ("\n" + tail));
      assert ls == [ls[0]] + ls[1..];
    }
  }

  lemma WholeLineThen(line: string, rest: string)
    requires IsWholeLine(line)
    ensures Lines(line + "\n" + rest) == [line] + Lines(rest)
  {
    hide Lines;
    LinesHead(line, rest);
  }

  lemma LineThen(line: string, rest: string)
    requires IsWholeLine(line)
    ensures Lines(line + ("\n" + rest)) == [line] + Lines(rest)
  {
    hide Lines;
    assert line + ("\n" + rest) == line + "\n" + rest;
    LinesHead(line, rest);
  }

  function MoreLines(n: nat): string {
    "... (" + Scalars.PrintNat(n) + " more lines)"
  }

  lemma MoreLinesIsOneLine(n: nat)
    ensures Lines(MoreLines(n)) == [MoreLines(n)]
  {
    hide Lines;
    assert '\n' !in Scalars.PrintNat(n);
    LinesLast(MoreLines(n));
  }

  /** An excerpt shows the first lines exactly as they are and says in one more line how many follow, unless
      a shown line ends in a carriage return, which joining would swallow. */
  lemma ExcerptShowsHead(content: string, n: nat)
    requires 0 < n < |Lines(content)|
    requires forall l | l in Lines(content)[..n] :: l == "" || l[|l| - 1] != '\r'
    ensures Lines(ExcerptLines(content, n)) == Lines(content)[..n] + [MoreLines(|Lines(content)| - n)]
  {
    hide Lines, ExcerptLines, MoreLines, Join;
    var head := Lines(content)[..n];
    HeadLinesAreWhole(content, n);
    JoinedLines(head, MoreLines(|Lines(content)| - n));
    MoreLinesIsOneLine(|Lines(content)| - n);
    SpellExcerpt(content, n);
  }

  lemma HeadLinesAreWhole(content: string, n: nat)
    requires n < |Lines(content)|
    requires forall l | l in Lines(content)[..n] :: l == "" || l[|l| - 1] != '\r'
    ensures forall l | l in Lines(content)[..n] :: IsWholeLine(l)
  {
    hide Lines;
    LinesHaveNoNewline(content);
    assert forall l | l in Lines(content)[..n] :: l in Lines(content);
  }

  lemma SpellExcerpt(content: string, n: nat)
    requires n < |Lines(content)|
    ensures ExcerptLines(content, n) == Join(Lines(content)[..n], "\n") + ("\n" + MoreLines(|Lines(content)| - n))
  {
    hide Lines, MoreLines, Join;
    SpellTail(Join(Lines(content)[..n], "\n"), |Lines(content)| - n);
  }

  lemma SpellTail(head: string, n: nat)
    ensures head + "\n... (" + Scalars.PrintNat(n) + " more lines)" == head + ("\n" + MoreLines(n))
  {
    assert "\n... (" == "\n" + "... (";
  }

  /** What the first lines and their line breaks take of the text. */
  lemma {:induction false} HeadLinesFit(content: string, n: nat)
    requires 0 < n < |Lines(content)|
    ensures |Join(Lines(content)[..n], "\n")| + 1 <= |content|
    decreases n
  {
    hide Join, StripCr;
    var nl := Find(content, '\n');
    var rest := content[nl + 1..];
    var line := StripCr(content[..nl]);
    assert Lines(content) == [line] + Lines(rest);
    assert |line| <= nl by { StripCrShortens(content[..nl]); }
    if n == 1 {
      assert Lines(content)[..1] == [line];
      JoinOne(line);
    } else {
      HeadLinesFit(rest, n - 1);
      assert Lines(content)[..n] == [line] + Lines(rest)[..n - 1];
      JoinMore(line, Lines(rest)[..n - 1]);
    }
  }

  lemma StripCrShortens(s: string)
    ensures |StripCr(s)| <= |s|
  {
  }

  lemma JoinOne(l: string)
    ensures Join([l], "\n") == l
  {
  }

  lemma JoinMore(l: string, ls: seq<string>)
    requires ls != []
    ensures |Join([l] + ls, "\n")| == |l| + 1 + |Join(ls, "\n")|
  {
    assert ([l] + ls)[1..] == ls;
  }

  /** Tokens an excerpt can cost beyond the text it is taken from: those of its note. */
  function NoteTokens(content: string, n: nat): nat {
    if |Lines(content)| <= n then 0 else (|MoreLines(|Lines(content)| - n)| + 3) / 4
  }

  lemma ExcerptCost(content: string, n: nat)
    requires n > 0
    ensures EstimateTokens(ExcerptLines(content, n)) <= EstimateTokens(content) + NoteTokens(content, n)
  {
    hide Lines, MoreLines, Join;
    if n < |Lines(content)| {
      HeadLinesFit(content, n);
      SpellExcerpt(content, n);
    }
  }

  lemma {:induction false} PartitionTokens(ss: seq<Section>)
    ensures TotalTokens(KeptOf(ss)) + TotalTokens(DupesOf(ss)) == TotalTokens(ss)
  {
    hide IsDupOf, SectionTokens;
    if ss != [] {
      var init, last := ss[..|ss| - 1], ss[|ss| - 1];
      PartitionTokens(init);
      assert ss == init + [last];
      TotalConcat(init, [last]);
      TotalConcat(KeptOf(init), [last]);
      TotalConcat(DupesOf(init), [last]);
    }
  }

  // ─── Budget fit ─────────────────────────────────────────────────

  function Free(ss: seq<Section>): seq<Section> {
    if ss == [] then [] else (if SectionTokens(ss[0]) == 0 then [ss[0]] else []) + Free(ss[1..])
  }

  function Costly(ss: seq<Section>): seq<Section> {
    if ss == [] then [] else (if SectionTokens(ss[0]) > 0 then [ss[0]] else []) + Costly(ss[1..])
  }

  lemma {:induction false} FitWhenFull(ss: seq<Section>, budget: nat)
    ensures Fit(ss, budget, budget).0 == Free(ss) && Fit(ss, budget, budget).1 == Costly(ss)
  {
    if ss != [] {
      FitWhenFull(ss[1..], budget);
    }
  }

  /** The longest prefix that fits whole. */
  function Whole(ss: seq<Section>, used: nat, budget: nat): seq<Section> {
    if ss == [] || used + SectionTokens(ss[0]) > budget then []
    else [ss[0]] + Whole(ss[1..], used + SectionTokens(ss[0]), budget)
  }

  /** What follows that prefix. */
  function Beyond(ss: seq<Section>, used: nat, budget: nat): seq<Section> {
    if ss == [] || used + SectionTokens(ss[0]) > budget then ss
    else Beyond(ss[1..], used + SectionTokens(ss[0]), budget)
  }

  lemma {:induction false} WholeIsLongest(ss: seq<Section>, used: nat, budget: nat)
    requires used <= budget
    ensures ss == Whole(ss, used, budget) + Beyond(ss, used, budget)
    ensures used + TotalTokens(Whole(ss, used, budget)) <= budget
    ensures Beyond(ss, used, budget) != [] ==>
              used + TotalTokens(Whole(ss, used, budget)) + SectionTokens(Beyond(ss, used, budget)[0]) > budget
  {
    hide SectionTokens;
    if ss != [] && used + SectionTokens(ss[0]) <= budget {
      var more := used + SectionTokens(ss[0]);
      WholeIsLongest(ss[1..], more, budget);
      TotalConcat([ss[0]], Whole(ss[1..], more, budget));
      OneSection(ss[0]);
      assert ss == [ss[0]] + ss[1..];
    }
  }

  /** The first section that does not fit whole: cut to what is left, or nothing when nothing is left. */
  function CutSection(s: Section, remaining: nat): seq<Section> {
    if remaining > 0 then [Truncated(s, remaining)] else []
  }

  function FitBeyond(beyond: seq<Section>, remaining: nat): (seq<Section>, seq<Section>) {
    if beyond == [] then ([], [])
    else
      (CutSection(beyond[0], remaining) + Free(beyond[1..]),
       (if remaining > 0 then [] else [beyond[0]]) + Costly(beyond[1..]))
  }

  lemma FitAtMisfit(ss: seq<Section>, used: nat, budget: nat)
    requires used <= budget && (ss != [] ==> used + SectionTokens(ss[0]) > budget)
    ensures Fit(ss, used, budget).0 == FitBeyond(ss, budget - used).0
    ensures Fit(ss, used, budget).1 == FitBeyond(ss, budget - used).1
  {
    hide SectionTokens, Truncated;
    if ss != [] {
      FitWhenFull(ss[1..], budget);
    }
  }

  /** The outcome in closed form: a prefix kept whole, at most one section cut, and from there on every
      costless section kept and every other dropped. */
  lemma {:induction false} FitClosedForm(ss: seq<Section>, used: nat, budget: nat)
    requires used <= budget
    ensures var whole, beyond := Whole(ss, used, budget), Beyond(ss, used, budget);
            && used + TotalTokens(whole) <= budget
            && Fit(ss, used, budget).0 == whole + FitBeyond(beyond, budget - used - TotalTokens(whole)).0
            && Fit(ss, used, budget).1 == FitBeyond(beyond, budget - used - TotalTokens(whole)).1
  {
    hide SectionTokens, Truncated, FitBeyond;
    WholeIsLongest(ss, used, budget);
    if ss != [] && used + SectionTokens(ss[0]) <= budget {
      var more := used + SectionTokens(ss[0]);
      FitClosedForm(ss[1..], more, budget);
      TotalConcat([ss[0]], Whole(ss[1..], more, budget));
      OneSection(ss[0]);
    } else {
      FitAtMisfit(ss, used, budget);
    }
  }

  lemma {:induction false} FreeCostNothing(ss: seq<Section>)
    ensures TotalTokens(Free(ss)) == 0
    ensures forall s | s in Costly(ss) :: SectionTokens(s) >= 1
    ensures forall s | s in Free(ss) :: SectionTokens(s) == 0
  {
    hide SectionTokens;
    if ss != [] {
      FreeCostNothing(ss[1..]);
      assert Free(ss) == (if SectionTokens(ss[0]) == 0 then [ss[0]] else []) + Free(ss[1..]);
      if SectionTokens(ss[0]) == 0 {
        TotalConcat([ss[0]], Free(ss[1..]));
        OneSection(ss[0]);
      } else {
        assert Free(ss) == Free(ss[1..]);
      }
    }
  }

  lemma TruncatedCost(s: Section, remaining: nat)
    ensures SectionTokens(Truncated(s, remaining)) <=
            if EstimateTokens(s.title) > remaining then EstimateTokens(s.title) else remaining
  {
  }

  lemma OneSection(s: Section)
    ensures TotalTokens([s]) == SectionTokens(s)
  {
    assert [s][1..] == [];
  }

  /** What the title alone costs beyond what was left for the whole section. */
  function TitleExcess(s: Section, budget: nat, used: nat): nat {
    SaturatingSub(EstimateTokens(s.title), SaturatingSub(budget, used))
  }

  /** The kept total exceeds the budget at most by what the cut section's title exceeds the remainder by,
      and every dropped section would have cost something. */
  lemma FitRespectsBudget(ss: seq<Section>, budget: nat)
    ensures var (kept, dropped) := Fit(ss, 0, budget);
            var whole, beyond := Whole(ss, 0, budget), Beyond(ss, 0, budget);
            && TotalTokens(kept)
               <= budget + (if beyond == [] then 0 else TitleExcess(beyond[0], budget, TotalTokens(whole)))
            && (forall s | s in dropped :: SectionTokens(s) >= 1)
  {
    hide SectionTokens, Truncated;
    FitClosedForm(ss, 0, budget);
    WholeIsLongest(ss, 0, budget);
    var whole, beyond := Whole(ss, 0, budget), Beyond(ss, 0, budget);
    var remaining := budget - TotalTokens(whole);
    TotalConcat(whole, FitBeyond(beyond, remaining).0);
    if beyond != [] {
      TotalConcat(CutSection(beyond[0], remaining), Free(beyond[1..]));
      FreeCostNothing(beyond[1..]);
      TruncatedCost(beyond[0], remaining);
      OneSection(Truncated(beyond[0], remaining));
    }
  }

  /** Truncation renames nothing, so as far as entities go the fit is an order-preserving split. */
  lemma {:induction false} FitConservesIds(ss: seq<Section>, used: nat, budget: nat)
    requires used <= budget
    ensures multiset(Ids(ss)) == multiset(Ids(Fit(ss, used, budget).0)) + multiset(Ids(Fit(ss, used, budget).1))
  {
    hide SectionTokens, Truncated;
    if ss != [] {
      var s, rest := ss[0], ss[1..];
      var next := if used + SectionTokens(s) <= budget then used + SectionTokens(s) else budget;
      FitConservesIds(rest, next, budget);
      FitOneId(s, rest, used, next, budget);
      IdsCons(s, rest);
      assert ss == [s] + rest;
    }
  }

  lemma TruncatedKeepsId(s: Section, remaining: nat)
    ensures Truncated(s, remaining).entityId == s.entityId
  {
  }

  lemma FitOneId(s: Section, rest: seq<Section>, used: nat, next: nat, budget: nat)
    requires used <= budget
    requires next == if used + SectionTokens(s) <= budget then used + SectionTokens(s) else budget
    ensures var (k, d) := Fit(rest, next, budget);
            var (k', d') := Fit([s] + rest, used, budget);
            multiset(Ids(k')) + multiset(Ids(d')) == multiset{s.entityId} + (multiset(Ids(k)) + multiset(Ids(d)))
  {
    hide SectionTokens, Truncated, Ids;
    assert ([s] + rest)[1..] == rest;
    var (k, d) := Fit(rest, next, budget);
    IdsCons(s, k);
    if used < budget {
      TruncatedKeepsId(s, budget - used);
      IdsCons(Truncated(s, budget - used), k);
    }
    IdsCons(s, d);
  }

  lemma IdsCons(s: Section, ss: seq<Section>)
    ensures Ids([s] + ss) == [s.entityId] + Ids(ss)
    ensures multiset(Ids([s] + ss)) == multiset{s.entityId} + multiset(Ids(ss))
  {
    assert Ids([s] + ss) == [s.entityId] + Ids(ss);
  }

  // ─── Regrowth ───────────────────────────────────────────────────

  /** The content is one the full text can give: the text, an excerpt of it, or a cut of either. */
  ghost predicate IsFormOf(c: string, full: string, source: string) {
    var excerpt := ExcerptLines(full, RelaxedLines(source));
    c == full || c == excerpt || exists n :: c == TruncateToTokens(full, n) || c == TruncateToTokens(excerpt, n)
  }

  /** What regrowth may do to one section. */
  ghost predicate GrownFrom(before: Section, after: Section, full: FullContent) {
    && after == before.(content := after.content)
    && ByteLen(after.content) >= ByteLen(before.content)
    && (after.content != before.content ==>
          before.entityId in full && IsFormOf(after.content, full[before.entityId], before.source))
  }

  lemma CandidateFits(s: Section, full: string, headroom: nat, capped: bool)
    ensures var c := Candidate(s, full, headroom, capped);
            && EstimateTokens(c) <= headroom + EstimateTokens(s.content)
            && IsFormOf(c, full, s.source)
  {
    hide ExcerptLines, TruncateToTokens;
  }

  lemma RelaxAtGrows(s: Section, full: FullContent, used: nat, budget: nat, capped: bool)
    ensures var r := RelaxAt(s, full, used, budget, capped);
            && GrownFrom(s, r, full)
            && (used >= budget ==> r == s)
            && (used < budget ==> SectionTokens(r) <= SectionTokens(s) + (budget - used))
  {
    hide Candidate, IsFormOf, ByteLen;
    if used < budget && s.entityId in full {
      CandidateFits(s, full[s.entityId], budget - used, capped);
    }
  }

  lemma {:induction false} RelaxPassGrows(ss: seq<Section>, full: FullContent, used: nat, budget: nat, capped: bool)
    requires TotalTokens(ss) <= used
    ensures var r := RelaxPass(ss, full, used, budget, capped);
            && (forall i | 0 <= i < |ss| :: GrownFrom(ss[i], r[i], full))
            && used - TotalTokens(ss) + TotalTokens(r) <= (if used >= budget then used else budget)
  {
    hide RelaxAt, SectionTokens, GrownFrom;
    if ss != [] {
      var s := RelaxAt(ss[0], full, used, budget, capped);
      RelaxAtGrows(ss[0], full, used, budget, capped);
      RelaxPassGrows(ss[1..], full, used - SectionTokens(ss[0]) + SectionTokens(s), budget, capped);
    }
  }

  lemma GrownTwice(a: Section, b: Section, c: Section, full: FullContent)
    requires GrownFrom(a, b, full) && GrownFrom(b, c, full)
    ensures GrownFrom(a, c, full)
  {
    hide IsFormOf;
  }

  /** Regrowth over both passes: the pack ends within the budget, or where it started if that was more;
      no section gets shorter; only mapped sections change, and only to forms of their full text. */
  lemma RelaxLaw(ss: seq<Section>, full: FullContent, budget: nat)
    ensures var r := Relaxed(ss, full, budget);
            && TotalTokens(r) <= (if TotalTokens(ss) >= budget then TotalTokens(ss) else budget)
            && (forall i | 0 <= i < |ss| :: GrownFrom(ss[i], r[i], full))
            && (forall i | 0 <= i < |ss| && ss[i].entityId !in full :: r[i] == ss[i])
            && Ids(r) == Ids(ss)
  {
    hide TotalTokens, RelaxPass, IsFormOf, ByteLen;
    var once := RelaxPass(ss, full, TotalTokens(ss), budget, true);
    RelaxPassGrows(ss, full, TotalTokens(ss), budget, true);
    RelaxPassGrows(once, full, TotalTokens(once), budget, false);
    var r := Relaxed(ss, full, budget);
    forall i | 0 <= i < |ss| ensures GrownFrom(ss[i], r[i], full) {
      GrownTwice(ss[i], once[i], r[i], full);
    }
  }

  // ─── The unsigned total ─────────────────────────────────────────

  predicate IsAscii(s: string) {
    forall c | c in s :: c as int < 0x80
  }

  lemma {:induction false} AsciiByteLen(s: string)
    requires IsAscii(s)
    ensures ByteLen(s) == |s|
  {
    if s != [] {
      assert s[0] in s && forall c | c in s[1..] :: c in s;
      AsciiByteLen(s[1..]);
    }
  }

  /** No text of fewer bytes costs more tokens: bytes are compared, characters are counted. */
  predicate IsTame(t: string) {
    t == "" || (ByteLen(t) - 1) / 4 <= EstimateTokens(t)
  }

  lemma TruncatedCostsRoom(t: string, room: nat)
    requires EstimateTokens(t) > room
    ensures room == 0 ==> ByteLen(TruncateToTokens(t, room)) == 0
    ensures room > 0 ==> EstimateTokens(TruncateToTokens(t, room)) == room
  {
  }

  lemma TameNeverUnderflows(s: Section, full: FullContent, headroom: nat, capped: bool)
    requires s.entityId in full ==> IsTame(Wanted(s.source, full[s.entityId], capped))
    ensures !Underflows(s, full, headroom, capped)
  {
    hide Wanted, TruncateToTokens, ByteLen;
    if s.entityId in full {
      var w, room := Wanted(s.source, full[s.entityId], capped), headroom + EstimateTokens(s.content);
      if EstimateTokens(w) > room {
        TruncatedCostsRoom(w, room);
      } else if ByteLen(w) > ByteLen(s.content) {
        EmptyHasNoBytes(w);
        assert |s.content| <= ByteLen(w) - 1;
      }
    }
  }

  lemma EmptyHasNoBytes(t: string)
    ensures t == "" ==> ByteLen(t) == 0
  {
  }

  /** The dearest text of fewer bytes. */
  function Dearest(t: string): string {
    if t == "" then "" else seq(ByteLen(t) - 1, (i: nat) => 'a')
  }

  lemma WildUnderflows(s: Section, full: FullContent, headroom: nat, capped: bool)
    requires s.entityId in full && !IsTame(Wanted(s.source, full[s.entityId], capped))
    requires s.content == Dearest(Wanted(s.source, full[s.entityId], capped))
    ensures Underflows(s, full, headroom, capped)
  {
    hide Wanted, TruncateToTokens, ByteLen;
    AsciiByteLen(s.content);
  }

  /** For a source and a full text: no section, with any content and headroom, underflows in a pass exactly
      when the text the pass wants to show is tame. */
  lemma CandidateSafeExactly(source: string, id: string, full: FullContent, capped: bool)
    requires id in full
    ensures (forall s: Section, headroom: nat | s.source == source && s.entityId == id ::
               !Underflows(s, full, headroom, capped))
            <==> IsTame(Wanted(source, full[id], capped))
  {
    hide Wanted, Underflows, IsTame, Dearest;
    if IsTame(Wanted(source, full[id], capped)) {
      forall s: Section, headroom: nat | s.source == source && s.entityId == id
        ensures !Underflows(s, full, headroom, capped)
      {
        TameNeverUnderflows(s, full, headroom, capped);
      }
    } else {
      var s := Section(source, id, "", Dearest(Wanted(source, full[id], capped)), 0, Full);
      WildUnderflows(s, full, 1, capped);
    }
  }

  /** Every text a pass may want to show is tame. */
  ghost predicate AreTame(full: FullContent, capped: bool) {
    forall id, source | id in full :: IsTame(Wanted(source, full[id], capped))
  }

  lemma {:induction false} TamePassIsSafe(ss: seq<Section>, full: FullContent, used: nat, budget: nat, capped: bool)
    requires AreTame(full, capped) && TotalTokens(ss) <= used
    ensures !PassUnderflows(ss, full, used, budget, capped)
  {
    hide Underflows, RelaxAt, IsTame, Wanted, SectionTokens;
    if ss != [] {
      if used < budget { TameNeverUnderflows(ss[0], full, budget - used, capped); }
      var s := RelaxAt(ss[0], full, used, budget, capped);
      TamePassIsSafe(ss[1..], full, used - SectionTokens(ss[0]) + SectionTokens(s), budget, capped);
    }
  }

  lemma WildPassUnderflows(full: FullContent, id: string, source: string, capped: bool)
    requires id in full && !IsTame(Wanted(source, full[id], capped))
    ensures exists ss: seq<Section>, budget: nat :: PassUnderflows(ss, full, TotalTokens(ss), budget, capped)
  {
    hide Wanted, Underflows, IsTame, Dearest, RelaxAt;
    var s := Section(source, id, "", Dearest(Wanted(source, full[id], capped)), 0, Full);
    WildUnderflows(s, full, 1, capped);
    OneStepUnderflows(s, full, 1, capped);
  }

  lemma OneStepUnderflows(s: Section, full: FullContent, headroom: nat, capped: bool)
    requires headroom > 0 && Underflows(s, full, headroom, capped)
    ensures PassUnderflows([s], full, TotalTokens([s]), TotalTokens([s]) + headroom, capped)
  {
    hide Underflows, RelaxAt;
  }

  /** A pass over any sections with any budget is free of underflow exactly when every text it may want to
      show is tame; then its machine arithmetic is the model's. */
  lemma PassSafeExactly(full: FullContent, capped: bool)
    ensures (forall ss: seq<Section>, budget: nat :: !PassUnderflows(ss, full, TotalTokens(ss), budget, capped))
            <==> AreTame(full, capped)
  {
    hide PassUnderflows, IsTame, Wanted;
    if AreTame(full, capped) {
      forall ss: seq<Section>, budget: nat ensures !PassUnderflows(ss, full, TotalTokens(ss), budget, capped) {
        TamePassIsSafe(ss, full, TotalTokens(ss), budget, capped);
      }
    } else {
      var id, source :| id in full && !IsTame(Wanted(source, full[id], capped));
      WildPassUnderflows(full, id, source, capped);
    }
  }

  /** Both passes together. */
  lemma TameRelaxIsSafe(ss: seq<Section>, full: FullContent, budget: nat)
    requires AreTame(full, true) && AreTame(full, false)
    ensures !RelaxUnderflows(ss, full, budget)
  {
    hide PassUnderflows, AreTame, RelaxPass;
    TamePassIsSafe(ss, full, TotalTokens(ss), budget, true);
    var once := RelaxPass(ss, full, TotalTokens(ss), budget, true);
    TamePassIsSafe(once, full, TotalTokens(once), budget, false);
  }

  lemma AsciiIsTame(t: string)
    requires IsAscii(t)
    ensures IsTame(t)
  {
    AsciiByteLen(t);
  }

  // ─── An excerpt of its own text that underflows ─────────────────

  /** Ten short lines, each with its newline. */
  function Rows(n: nat): string {
    if n == 0 then "" else "a" + "\n" + Rows(n - 1)
  }

  function RowLines(n: nat): (r: seq<string>)
    ensures |r| == n
  {
    seq(n, (i: nat) => "a")
  }

  lemma {:induction false} LinesOfRows(n: nat, last: string)
    requires '\n' !in last && last != ""
    ensures Lines(Rows(n) + last) == RowLines(n) + [last]
  {
    hide Lines;
    if n == 0 {
      LinesLast(last);
      assert "" + last == last;
      assert RowLines(0) + [last] == [last];
    } else {
      LinesOfRows(n - 1, last);
      assert Rows(n) + last == "a" + "\n" + (Rows(n - 1) + last);
      LinesHead("a", Rows(n - 1) + last);
      assert StripCr("a") == "a";
      assert RowLines(n) == ["a"] + RowLines(n - 1);
    }
  }

  lemma {:induction false} JoinedRows(n: nat)
    requires n > 0
    ensures |Join(RowLines(n), "\n")| == 2 * n - 1 && IsAscii(Join(RowLines(n), "\n"))
  {
    if n > 1 {
      JoinedRows(n - 1);
      assert RowLines(n)[1..] == RowLines(n - 1);
    }
  }

  lemma {:induction false} RowsLength(n: nat)
    ensures |Rows(n)| == 2 * n && IsAscii(Rows(n))
  {
    if n > 0 {
      RowsLength(n - 1);
    }
  }

  lemma {:induction false} ByteLenConcat(s: string, t: string)
    ensures ByteLen(s + t) == ByteLen(s) + ByteLen(t)
  {
    if s == [] {
      assert s + t == t;
    } else {
      assert (s + t)[1..] == s[1..] + t;
      ByteLenConcat(s[1..], t);
    }
  }

  /** The excerpt of such a text shows the rows and counts one more line. */
  lemma RowsExcerpt(last: string)
    requires '\n' !in last && last != ""
    ensures var e := ExcerptLines(Rows(10) + last, 10); |e| == 38 && ByteLen(e) == 38
  {
    hide Lines, Join, ExcerptLines, ByteLen;
    var t := Rows(10) + last;
    LinesOfRows(10, last);
    assert Lines(t)[..10] == RowLines(10);
    SpellExcerpt(t, 10);
    JoinedRows(10);
    OneMoreLine();
    AsciiByteLen(Join(RowLines(10), "\n") + ("\n" + MoreLines(1)));
  }

  lemma OneMoreLine()
    ensures |MoreLines(1)| == 18 && IsAscii(MoreLines(1))
  {
    assert Scalars.PrintNat(1) == "1";
  }

  /** The input: a function of ten short lines and a last one of seven wide characters, shown as every pack
      shows a function, by its first ten lines. For any budget left, the capped pass replaces 38 bytes by 41
      and 9 tokens by 6. */
  lemma OwnExcerptUnderflows(s: Section, wide: string, full: FullContent, headroom: nat)
    requires s.source == "function" && s.entityId in full && headroom > 0
    requires full[s.entityId] == Rows(10) + wide && |wide| == 7 && forall c | c in wide :: c == '\U{4E2D}'
    requires s.content == ExcerptLines(full[s.entityId], 10)
    ensures PassUnderflows([s], full, TotalTokens([s]), TotalTokens([s]) + headroom, true)
  {
    hide Lines, ExcerptLines, ByteLen, Rows;
    var t := full[s.entityId];
    assert wide[0] in wide;
    RowsExcerpt(wide);
    RowsLength(10);
    AsciiByteLen(Rows(10));
    ByteLenConcat(Rows(10), wide);
    WideByteLen(wide);
    LinesOfRows(10, wide);
    ShortIsItsExcerpt(t, 40);
    OneStepUnderflows(s, full, headroom, true);
  }

  lemma ShortIsItsExcerpt(t: string, n: nat)
    requires |Lines(t)| <= n
    ensures ExcerptLines(t, n) == t
  {
    hide Lines;
  }

  lemma {:induction false} WideByteLen(s: string)
    requires forall c | c in s :: c == '\U{4E2D}'
    ensures ByteLen(s) == 3 * |s|
  {
    if s != [] {
      assert s[0] in s && forall c | c in s[1..] :: c in s;
      WideByteLen(s[1..]);
    }
  }
}
