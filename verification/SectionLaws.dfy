/** What single sections go through (src/context/compress.rs, src/context/assemble.rs): when two of them count as
    duplicates, what a cut one still shows, and which are shortened for their rank. */
module SectionLaws {
  import opened Text
  import opened Sorting
  import opened Compress
  import opened CompressLaws
  import opened Assemble
  import opened AssembleLaws
  import Scalars

  // ─── Duplicates ─────────────────────────────────────────────────

  /** The line counts: trimmed, it has more than three bytes and is one of the content's. */
  ghost predicate HasLine(content: string, line: string) {
    ByteLen(line) > 3 && exists l | l in Lines(content) :: Trim(l) == line
  }

  lemma LineSetExactly(content: string, line: string)
    ensures line in LineSet(content) <==> HasLine(content, line)
  {
    hide Lines, Trim, ByteLen;
  }

  lemma {:induction false} SetOverlap<T>(x: set<T>, y: set<T>)
    ensures |x + y| + |x * y| == |x| + |y|
  {
    assert x + y == x + (y - x) && x !! (y - x);
    assert y == (y - x) + (x * y) && (y - x) !! (x * y);
    assert |x + y| == |x| + |y - x|;
    assert |y| == |y - x| + |x * y|;
  }

  /** Two sections are duplicates exactly when they share a line that counts and three times the shared ones are
      at least the lines of both sides together, that is, the shared ones are half of the union. */
  lemma OverlapsExactly(a: Section, b: Section, x: set<string>, y: set<string>)
    requires forall l :: l in x <==> HasLine(a.content, l)
    requires forall l :: l in y <==> HasLine(b.content, l)
    ensures Overlaps(a, b) <==> x * y != {} && 3 * |x * y| >= |x| + |y|
  {
    hide HasLine, LineSet;
    forall l ensures l in x <==> l in LineSet(a.content) { LineSetExactly(a.content, l); }
    forall l ensures l in y <==> l in LineSet(b.content) { LineSetExactly(b.content, l); }
    assert x == LineSet(a.content) && y == LineSet(b.content);
    SetOverlap(x, y);
    NonEmptyUnion(x, y);
  }

  lemma NonEmptyUnion<T>(x: set<T>, y: set<T>)
    ensures x != {} ==> |x + y| > 0
    ensures x * y == {} ==> |x * y| == 0
  {
    if a :| a in x {
      assert a in x + y;
    }
  }

  /** Same lines but for white space around them. */
  ghost predicate IsReindented(a: string, b: string) {
    |Lines(a)| == |Lines(b)| && forall i | 0 <= i < |Lines(a)| :: Trim(Lines(a)[i]) == Trim(Lines(b)[i])
  }

  lemma ReindentedOverlaps(a: Section, b: Section, line: string)
    requires IsReindented(a.content, b.content) && HasLine(a.content, line)
    ensures Overlaps(a, b)
  {
    hide Lines, Trim, ByteLen, LineSet;
    forall l ensures l in LineSet(a.content) <==> l in LineSet(b.content) {
      LineSetExactly(a.content, l);
      LineSetExactly(b.content, l);
      if HasLine(a.content, l) { ReindentedLine(a.content, b.content, l); }
      if HasLine(b.content, l) { ReindentedLine(b.content, a.content, l); }
    }
    var x := LineSet(a.content);
    assert x == LineSet(b.content) && x * x == x && x + x == x;
    LineSetExactly(a.content, line);
  }

  lemma ReindentedLine(a: string, b: string, l: string)
    requires IsReindented(a, b) && HasLine(a, l)
    ensures HasLine(b, l)
  {
    hide Lines, Trim, ByteLen;
    var k :| k in Lines(a) && Trim(k) == l;
    var i :| 0 <= i < |Lines(a)| && Lines(a)[i] == k;
    assert Lines(b)[i] in Lines(b);
  }

  /** Of two copies that differ in indentation only, one is dropped, wherever they stand. */
  lemma ReindentedCopyIsDropped(ss: seq<Section>, i: nat, j: nat, line: string)
    requires i < j < |ss| && IsReindented(ss[i].content, ss[j].content) && HasLine(ss[i].content, line)
    ensures !(IsKept(ss, i) && IsKept(ss, j))
  {
    hide Overlaps, KeptOf, IsReindented, HasLine;
    if IsKept(ss, i) {
      ReindentedOverlaps(ss[i], ss[j], line);
      OverlapsBothWays(ss[i], ss[j]);
      KeptIsIn(ss, i);
      KeptGrows(ss[..j], i + 1);
      assert ss[..j][..i + 1] == ss[..i + 1];
      assert ss[i] in KeptOf(ss[..j]);
      assert IsDupOf(ss[j], KeptOf(ss[..j]));
      KeptIffNoDupBefore(ss, j);
      assert |KeptOf(ss[..j + 1])| == |KeptOf(ss[..j])|;
    }
  }

  /** The section at this place is kept. */
  predicate IsKept(ss: seq<Section>, i: nat)
    requires i < |ss|
  {
    KeptOf(ss[..i + 1]) == KeptOf(ss[..i]) + [ss[i]]
  }

  lemma KeptIsIn(ss: seq<Section>, i: nat)
    requires i < |ss| && IsKept(ss, i)
    ensures ss[i] in KeptOf(ss[..i + 1])
  {
    hide KeptOf;
    assert (KeptOf(ss[..i]) + [ss[i]])[|KeptOf(ss[..i])|] == ss[i];
  }

  // ─── Truncation ─────────────────────────────────────────────────

  /** A text that fits is left alone; any other becomes its own first characters and an ellipsis, exactly as long
      as allowed, or nothing when nothing is allowed. */
  lemma TruncatedText(content: string, n: nat)
    ensures var r := TruncateToTokens(content, n);
            && (|content| <= 4 * n ==> r == content)
            && (n == 0 ==> r == "")
            && (0 < 4 * n < |content| ==> |r| == 4 * n && r[4 * n - 3..] == "..." && r[..4 * n - 3] <= content)
  {
    if 0 < 4 * n < |content| {
      var r := content[..4 * n - 3] + "...";
      assert r[4 * n - 3..] == "..." && r[..4 * n - 3] == content[..4 * n - 3];
    }
  }

  /** The one section the fit cuts keeps everything but its content, of which it shows the beginning, in exactly
      the tokens its title leaves of the rest of the budget. */
  lemma CutShowsHead(s: Section, remaining: nat)
    requires SectionTokens(s) > remaining
    ensures var c := Truncated(s, remaining);
            && c == s.(content := c.content)
            && (EstimateTokens(s.title) >= remaining ==> c.content == "")
            && (EstimateTokens(s.title) < remaining ==>
                  && SectionTokens(c) == remaining
                  && |c.content| >= 4 && c.content[..|c.content| - 3] <= s.content
                  && c.content[|c.content| - 3..] == "...")
  {
    hide TruncateToTokens;
    TruncatedText(s.content, SaturatingSub(remaining, EstimateTokens(s.title)));
  }

  // ─── Rank ───────────────────────────────────────────────────────

  /** The first twenty sections are left alone, and so are sources nobody excerpts; a module keeps one line,
      code four, files and written entities eight. */
  lemma ExcerptedByRank(ss: seq<Section>, i: nat)
    requires i < |ss|
    ensures var (s, r) := (ss[i], Compressed(ss)[i]);
            && r == s.(content := r.content)
            && (i < 20 ==> r == s)
            && (i >= 20 && s.source == "module" ==> r.content == ExcerptLines(s.content, 1))
            && (i >= 20 && s.source in {"function", "class"} ==> r.content == ExcerptLines(s.content, 4))
            && (i >= 20 && s.source in {"file", "knowledge", "observation", "rule"} ==>
                  r.content == ExcerptLines(s.content, 8))
            && (s.source !in {"module", "function", "class", "file", "knowledge", "observation", "rule"} ==> r == s)
  {
    hide ExcerptLines;
  }

  // ─── Demotion ───────────────────────────────────────────────────

  /** The duplicates as they are demoted: their first four lines. */
  function Excerpts(dupes: seq<Section>): (r: seq<Section>)
    ensures |r| == |dupes|
  {
    seq(|dupes|, i requires 0 <= i < |dupes| => dupes[i].(content := ExcerptLines(dupes[i].content, 4)))
  }

  /** Demotion keeps what was kept and goes through the excerpts in order: each duplicates nothing before it and is
      added, or duplicates something kept and goes to the overflow. */
  lemma {:induction false} DemotionLaw(kept: seq<Section>, dupes: seq<Section>)
    requires Apart(kept)
    ensures var (k, o) := DemoteAll(kept, dupes);
            && kept <= k && Apart(k)
            && IsMerge(Excerpts(dupes), k[|kept|..], o)
            && (forall s | s in o :: IsDupOf(s, k))
    decreases |dupes|
  {
    hide Apart, IsDupOf, ExcerptLines;
    var (k, o) := DemoteAll(kept, dupes);
    if dupes == [] {
      assert k[|kept|..] == [] && Excerpts(dupes) == [];
    } else {
      var s := Demoted(dupes[0]);
      assert Excerpts(dupes)[0] == s && Excerpts(dupes)[1..] == Excerpts(dupes[1..]);
      if IsDupOf(s, kept) {
        DemotionLaw(kept, dupes[1..]);
        DupOfMore(s, kept, k);
      } else {
        StillApart(kept, s);
        DemotionLaw(kept + [s], dupes[1..]);
        assert k[|kept|..] == [s] + k[|kept| + 1..];
      }
    }
  }

  lemma DupOfMore(s: Section, kept: seq<Section>, k: seq<Section>)
    requires kept <= k && IsDupOf(s, kept)
    ensures IsDupOf(s, k)
  {
    hide Overlaps;
    var o :| o in kept && Overlaps(s, o);
    assert o in k;
  }

  lemma StillApart(kept: seq<Section>, s: Section)
    requires Apart(kept) && !IsDupOf(s, kept)
    ensures Apart(kept + [s])
  {
    hide Overlaps;
  }

  // ─── The index text and the notes ───────────────────────────────

  /** Line by line the index names source, title and id of its entries. */
  lemma IndexText(s: Section, more: seq<Section>)
    ensures var i := IndexSection([s] + more);
            i.source == "overflow_index" && i.entityId == "index" && i.title == "Also relevant" && i.tier.Pointer?
    ensures IndexSection([s]).content == "- [" + s.source + "] " + s.title + " \U{2014} id " + s.entityId
    ensures more != [] ==>
              IndexSection([s] + more).content == IndexSection([s]).content + "\n" + IndexSection(more).content
  {
    hide IndexLine;
    assert IndexLines([s]) == [IndexLine(s)];
    assert IndexLines([s] + more) == [IndexLine(s)] + IndexLines(more);
    assert ([IndexLine(s)] + IndexLines(more))[1..] == IndexLines(more);
    assert IndexLine(s) == "- [" + s.source + "] " + s.title + " \U{2014} id " + s.entityId by { SpellIndexLine(s); }
  }

  lemma SpellIndexLine(s: Section)
    ensures IndexLine(s) == "- [" + s.source + "] " + s.title + " \U{2014} id " + s.entityId
  {
  }

  ghost predicate IsNoted(ss: seq<Section>, reason: string, note: string) {
    exists s | s in ss :: note == s.source + ":" + s.title + " (" + reason + ")"
  }

  lemma DescribeExactly(ss: seq<Section>, reason: string, note: string)
    ensures note in Describe(ss, reason) <==> IsNoted(ss, reason, note)
  {
    var notes := Describe(ss, reason);
    if note in notes {
      var i :| 0 <= i < |notes| && notes[i] == note;
      assert ss[i] in ss && note == ss[i].source + ":" + ss[i].title + " (" + reason + ")";
    }
    if s :| s in ss && note == s.source + ":" + s.title + " (" + reason + ")" {
      var i :| 0 <= i < |ss| && ss[i] == s;
      assert notes[i] == note;
    }
  }

  /** A pack notes each section that lost its place to a duplicate, each the budget dropped, and each regrown
      duplicate, with the reason, and nothing else. */
  lemma NotesExactly(all: seq<Section>, mode: Mode, tiered: bool, full: FullContent, budget: nat, note: string)
    ensures note in DroppedNotes(all, mode, tiered, full, budget) <==>
            || IsNoted(DupesOf(SortByPriority(all, mode)), "duplicate content", note)
            || IsNoted(FitPool(KeptOf(SortByPriority(all, mode)), tiered, budget).1, "over token budget", note)
            || IsNoted(RegrownDupes(all, mode, tiered, full, budget), "duplicate content", note)
  {
    hide DupesOf, KeptOf, SortByPriority, FitPool, Relaxed, Fitted, Describe, IsNoted;
    var sorted := SortByPriority(all, mode);
    DescribeExactly(DupesOf(sorted), "duplicate content", note);
    DescribeExactly(FitPool(KeptOf(sorted), tiered, budget).1, "over token budget", note);
    DescribeExactly(RegrownDupes(all, mode, tiered, full, budget), "duplicate content", note);
    if full == map[] { NothingNoted("duplicate content", note); }
  }

  lemma NothingNoted(reason: string, note: string)
    ensures Describe([], reason) == []
  {
  }

  /** The kinds of sources a session starts with, in that order; all others come last. */
  const KINDS: seq<set<string>> :=
    [{"identity"}, {"rule"}, {"knowledge"}, {"function", "class", "file", "module"}, {"observation"}]

  lemma SourceOrder(a: string, b: string, i: nat, j: nat)
    requires i < |KINDS| && a in KINDS[i]
    ensures j < |KINDS| && b in KINDS[j] ==> (SourcePriority(a) < SourcePriority(b) <==> i < j)
    ensures (forall kind | kind in KINDS :: b !in kind) ==> SourcePriority(a) < SourcePriority(b)
  {
    assert KINDS[0] in KINDS && KINDS[1] in KINDS && KINDS[2] in KINDS && KINDS[3] in KINDS && KINDS[4] in KINDS;
  }

  /** The tiers keep the order of the sections. */
  lemma {:induction false} TiersInOrder(ss: seq<Section>)
    ensures IsMerge(ss, TierSplit(ss, true).0, TierSplit(ss, true).1)
    ensures forall s | s in TierSplit(ss, true).0 :: s.tier.Baseline?
    ensures forall s | s in TierSplit(ss, true).1 :: !s.tier.Baseline?
  {
    if ss != [] {
      TiersInOrder(ss[1..]);
      var floor, pool := Baselines(ss[1..]), Others(ss[1..]);
      if ss[0].tier.Baseline? {
        assert Baselines(ss) == [ss[0]] + floor && Baselines(ss)[1..] == floor && Others(ss) == pool;
      } else {
        assert Others(ss) == [ss[0]] + pool && Others(ss)[1..] == pool && Baselines(ss) == floor;
      }
    }
  }

  /** An untiered pack has no floor: what the fit keeps is bounded by the budget and one title. */
  lemma UntieredRespectsBudget(all: seq<Section>, mode: Mode, budget: nat)
    ensures TotalTokens(Fitted(all, mode, false, budget))
            <= budget + FitExcess(KeptOf(SortByPriority(all, mode)), false, budget)
  {
    hide KeptOf, SortByPriority, FitExcess, Fitted;
    FittedCost(all, mode, false, budget);
  }
}
