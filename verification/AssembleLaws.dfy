/** What the pack pipeline keeps: every entity, every baseline section, and the budget of the index. */
module AssembleLaws {
  import opened Text
  import opened Sorting
  import opened Compress
  import opened CompressLaws
  import opened Assemble

  // ─── No entity is lost ──────────────────────────────────────────

  lemma IdsConcat(a: seq<Section>, b: seq<Section>)
    ensures Ids(a + b) == Ids(a) + Ids(b)
    ensures multiset(Ids(a + b)) == multiset(Ids(a)) + multiset(Ids(b))
  {
    assert Ids(a + b) == Ids(a) + Ids(b);
  }

  lemma TakeOut(ss: seq<Section>, i: nat)
    requires i < |ss|
    ensures multiset(ss) == multiset{ss[i]} + multiset(ss[..i] + ss[i + 1..])
    ensures multiset(Ids(ss)) == multiset{ss[i].entityId} + multiset(Ids(ss[..i] + ss[i + 1..]))
  {
    hide Ids;
    assert ss == ss[..i] + ([ss[i]] + ss[i + 1..]);
    IdsCons(ss[i], ss[i + 1..]);
    IdsConcat(ss[..i], [ss[i]] + ss[i + 1..]);
    IdsConcat(ss[..i], ss[i + 1..]);
  }

  lemma {:induction false} SameElementsSameIds(a: seq<Section>, b: seq<Section>)
    requires multiset(a) == multiset(b)
    ensures multiset(Ids(a)) == multiset(Ids(b))
    decreases |a|
  {
    hide Ids;
    if a == [] {
      assert |b| == |multiset(b)| == 0;
    } else {
      assert a[0] in multiset(b);
      var i :| 0 <= i < |b| && b[i] == a[0];
      TakeOut(a, 0);
      TakeOut(b, i);
      var restA, restB := a[..0] + a[1..], b[..i] + b[i + 1..];
      assert multiset(restA) == multiset(a) - multiset{a[0]};
      assert multiset(restB) == multiset(b) - multiset{a[0]};
      SameElementsSameIds(restA, restB);
    }
  }

  lemma DedupConservesIds(ss: seq<Section>)
    ensures multiset(Ids(ss)) == multiset(Ids(KeptOf(ss))) + multiset(Ids(DupesOf(ss)))
  {
    hide Ids, KeptOf, DupesOf;
    var k, d := KeptOf(ss), DupesOf(ss);
    PartitionSplits(ss);
    SplitKeepsElements(ss, k, d);
    SameElementsSameIds(ss, k + d);
    IdsConcat(k, d);
  }

  lemma {:induction false} TierSplitConserves(ss: seq<Section>)
    ensures multiset(ss) == multiset(Baselines(ss)) + multiset(Others(ss))
  {
    if ss != [] {
      TierSplitConserves(ss[1..]);
      assert ss == [ss[0]] + ss[1..];
    }
  }

  lemma CompressionRenamesNothing(ss: seq<Section>)
    ensures Ids(Compressed(ss)) == Ids(ss)
  {
  }

  lemma FitPoolConservesIds(kept: seq<Section>, tiered: bool, budget: nat)
    ensures var (k, d) := FitPool(kept, tiered, budget);
            multiset(Ids(kept)) == multiset(Ids(TierSplit(kept, tiered).0)) + multiset(Ids(k)) + multiset(Ids(d))
  {
    hide Ids, Compressed, TotalTokens, Fit;
    var (floor, pool) := TierSplit(kept, tiered);
    TierSplitConserves(kept);
    SameElementsSameIds(kept, floor + pool);
    IdsConcat(floor, pool);
    CompressionRenamesNothing(pool);
    FitConservesIds(Compressed(pool), 0, SaturatingSub(budget, TotalTokens(floor)));
  }

  lemma SortConservesIds(ss: seq<Section>, mode: Mode)
    ensures multiset(Ids(SortByPriority(ss, mode))) == multiset(Ids(ss))
  {
    hide Ids;
    SortKeepsElements((a: Section, b: Section) => Precedes(mode, a, b), ss);
    SameElementsSameIds(SortByPriority(ss, mode), ss);
  }

  lemma FittedConservesIds(all: seq<Section>, mode: Mode, tiered: bool, budget: nat)
    ensures multiset(Ids(all)) ==
            multiset(Ids(Fitted(all, mode, tiered, budget))) + multiset(Ids(FittedOverflow(all, mode, tiered, budget)))
  {
    hide Ids, KeptOf, DupesOf, SortByPriority, FitPool, TierSplit;
    var sorted := SortByPriority(all, mode);
    SortConservesIds(all, mode);
    DedupConservesIds(sorted);
    var kept := KeptOf(sorted);
    FitPoolConservesIds(kept, tiered, budget);
    var (k, d) := FitPool(kept, tiered, budget);
    IdsConcat(TierSplit(kept, tiered).0, k);
    IdsConcat(DupesOf(sorted), d);
  }

  lemma {:induction false} DemotionConservesIds(kept: seq<Section>, dupes: seq<Section>)
    ensures var (k, o) := DemoteAll(kept, dupes);
            multiset(Ids(kept)) + multiset(Ids(dupes)) == multiset(Ids(k)) + multiset(Ids(o))
    decreases |dupes|
  {
    hide Ids, IsDupOf, Demoted;
    if dupes == [] {
      IdsOfNone();
    } else {
      var s, rest := Demoted(dupes[0]), dupes[1..];
      DemotedKeepsId(dupes[0]);
      assert dupes == [dupes[0]] + rest;
      IdsCons(dupes[0], rest);
      if IsDupOf(s, kept) {
        var (k, o) := DemoteAll(kept, rest);
        DemotionConservesIds(kept, rest);
        IdsCons(s, o);
        AddToBoth(multiset(Ids(kept)), multiset(Ids(rest)), multiset(Ids(k)), multiset(Ids(o)), s.entityId);
      } else {
        DemotionConservesIds(kept + [s], rest);
        IdsConcat(kept, [s]);
        assert [s] == [s] + [];
        IdsCons(s, []);
        IdsOfNone();
      }
    }
  }

  lemma AddToBoth(a: multiset<string>, b: multiset<string>, c: multiset<string>, d: multiset<string>, x: string)
    requires a + b == c + d
    ensures a + (multiset{x} + b) == c + (multiset{x} + d)
  {
    assert a + (multiset{x} + b) == multiset{x} + (a + b);
    assert c + (multiset{x} + d) == multiset{x} + (c + d);
  }

  lemma DemotedKeepsId(s: Section)
    ensures Demoted(s).entityId == s.entityId
  {
  }

  lemma IdsOfNone()
    ensures multiset(Ids([])) == multiset{}
  {
    assert Ids([]) == [];
  }

  /** Dedup, fit, regrowth and demotion lose no entity and invent none: each input id is in the pack or in
      the overflow, as often as it came in. */
  lemma NoEntityIsLost(all: seq<Section>, mode: Mode, tiered: bool, full: FullContent, budget: nat)
    ensures var (kept, overflow) := BeforeIndex(all, mode, tiered, full, budget);
            multiset(Ids(all)) == multiset(Ids(kept)) + multiset(Ids(overflow))
  {
    hide Ids, KeptOf, DupesOf, DemoteAll, Fitted, FittedOverflow, Relaxed, GrownFrom;
    FittedConservesIds(all, mode, tiered, budget);
    if full != map[] {
      var kept := Fitted(all, mode, tiered, budget);
      RelaxLaw(kept, full, budget);
      var grown := Relaxed(kept, full, budget);
      DedupConservesIds(grown);
      DemotionConservesIds(KeptOf(grown), DupesOf(grown));
      IdsConcat(FittedOverflow(all, mode, tiered, budget), DemoteAll(KeptOf(grown), DupesOf(grown)).1);
    }
  }

  // ─── The floor ships ────────────────────────────────────────────

  lemma {:induction false} BaselinesAreApart(ss: seq<Section>)
    requires Apart(ss)
    ensures Apart(Baselines(ss))
    ensures forall b | b in Baselines(ss) :: b in ss && b.tier.Baseline?
    ensures forall b | b in ss && b.tier.Baseline? :: b in Baselines(ss)
  {
    hide Overlaps;
    if ss != [] {
      forall i, j | 0 <= i < j < |ss[1..]| ensures !Overlaps(ss[1..][j], ss[1..][i]) {
        assert ss[1..][j] == ss[j + 1] && ss[1..][i] == ss[i + 1];
      }
      BaselinesAreApart(ss[1..]);
      forall b | b in Baselines(ss[1..]) ensures !Overlaps(b, ss[0]) {
        assert b in ss[1..];
        var i :| 0 <= i < |ss[1..]| && ss[1..][i] == b;
        assert ss[i + 1] == b;
      }
    }
  }

  lemma {:induction false} DemotionOnlyAppends(kept: seq<Section>, dupes: seq<Section>)
    ensures kept <= DemoteAll(kept, dupes).0
    decreases |dupes|
  {
    hide IsDupOf, Demoted;
    if dupes != [] {
      var s := Demoted(dupes[0]);
      DemotionOnlyAppends(if IsDupOf(s, kept) then kept else kept + [s], dupes[1..]);
    }
  }

  /** In a tiered pack the baseline sections that survive the first dedup come first, unmodified and in
      order, through regrowth, the second dedup and the index, when none of them has full content to
      regrow to. */
  lemma BaselineShipsUnmodified(all: seq<Section>, mode: Mode, full: FullContent, budget: nat)
    requires forall b | b in Baselines(KeptOf(SortByPriority(all, mode))) :: b.entityId !in full
    ensures var floor := Baselines(KeptOf(SortByPriority(all, mode)));
            var (kept, overflow) := BeforeIndex(all, mode, true, full, budget);
            floor <= kept && floor <= WithIndex(kept, overflow, budget)
  {
    hide KeptOf, SortByPriority, FitPool, Relaxed, GrownFrom, Overlaps, DemoteAll, Indexed;
    var survivors := KeptOf(SortByPriority(all, mode));
    var floor := Baselines(survivors);
    KeptAreApart(SortByPriority(all, mode));
    BaselinesAreApart(survivors);
    if full != map[] {
      var fitted := Fitted(all, mode, true, budget);
      var grown := Relaxed(fitted, full, budget);
      RelaxLaw(fitted, full, budget);
      forall i | 0 <= i < |floor| ensures grown[i] == floor[i] {
        assert fitted[i] == floor[i] && floor[i] in floor;
      }
      assert grown[..|floor|] == floor;
      ApartPrefixSurvives(grown, |floor|);
      DemotionOnlyAppends(KeptOf(grown), DupesOf(grown));
    }
  }

  lemma DedupOfTwo(a: Section, b: Section)
    requires Overlaps(b, a)
    ensures KeptOf([a, b]) == [a] && DupesOf([a, b]) == [b]
  {
    hide Overlaps;
    assert [a, b][..1] == [a] && [a][..0] == [];
    assert KeptOf([a]) == [a] && DupesOf([a]) == [];
    assert a in [a];
  }

  lemma SortOfTwo(a: Section, b: Section, mode: Mode)
    ensures SortByPriority([a, b], mode) == if Precedes(mode, a, b) then [a, b] else [b, a]
  {
    hide Precedes;
    SortTwo((x: Section, y: Section) => Precedes(mode, x, y), a, b);
  }

  /** When a search finds what the floor holds too, the floor's copy, listed first, is the one that stays exactly
      when it is at least as relevant: outside a session start relevance is compared before the list's order. */
  lemma FloorPreferredExactly(floor: Section, hit: Section, mode: Mode)
    requires floor.tier.Baseline? && !hit.tier.Baseline? && Overlaps(floor, hit) && !mode.ColdStart?
    requires floor.source == hit.source && floor.entityId == hit.entityId
    ensures var kept := KeptOf(SortByPriority([floor, hit], mode));
            && (kept == [floor] || kept == [hit])
            && (TierSplit(kept, true).0 == [floor] <==> floor.relevance >= hit.relevance)
            && (floor.relevance < hit.relevance ==> TierSplit(kept, true) == ([], [hit]))
  {
    hide Overlaps, KeptOf, SortByPriority;
    SortOfTwo(floor, hit, mode);
    StringLeTotal(floor.entityId, floor.entityId);
    OverlapsBothWays(floor, hit);
    DedupOfTwo(floor, hit);
    DedupOfTwo(hit, floor);
    assert Baselines([floor]) == [floor] && Others([floor]) == [] && Baselines([hit]) == [] && Others([hit]) == [hit];
  }

  // ─── The index pays for itself ──────────────────────────────────

  function TotalCost(ss: seq<Section>): nat {
    if ss == [] then 0 else LineCost(ss[0]) + TotalCost(ss[1..])
  }

  lemma {:induction false} IndexCostsFit(ss: seq<Section>, avail: nat)
    ensures TotalCost(ss[..IndexCount(ss, avail)]) <= avail
    ensures IndexCount(ss, avail) < |ss| ==> TotalCost(ss[..IndexCount(ss, avail) + 1]) > avail
  {
    hide LineCost;
    var n := IndexCount(ss, avail);
    if n > 0 {
      IndexCostsFit(ss[1..], avail - LineCost(ss[0]));
      assert ss[..n][1..] == ss[1..][..n - 1];
      if n < |ss| { assert ss[..n + 1][1..] == ss[1..][..n]; }
    } else if ss != [] {
      assert ss[..1][1..] == [];
      assert TotalCost(ss[..1]) == LineCost(ss[0]) + TotalCost([]);
    }
  }

  function LineLength(ss: seq<Section>): nat {
    if ss == [] then 0 else |IndexLine(ss[0])| + LineLength(ss[1..])
  }

  lemma {:induction false} JoinedLength(ss: seq<Section>)
    requires ss != []
    ensures |Join(IndexLines(ss), "\n")| == LineLength(ss) + |ss| - 1
  {
    hide IndexLine;
    var lines := IndexLines(ss);
    if |ss| == 1 {
      assert LineLength(ss[1..]) == 0;
    } else {
      assert lines[1..] == IndexLines(ss[1..]);
      JoinedLength(ss[1..]);
    }
  }

  lemma {:induction false} LengthBelowCost(ss: seq<Section>)
    ensures LineLength(ss) + |ss| <= 4 * TotalCost(ss)
  {
    hide IndexLine;
    if ss != [] {
      LengthBelowCost(ss[1..]);
    }
  }

  /** The charge of `len / 4 + 1` per line covers the joined text with a token to spare, whatever the
      rounding. */
  lemma IndexTokensBelowCost(ss: seq<Section>)
    requires ss != []
    ensures SectionTokens(IndexSection(ss)) < EstimateTokens(INDEX_TITLE) + TotalCost(ss)
  {
    hide IndexLine, IndexLines, LineCost;
    JoinedLength(ss);
    LengthBelowCost(ss);
  }

  /** The index is only emitted into room it does not exhaust: with it the pack is below the budget,
      without it the pack is as it was. It names as many overflow entities as fit, at most the limit. */
  lemma IndexStaysWithinBudget(kept: seq<Section>, overflow: seq<Section>, budget: nat)
    ensures var final := WithIndex(kept, overflow, budget);
            && (final == kept || TotalTokens(final) < budget)
            && TotalTokens(final) <= (if TotalTokens(kept) >= budget then TotalTokens(kept) else budget)
    ensures var n := |Indexed(kept, overflow, budget)|;
            && Indexed(kept, overflow, budget) == ForIndex(overflow)[..n]
            && (n < |ForIndex(overflow)| ==> TotalCost(ForIndex(overflow)[..n + 1]) > IndexRoom(kept, budget))
  {
    hide ForIndex, SectionTokens;
    var indexed := Indexed(kept, overflow, budget);
    IndexCostsFit(ForIndex(overflow), IndexRoom(kept, budget));
    if indexed != [] {
      IndexTokensBelowCost(indexed);
      TotalConcat(kept, [IndexSection(indexed)]);
      OneSection(IndexSection(indexed));
    }
  }

  /** Every id the index points to is an entity of the overflow. */
  lemma PointersAreOverflow(kept: seq<Section>, overflow: seq<Section>, budget: nat)
    ensures forall s | s in Indexed(kept, overflow, budget) :: s in overflow
  {
    var le := (a: Section, b: Section) => ByRelevance(a, b);
    SortKeepsElements(le, overflow);
    forall s | s in Indexed(kept, overflow, budget) ensures s in overflow {
      assert s in SortBy(le, overflow);
      assert s in multiset(SortBy(le, overflow));
    }
  }

  // ─── The whole pack ─────────────────────────────────────────────

  /** What the notes of demoted excerpts may add. */
  function NotesCost(dupes: seq<Section>): nat {
    if dupes == [] then 0 else NoteTokens(dupes[0].content, 4) + NotesCost(dupes[1..])
  }

  lemma DemotedCost(s: Section)
    ensures SectionTokens(Demoted(s)) <= SectionTokens(s) + NoteTokens(s.content, 4)
  {
    ExcerptCost(s.content, 4);
  }

  lemma {:induction false} DemotionCost(kept: seq<Section>, dupes: seq<Section>)
    ensures TotalTokens(DemoteAll(kept, dupes).0) <= TotalTokens(kept) + TotalTokens(dupes) + NotesCost(dupes)
    decreases |dupes|
  {
    hide IsDupOf, Demoted, SectionTokens, NoteTokens;
    if dupes != [] {
      var s := Demoted(dupes[0]);
      DemotedCost(dupes[0]);
      TotalConcat(kept, [s]);
      OneSection(s);
      DemotionCost(if IsDupOf(s, kept) then kept else kept + [s], dupes[1..]);
    }
  }

  /** The tokens by which the one cut section's title exceeds what the floor left for it. */
  function FitExcess(kept: seq<Section>, tiered: bool, budget: nat): nat {
    var (floor, pool) := TierSplit(kept, tiered);
    var ss, room := Compressed(pool), SaturatingSub(budget, TotalTokens(floor));
    var beyond := Beyond(ss, 0, room);
    if beyond == [] then 0 else TitleExcess(beyond[0], room, TotalTokens(Whole(ss, 0, room)))
  }

  function Larger(a: nat, b: nat): nat {
    if a >= b then a else b
  }

  lemma FittedCost(all: seq<Section>, mode: Mode, tiered: bool, budget: nat)
    ensures var kept := KeptOf(SortByPriority(all, mode));
            TotalTokens(Fitted(all, mode, tiered, budget))
            <= Larger(budget, TotalTokens(TierSplit(kept, tiered).0)) + FitExcess(kept, tiered, budget)
  {
    hide TotalTokens, KeptOf, SortByPriority, Fit, Whole, Beyond, TitleExcess, Compressed, TierSplit;
    var kept := KeptOf(SortByPriority(all, mode));
    var (floor, pool) := TierSplit(kept, tiered);
    var ss, room := Compressed(pool), SaturatingSub(budget, TotalTokens(floor));
    FitRespectsBudget(ss, room);
    TotalConcat(floor, Fit(ss, 0, room).0);
  }

  /** The duplicates regrowth brings back. */
  function RegrownDupes(all: seq<Section>, mode: Mode, tiered: bool, full: FullContent, budget: nat): seq<Section> {
    if full == map[] then [] else DupesOf(Relaxed(Fitted(all, mode, tiered, budget), full, budget))
  }

  /** The delivered pack, index included, costs at most the larger of the budget and the floor, plus the title
      excess of one cut section, plus the notes of the excerpts regrown duplicates are demoted to. */
  lemma PackCost(all: seq<Section>, mode: Mode, tiered: bool, full: FullContent, budget: nat)
    ensures var kept := KeptOf(SortByPriority(all, mode));
            var bound := Larger(budget, TotalTokens(TierSplit(kept, tiered).0)) + FitExcess(kept, tiered, budget)
                         + NotesCost(RegrownDupes(all, mode, tiered, full, budget));
            var (pack, overflow) := BeforeIndex(all, mode, tiered, full, budget);
            TotalTokens(pack) <= bound && TotalTokens(WithIndex(pack, overflow, budget)) <= bound
  {
    hide TotalTokens, KeptOf, DupesOf, SortByPriority, Relaxed, DemoteAll, NotesCost, FitExcess, Fitted, FittedOverflow,
      TierSplit, GrownFrom, WithIndex, Indexed;
    FittedCost(all, mode, tiered, budget);
    if full != map[] {
      var fitted := Fitted(all, mode, tiered, budget);
      var grown := Relaxed(fitted, full, budget);
      RelaxLaw(fitted, full, budget);
      PartitionTokens(grown);
      DemotionCost(KeptOf(grown), DupesOf(grown));
    }
    var (pack, overflow) := BeforeIndex(all, mode, tiered, full, budget);
    IndexStaysWithinBudget(pack, overflow, budget);
  }

  lemma RelevanceIsPreorder()
    ensures TotalPreorder((a: Section, b: Section) => ByRelevance(a, b))
  {
    hide StringLe;
    forall a: Section, b: Section ensures ByRelevance(a, b) || ByRelevance(b, a) {
      StringLeTotal(a.entityId, b.entityId);
    }
    forall a: Section, b: Section, c: Section | ByRelevance(a, b) && ByRelevance(b, c) ensures ByRelevance(a, c) {
      if StringLe(a.entityId, b.entityId) && StringLe(b.entityId, c.entityId) {
        StringLeTransitive(a.entityId, b.entityId, c.entityId);
      }
    }
  }

  lemma PriorityIsPreorder(mode: Mode)
    ensures TotalPreorder((a: Section, b: Section) => Precedes(mode, a, b))
  {
    hide StringLe, SourcePriority;
    forall a: Section, b: Section ensures Precedes(mode, a, b) || Precedes(mode, b, a) {
      StringLeTotal(a.entityId, b.entityId);
    }
    forall a: Section, b: Section, c: Section | Precedes(mode, a, b) && Precedes(mode, b, c)
      ensures Precedes(mode, a, c)
    {
      if StringLe(a.entityId, b.entityId) && StringLe(b.entityId, c.entityId) {
        StringLeTransitive(a.entityId, b.entityId, c.entityId);
      }
    }
  }

  /** Of two sections that duplicate each other, it is never the lower-priority one that stays: what dedup
      drops overlaps a kept section that may precede it. */
  lemma DedupPrefersPriority(all: seq<Section>, mode: Mode, d: Section)
    requires d in DupesOf(SortByPriority(all, mode))
    ensures exists k | k in KeptOf(SortByPriority(all, mode)) :: Overlaps(d, k) && Precedes(mode, k, d)
  {
    hide SortByPriority, KeptOf, DupesOf, Overlaps, Precedes, IsSorted, TotalPreorder;
    var sorted := SortByPriority(all, mode);
    PriorityIsPreorder(mode);
    SortedByPriority(all, mode);
    var i := DupeAt(sorted, d);
    var k :| k in KeptOf(sorted[..i]) && Overlaps(d, k);
    KeptGrows(sorted, i);
    KeptComeFrom(sorted[..i]);
    var j :| 0 <= j < i && sorted[j] == k;
    SortedAt(mode, sorted, j, i);
  }

  lemma SortedByPriority(all: seq<Section>, mode: Mode)
    ensures IsSorted((a: Section, b: Section) => Precedes(mode, a, b), SortByPriority(all, mode))
  {
    hide Precedes, IsSorted, TotalPreorder, SortBy;
    PriorityIsPreorder(mode);
    SortSorts((a: Section, b: Section) => Precedes(mode, a, b), all);
  }

  /** What the order means: a query is answered by relevance first, a session starts with identity, rules,
      knowledge, code, observations, in that order; the other key, then the id, breaks ties. */
  lemma PriorityOrder(all: seq<Section>, mode: Mode, i: nat, j: nat)
    requires i < j < |SortByPriority(all, mode)|
    ensures var (a, b) := (SortByPriority(all, mode)[i], SortByPriority(all, mode)[j]);
            var (pa, pb) := (SourcePriority(a.source), SourcePriority(b.source));
            && (!mode.ColdStart? ==> a.relevance >= b.relevance && (a.relevance == b.relevance ==> pa <= pb))
            && (mode.ColdStart? ==> pa <= pb && (pa == pb ==> a.relevance >= b.relevance))
            && (pa == pb && a.relevance == b.relevance ==> StringLe(a.entityId, b.entityId))
  {
    hide SortByPriority, SourcePriority, IsSorted;
    SortedByPriority(all, mode);
    SortedAt(mode, SortByPriority(all, mode), i, j);
  }

  lemma SortedAt(mode: Mode, ss: seq<Section>, j: nat, i: nat)
    requires IsSorted((a: Section, b: Section) => Precedes(mode, a, b), ss) && j < i < |ss|
    ensures Precedes(mode, ss[j], ss[i])
  {
    hide Precedes;
  }

  lemma {:induction false} DupeAt(ss: seq<Section>, d: Section) returns (i: nat)
    requires d in DupesOf(ss)
    ensures i < |ss| && ss[i] == d && IsDupOf(d, KeptOf(ss[..i]))
  {
    hide IsDupOf;
    var n := |ss| - 1;
    if d == ss[n] && IsDupOf(d, KeptOf(ss[..n])) {
      i := n;
    } else {
      i := DupeAt(ss[..n], d);
      assert ss[..n][..i] == ss[..i];
    }
  }

  lemma {:induction false} KeptComeFrom(ss: seq<Section>)
    ensures forall k | k in KeptOf(ss) :: k in ss
  {
    hide IsDupOf;
    if ss != [] {
      KeptComeFrom(ss[..|ss| - 1]);
      assert ss == ss[..|ss| - 1] + [ss[|ss| - 1]];
    }
  }

  /** Up to twenty-five entries of the overflow compete for the index. */
  lemma IndexSize(overflow: seq<Section>)
    ensures |ForIndex(overflow)| == if |overflow| < 25 then |overflow| else 25
  {
    hide SortBy, ByRelevance;
    var le := (a: Section, b: Section) => ByRelevance(a, b);
    var sorted := SortBy(le, overflow);
    SortKeepsElements(le, overflow);
    assert |sorted| == |multiset(sorted)| && |overflow| == |multiset(overflow)|;
  }

  /** What the index names comes, in the order of relevance, before everything it leaves out. */
  lemma IndexIsMostRelevant(kept: seq<Section>, overflow: seq<Section>, budget: nat)
    ensures var indexed := Indexed(kept, overflow, budget);
            && |indexed| <= 25
            && exists left ::
                 && multiset(indexed + left) == multiset(overflow)
                 && forall i, s | 0 <= i < |indexed| && s in left :: ByRelevance(indexed[i], s)
  {
    hide ByRelevance, IndexCount, IndexRoom, SortBy;
    var le := (a: Section, b: Section) => ByRelevance(a, b);
    RelevanceIsPreorder();
    SortSorts(le, overflow);
    SortKeepsElements(le, overflow);
    var sorted := SortBy(le, overflow);
    var n := |Indexed(kept, overflow, budget)|;
    assert Indexed(kept, overflow, budget) == sorted[..n];
    assert sorted == sorted[..n] + sorted[n..];
    forall i, s | 0 <= i < n && s in sorted[n..] ensures ByRelevance(sorted[..n][i], s) {
      var j :| 0 <= j < |sorted[n..]| && sorted[n..][j] == s;
      assert le(sorted[i], sorted[n + j]);
    }
    assert multiset(sorted[..n] + sorted[n..]) == multiset(overflow);
  }

  // ─── Metadata ───────────────────────────────────────────────────

  ghost predicate HasSource(ss: seq<Section>, x: string) {
    exists s | s in ss :: s.source == x
  }

  lemma HasSourceLast(init: seq<Section>, last: Section, x: string)
    ensures HasSource(init + [last], x) <==> HasSource(init, x) || x == last.source
  {
    if HasSource(init, x) {
      var s :| s in init && s.source == x;
      assert s in init + [last];
    }
    assert last in init + [last];
  }

  ghost predicate Distinct(r: seq<string>) {
    forall i, j | 0 <= i < j < |r| :: r[i] != r[j]
  }

  lemma AppendFresh(r: seq<string>, x: string)
    requires Distinct(r) && x !in r
    ensures Distinct(r + [x])
  {
    forall i, j | 0 <= i < j < |r + [x]| ensures (r + [x])[i] != (r + [x])[j] {
      if j < |r| {
        assert r[i] != r[j];
      } else {
        assert r[i] in r;
      }
    }
  }

  /** The delivered entity types, without repetition and without the index itself. */
  lemma {:induction false} SelectedSourcesExact(ss: seq<Section>)
    ensures Distinct(SelectedSources(ss))
    ensures forall x :: x in SelectedSources(ss) <==> x != "overflow_index" && HasSource(ss, x)
  {
    hide HasSource, Distinct;
    if ss == [] {
      forall x ensures !HasSource(ss, x) { NoSourceInNone(x); }
      NoneDistinct();
    } else {
      var init, last := ss[..|ss| - 1], ss[|ss| - 1];
      SelectedSourcesExact(init);
      var seen := SelectedSources(init);
      if last.source != "overflow_index" && last.source !in seen {
        AppendFresh(seen, last.source);
      }
      assert SelectedSources(ss) ==
             if last.source != "overflow_index" && last.source !in seen then seen + [last.source] else seen;
      assert ss == init + [last];
      forall x ensures HasSource(ss, x) <==> HasSource(init, x) || x == last.source {
        HasSourceLast(init, last, x);
      }
    }
  }

  lemma NoneDistinct()
    ensures Distinct([])
  {
  }

  lemma NoSourceInNone(x: string)
    ensures !HasSource([], x)
  {
  }
}
