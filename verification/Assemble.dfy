/** The pack pipeline of src/context/assemble.rs after retrieval: dedup, tier split, budget fit,
    regrowth, demotion, and the index of what did not make it. */
module Assemble {
  import opened Text
  import opened Sorting
  import opened Compress

  datatype Pack = Pack(
    sections: seq<Section>,
    sizeTokens: nat,
    selectedSources: seq<string>,
    droppedSources: seq<string>,
    pointerIds: seq<string>)

  // ─── Stages ─────────────────────────────────────────────────────

  function Baselines(ss: seq<Section>): seq<Section> {
    if ss == [] then [] else (if ss[0].tier.Baseline? then [ss[0]] else []) + Baselines(ss[1..])
  }

  function Others(ss: seq<Section>): seq<Section> {
    if ss == [] then [] else (if ss[0].tier.Baseline? then [] else [ss[0]]) + Others(ss[1..])
  }

  /** The sections that skip the budget, and the pool that has to fit. */
  function TierSplit(ss: seq<Section>, tiered: bool): (seq<Section>, seq<Section>) {
    if tiered then (Baselines(ss), Others(ss)) else ([], ss)
  }

  function FitPool(ss: seq<Section>, tiered: bool, budget: nat)
    : (seq<Section>, seq<Section>)
  {
    var (floor, pool) := TierSplit(ss, tiered);
    Fit(Compressed(pool), 0, SaturatingSub(budget, TotalTokens(floor)))
  }

  function Demoted(s: Section): Section {
    s.(content := ExcerptLines(s.content, 4))
  }

  /** Regrown duplicates become short excerpts, or go to the index when even those duplicate. */
  function DemoteAll(kept: seq<Section>, dupes: seq<Section>): (seq<Section>, seq<Section>)
    decreases |dupes|
  {
    if dupes == [] then (kept, [])
    else
      var s := Demoted(dupes[0]);
      if IsDupOf(s, kept) then
        var (k, o) := DemoteAll(kept, dupes[1..]);
        (k, [s] + o)
      else DemoteAll(kept + [s], dupes[1..])
  }

  /** Sections sorted and deduplicated, then fitted: floor first. */
  function Fitted(all: seq<Section>, mode: Mode, tiered: bool, budget: nat): seq<Section> {
    var kept := KeptOf(SortByPriority(all, mode));
    TierSplit(kept, tiered).0 + FitPool(kept, tiered, budget).0
  }

  function FittedOverflow(all: seq<Section>, mode: Mode, tiered: bool, budget: nat): seq<Section> {
    var sorted := SortByPriority(all, mode);
    DupesOf(sorted) + FitPool(KeptOf(sorted), tiered, budget).1
  }

  /** The pack and its overflow before the index is built. */
  function BeforeIndex(all: seq<Section>, mode: Mode, tiered: bool, full: FullContent, budget: nat)
    : (seq<Section>, seq<Section>)
  {
    var kept, overflow := Fitted(all, mode, tiered, budget), FittedOverflow(all, mode, tiered, budget);
    if full == map[] then (kept, overflow)
    else
      var grown := Relaxed(kept, full, budget);
      var (k, o) := DemoteAll(KeptOf(grown), DupesOf(grown));
      (k, overflow + o)
  }

  // ─── Overflow index ─────────────────────────────────────────────

  const INDEX_TITLE := "Also relevant"
  const INDEX_LIMIT := 25

  function IndexLine(s: Section): string {
    "- [" + s.source + "] " + s.title + " \U{2014} id " + s.entityId
  }

  function LineCost(s: Section): nat {
    EstimateTokens(IndexLine(s)) + 1
  }

  /** How many entries the index takes, in order, until one no longer fits. */
  function IndexCount(ss: seq<Section>, avail: nat): (n: nat)
    ensures n <= |ss|
  {
    if ss == [] || LineCost(ss[0]) > avail then 0 else 1 + IndexCount(ss[1..], avail - LineCost(ss[0]))
  }

  function IndexLines(ss: seq<Section>): (r: seq<string>)
    ensures |r| == |ss|
  {
    seq(|ss|, i requires 0 <= i < |ss| => IndexLine(ss[i]))
  }

  function ForIndex(overflow: seq<Section>): seq<Section> {
    var sorted := SortBy((a: Section, b: Section) => ByRelevance(a, b), overflow);
    if |sorted| > INDEX_LIMIT then sorted[..INDEX_LIMIT] else sorted
  }

  function IndexRoom(kept: seq<Section>, budget: nat): nat {
    SaturatingSub(SaturatingSub(budget, TotalTokens(kept)), EstimateTokens(INDEX_TITLE))
  }

  /** The overflow entries the index names. */
  function Indexed(kept: seq<Section>, overflow: seq<Section>, budget: nat): seq<Section> {
    ForIndex(overflow)[..IndexCount(ForIndex(overflow), IndexRoom(kept, budget))]
  }

  function IndexSection(indexed: seq<Section>): Section {
    Section("overflow_index", "index", INDEX_TITLE, Join(IndexLines(indexed), "\n"), 0, Pointer)
  }

  function WithIndex(kept: seq<Section>, overflow: seq<Section>, budget: nat): seq<Section> {
    var indexed := Indexed(kept, overflow, budget);
    if indexed == [] then kept else kept + [IndexSection(indexed)]
  }

  // ─── Metadata ───────────────────────────────────────────────────

  function Describe(ss: seq<Section>, reason: string): (r: seq<string>)
    ensures |r| == |ss|
  {
    seq(|ss|, i requires 0 <= i < |ss| => ss[i].source + ":" + ss[i].title + " (" + reason + ")")
  }

  /** One note per section that lost its place or its full content. */
  function DroppedNotes(all: seq<Section>, mode: Mode, tiered: bool, full: FullContent, budget: nat): seq<string> {
    var sorted := SortByPriority(all, mode);
    Describe(DupesOf(sorted), "duplicate content")
    + Describe(FitPool(KeptOf(sorted), tiered, budget).1, "over token budget")
    + (if full == map[] then []
       else Describe(DupesOf(Relaxed(Fitted(all, mode, tiered, budget), full, budget)), "duplicate content"))
  }

  /** Entity types delivered, each once, in order of first appearance. */
  function SelectedSources(ss: seq<Section>): seq<string> {
    if ss == [] then []
    else
      var seen, last := SelectedSources(ss[..|ss| - 1]), ss[|ss| - 1].source;
      if last != "overflow_index" && last !in seen then seen + [last] else seen
  }

  // ─── The pipeline ───────────────────────────────────────────────

  /** Everything `assemble_context` does once sections are retrieved. */
  method AssembleContext(mode: Mode, tieredPush: bool, tier0: seq<Section>, sections: seq<Section>,
                         full: FullContent, budget: nat)
    returns (pack: Pack)
    ensures var tiered := tieredPush && !mode.ColdStart?;
            var all := (if tiered then tier0 else []) + sections;
            var (kept, overflow) := BeforeIndex(all, mode, tiered, full, budget);
            && pack.sections == WithIndex(kept, overflow, budget)
            && pack.pointerIds == Ids(Indexed(kept, overflow, budget))
            && pack.sizeTokens == TotalTokens(pack.sections)
            && pack.selectedSources == SelectedSources(pack.sections)
            && pack.droppedSources == DroppedNotes(all, mode, tiered, full, budget)
  {
    hide TotalTokens, KeptOf, DupesOf, Fit, Relaxed, SortByPriority, Compressed, Describe, WithIndex, Indexed;
    var tiered := tieredPush && !mode.ColdStart?;
    var all := (if tiered then tier0 else []) + sections;
    var sorted := SortByPriority(all, mode);
    var allKept, losers := PartitionDups(sorted);
    var dropped := Describe(losers, "duplicate content");
    var overflow := losers;

    var (baseline, tier1) := TierSplit(allKept, tiered);
    var baselineTokens := Sum(baseline);
    var pool := new Section[|tier1|](i requires 0 <= i < |tier1| => tier1[i]);
    assert pool[..] == tier1;
    CompressTail(pool);
    var tier1Kept, budgetDropped := FitBudget(pool[..], SaturatingSub(budget, baselineTokens));
    dropped := dropped + Describe(budgetDropped, "over token budget");
    overflow := overflow + budgetDropped;

    var kept := baseline + tier1Kept;
    assert kept == Fitted(all, mode, tiered, budget) && overflow == FittedOverflow(all, mode, tiered, budget);
    assert full == map[] ==> dropped == DroppedNotes(all, mode, tiered, full, budget);
    if full != map[] {
      var packArray := new Section[|kept|](i requires 0 <= i < |kept| => kept[i]);
      assert packArray[..] == kept;
      var _ := RelaxCodeSections(packArray, full, budget);
      var deduped, regrowthDupes := PartitionDups(packArray[..]);
      dropped := dropped + Describe(regrowthDupes, "duplicate content");
      var demotedOverflow;
      kept, demotedOverflow := DemoteDupes(deduped, regrowthDupes);
      overflow := overflow + demotedOverflow;
    }
    assert dropped == DroppedNotes(all, mode, tiered, full, budget);
    assert kept == BeforeIndex(all, mode, tiered, full, budget).0;
    assert overflow == BeforeIndex(all, mode, tiered, full, budget).1;

    var pointerIds;
    kept, pointerIds := AddOverflowIndex(kept, overflow, budget);
    var size := Sum(kept);
    var sources := CollectSources(kept);
    pack := Pack(kept, size, sources, dropped, pointerIds);
  }

  method Sum(ss: seq<Section>) returns (total: nat)
    ensures total == TotalTokens(ss)
  {
    total := 0;
    var rest := ss;
    while rest != []
      invariant total + TotalTokens(rest) == TotalTokens(ss)
      decreases |rest|
    {
      total := total + SectionTokens(rest[0]);
      rest := rest[1..];
    }
  }

  method DemoteDupes(deduped: seq<Section>, dupes: seq<Section>) returns (kept: seq<Section>, overflow: seq<Section>)
    ensures kept == DemoteAll(deduped, dupes).0 && overflow == DemoteAll(deduped, dupes).1
  {
    hide IsDupOf, Demoted;
    kept, overflow := deduped, [];
    var rest := dupes;
    while rest != []
      invariant DemoteAll(deduped, dupes).0 == DemoteAll(kept, rest).0
      invariant DemoteAll(deduped, dupes).1 == overflow + DemoteAll(kept, rest).1
      decreases |rest|
    {
      var demoted := Demoted(rest[0]);
      if IsDupOf(demoted, kept) {
        overflow := overflow + [demoted];
      } else {
        kept := kept + [demoted];
      }
      rest := rest[1..];
    }
  }

  method AddOverflowIndex(before: seq<Section>, overflow: seq<Section>, budget: nat)
    returns (kept: seq<Section>, pointerIds: seq<string>)
    ensures kept == WithIndex(before, overflow, budget)
    ensures pointerIds == Ids(Indexed(before, overflow, budget))
  {
    hide SortBy, IndexLine;
    kept, pointerIds := before, [];
    if overflow == [] {
      EmptyOverflow(before, budget);
      return;
    }
    var keptTokens := Sum(kept);
    var avail := SaturatingSub(SaturatingSub(budget, keptTokens), EstimateTokens(INDEX_TITLE));
    var entries := ForIndex(overflow);
    var index := [];
    var n := 0;
    while n < |entries|
      invariant n <= |entries|
      invariant IndexCount(entries, IndexRoom(before, budget)) == n + IndexCount(entries[n..], avail)
      invariant index == IndexLines(entries[..n]) && pointerIds == Ids(entries[..n])
    {
      assert entries[n..][1..] == entries[n + 1..];
      var cost := LineCost(entries[n]);
      if cost > avail {
        break;
      }
      avail := avail - cost;
      index := index + [IndexLine(entries[n])];
      pointerIds := pointerIds + [entries[n].entityId];
      n := n + 1;
    }
    if index != [] {
      kept := kept + [Section("overflow_index", "index", INDEX_TITLE, Join(index, "\n"), 0, Pointer)];
    }
  }

  lemma EmptyOverflow(kept: seq<Section>, budget: nat)
    ensures Indexed(kept, [], budget) == []
  {
  }

  method CollectSources(ss: seq<Section>) returns (seen: seq<string>)
    ensures seen == SelectedSources(ss)
  {
    seen := [];
    for i := 0 to |ss|
      invariant seen == SelectedSources(ss[..i])
    {
      assert ss[..i + 1][..i] == ss[..i];
      if ss[i].source != "overflow_index" && ss[i].source !in seen {
        seen := seen + [ss[i].source];
      }
    }
    assert ss[..|ss|] == ss;
  }
}
