/** Token budgeting of context packs (src/context/compress.rs): estimates, excerpts, duplicate
    detection, budget fit and regrowth. */
module Compress {
  import opened Text
  import opened Sorting
  import Scalars

  datatype Tier = Baseline | Full | Pointer

  /** A pack section. `relevance` is the place of the score in its total order. */
  datatype Section = Section(
    source: string,
    entityId: string,
    title: string,
    content: string,
    relevance: int,
    tier: Tier)

  datatype Mode = ColdStart | Task | Escalation

  // ─── Estimates ──────────────────────────────────────────────────

  /** Characters, not bytes, divided by four. */
  function EstimateTokens(text: string): nat {
    |text| / 4
  }

  function SectionTokens(s: Section): nat {
    EstimateTokens(s.title) + EstimateTokens(s.content)
  }

  function TotalTokens(ss: seq<Section>): nat {
    if ss == [] then 0 else SectionTokens(ss[0]) + TotalTokens(ss[1..])
  }

  function Ids(ss: seq<Section>): (r: seq<string>)
    ensures |r| == |ss|
  {
    seq(|ss|, i requires 0 <= i < |ss| => ss[i].entityId)
  }

  function SaturatingSub(a: nat, b: nat): nat {
    if a >= b then a - b else 0
  }

  // ─── Priority order ─────────────────────────────────────────────

  function SourcePriority(source: string): nat {
    if source == "identity" then 0
    else if source == "rule" then 1
    else if source == "knowledge" then 2
    else if source in {"function", "class", "file", "module"} then 3
    else if source == "observation" then 4
    else 5
  }

  /** `a` may precede `b`: by relevance first when answering a query, by type first at session start. */
  predicate Precedes(mode: Mode, a: Section, b: Section) {
    var pa, pb := SourcePriority(a.source), SourcePriority(b.source);
    if mode.ColdStart? then
      pa < pb || (pa == pb && ByRelevance(a, b))
    else
      a.relevance > b.relevance
      || (a.relevance == b.relevance && (pa < pb || (pa == pb && StringLe(a.entityId, b.entityId))))
  }

  predicate ByRelevance(a: Section, b: Section) {
    a.relevance > b.relevance || (a.relevance == b.relevance && StringLe(a.entityId, b.entityId))
  }

  function SortByPriority(ss: seq<Section>, mode: Mode): seq<Section> {
    SortBy((a: Section, b: Section) => Precedes(mode, a, b), ss)
  }

  // ─── Duplicates ─────────────────────────────────────────────────

  /** Trimmed lines of more than three bytes. */
  function LineSet(content: string): set<string> {
    set l | l in Lines(content) && ByteLen(Trim(l)) > 3 :: Trim(l)
  }

  /** Jaccard index at least one half, of two nonempty line sets. */
  predicate Overlaps(a: Section, b: Section) {
    var x, y := LineSet(a.content), LineSet(b.content);
    x != {} && y != {} && 2 * |x * y| >= |x + y|
  }

  predicate IsDupOf(s: Section, others: seq<Section>) {
    exists o | o in others :: Overlaps(s, o)
  }

  /** Sections that no earlier kept section overlaps. */
  function KeptOf(ss: seq<Section>): seq<Section> {
    if ss == [] then []
    else
      var kept, last := KeptOf(ss[..|ss| - 1]), ss[|ss| - 1];
      if IsDupOf(last, kept) then kept else kept + [last]
  }

  function DupesOf(ss: seq<Section>): seq<Section> {
    if ss == [] then []
    else
      var init, last := ss[..|ss| - 1], ss[|ss| - 1];
      if IsDupOf(last, KeptOf(init)) then DupesOf(init) + [last] else DupesOf(init)
  }

  method PartitionDups(sections: seq<Section>) returns (kept: seq<Section>, dupes: seq<Section>)
    ensures kept == KeptOf(sections) && dupes == DupesOf(sections)
  {
    kept, dupes := [], [];
    for i := 0 to |sections|
      invariant kept == KeptOf(sections[..i]) && dupes == DupesOf(sections[..i])
    {
      assert sections[..i + 1][..i] == sections[..i];
      if IsDupOf(sections[i], kept) {
        dupes := dupes + [sections[i]];
      } else {
        kept := kept + [sections[i]];
      }
    }
    assert sections[..|sections|] == sections;
  }

  // ─── Excerpts and truncation ────────────────────────────────────

  function ExcerptLines(content: string, maxLines: nat): string {
    var lines := Lines(content);
    if |lines| <= maxLines then content
    else Join(lines[..maxLines], "\n") + "\n... (" + Scalars.PrintNat(|lines| - maxLines) + " more lines)"
  }

  /** Never more than the tokens asked for. */
  function TruncateToTokens(content: string, maxTokens: nat): (r: string)
    ensures EstimateTokens(r) <= maxTokens
    ensures |r| <= |content|
  {
    if maxTokens == 0 then ""
    else if |content| <= 4 * maxTokens then content
    else content[..4 * maxTokens - 3] + "..."
  }

  const TAIL_COMPRESS_RANK := 20

  /** The excerpt cap of a source past the head of the order; zero when it is left alone. */
  function TailLines(source: string): nat {
    if source == "module" then 1
    else if source == "file" then 8
    else if source == "function" || source == "class" then 4
    else if source in {"knowledge", "observation", "rule"} then 8
    else 0
  }

  function CompressAt(s: Section, rank: nat): Section {
    if rank < TAIL_COMPRESS_RANK || TailLines(s.source) == 0 then s
    else s.(content := ExcerptLines(s.content, TailLines(s.source)))
  }

  function Compressed(ss: seq<Section>): (r: seq<Section>)
    ensures |r| == |ss|
  {
    seq(|ss|, i requires 0 <= i < |ss| => CompressAt(ss[i], i))
  }

  method CompressTail(a: array<Section>)
    modifies a
    ensures a[..] == Compressed(old(a[..]))
  {
    hide CompressAt;
    for i := 0 to a.Length
      invariant forall j | 0 <= j < i :: a[j] == CompressAt(old(a[j]), j)
      invariant forall j | i <= j < a.Length :: a[j] == old(a[j])
    {
      var s := CompressAt(a[i], i);
      a[i] := s;
    }
  }

  // ─── Budget fit ─────────────────────────────────────────────────

  /** The section with its content cut to what remains after its title. */
  function Truncated(s: Section, remaining: nat): Section {
    s.(content := TruncateToTokens(s.content, SaturatingSub(remaining, EstimateTokens(s.title))))
  }

  method FitBudget(sections: seq<Section>, budget: nat) returns (kept: seq<Section>, dropped: seq<Section>)
    ensures kept == Fit(sections, 0, budget).0 && dropped == Fit(sections, 0, budget).1
  {
    kept, dropped := [], [];
    var used: nat := 0;
    var rest := sections;
    while rest != []
      invariant used <= budget
      invariant Fit(sections, 0, budget).0 == kept + Fit(rest, used, budget).0
      invariant Fit(sections, 0, budget).1 == dropped + Fit(rest, used, budget).1
      decreases |rest|
    {
      var s := rest[0];
      var cost := SectionTokens(s);
      if used + cost <= budget {
        used := used + cost;
        kept := kept + [s];
      } else if used < budget {
        kept := kept + [Truncated(s, budget - used)];
        used := budget;
      } else {
        dropped := dropped + [s];
      }
      rest := rest[1..];
    }
  }

  /** Kept and dropped sections of the rest, with `used` tokens already spent. */
  function Fit(rest: seq<Section>, used: nat, budget: nat): (seq<Section>, seq<Section>)
    requires used <= budget
  {
    if rest == [] then ([], [])
    else
      var s := rest[0];
      if used + SectionTokens(s) <= budget then
        var (k, d) := Fit(rest[1..], used + SectionTokens(s), budget);
        ([s] + k, d)
      else if used < budget then
        var (k, d) := Fit(rest[1..], budget, budget);
        ([Truncated(s, budget - used)] + k, d)
      else
        var (k, d) := Fit(rest[1..], used, budget);
        (k, [s] + d)
  }

  // ─── Regrowth ───────────────────────────────────────────────────

  function RelaxedLines(source: string): nat {
    if source == "module" then 3 else if source == "file" then 30 else 40
  }

  type FullContent = map<string, string>

  /** The text a pass would like to show. */
  function Wanted(source: string, full: string, capped: bool): string {
    if capped then ExcerptLines(full, RelaxedLines(source)) else full
  }

  /** What a section may regrow to with this much budget left. */
  function Candidate(s: Section, full: string, headroom: nat, capped: bool): string {
    var wanted := Wanted(s.source, full, capped);
    var room := headroom + EstimateTokens(s.content);
    if EstimateTokens(wanted) > room then TruncateToTokens(wanted, room) else wanted
  }

  /** The candidate replaces the content only when it is longer in bytes. */
  function Regrown(s: Section, full: FullContent, headroom: nat, capped: bool): Section {
    if s.entityId !in full then s
    else
      var c := Candidate(s, full[s.entityId], headroom, capped);
      if ByteLen(c) <= ByteLen(s.content) then s else s.(content := c)
  }

  /** One section of a pass; nothing happens once the budget is used up. */
  function RelaxAt(s: Section, full: FullContent, used: nat, budget: nat, capped: bool): Section {
    if used < budget then Regrown(s, full, budget - used, capped) else s
  }

  /** One pass from the front; `used` counts the tokens of the whole pack as they change. */
  function RelaxPass(ss: seq<Section>, full: FullContent, used: nat, budget: nat, capped: bool): (r: seq<Section>)
    requires TotalTokens(ss) <= used
    ensures |r| == |ss|
  {
    if ss == [] then []
    else
      var s := RelaxAt(ss[0], full, used, budget, capped);
      [s] + RelaxPass(ss[1..], full, used - SectionTokens(ss[0]) + SectionTokens(s), budget, capped)
  }

  /** The longer candidate costs fewer tokens, so the unsigned subtraction in the total goes below zero. */
  predicate Underflows(s: Section, full: FullContent, headroom: nat, capped: bool) {
    s.entityId in full &&
    var c := Candidate(s, full[s.entityId], headroom, capped);
    ByteLen(c) > ByteLen(s.content) && EstimateTokens(c) < EstimateTokens(s.content)
  }

  /** Some step of the pass does. */
  predicate PassUnderflows(ss: seq<Section>, full: FullContent, used: nat, budget: nat, capped: bool)
    requires TotalTokens(ss) <= used
  {
    ss != [] &&
    var s := RelaxAt(ss[0], full, used, budget, capped);
    || (used < budget && Underflows(ss[0], full, budget - used, capped))
    || PassUnderflows(ss[1..], full, used - SectionTokens(ss[0]) + SectionTokens(s), budget, capped)
  }

  /** The capped pass, then the full one. */
  function Relaxed(ss: seq<Section>, full: FullContent, budget: nat): (r: seq<Section>)
    ensures |r| == |ss|
  {
    var once := RelaxPass(ss, full, TotalTokens(ss), budget, true);
    RelaxPass(once, full, TotalTokens(once), budget, false)
  }

  predicate RelaxUnderflows(ss: seq<Section>, full: FullContent, budget: nat) {
    var once := RelaxPass(ss, full, TotalTokens(ss), budget, true);
    || PassUnderflows(ss, full, TotalTokens(ss), budget, true)
    || PassUnderflows(once, full, TotalTokens(once), budget, false)
  }

  lemma {:induction false} TotalConcat(a: seq<Section>, b: seq<Section>)
    ensures TotalTokens(a + b) == TotalTokens(a) + TotalTokens(b)
  {
    if a == [] {
      assert a + b == b;
    } else {
      assert (a + b)[1..] == a[1..] + b;
      TotalConcat(a[1..], b);
    }
  }

  lemma {:induction false} RelaxPassStops(ss: seq<Section>, full: FullContent, used: nat, budget: nat, capped: bool)
    requires TotalTokens(ss) <= used && budget <= used
    ensures RelaxPass(ss, full, used, budget, capped) == ss && !PassUnderflows(ss, full, used, budget, capped)
  {
    if ss != [] {
      RelaxPassStops(ss[1..], full, used, budget, capped);
    }
  }

  lemma TotalUpdate(ss: seq<Section>, i: nat, s: Section)
    requires i < |ss|
    ensures TotalTokens(ss[i := s]) == TotalTokens(ss) - SectionTokens(ss[i]) + SectionTokens(s)
    ensures SectionTokens(ss[i]) + TotalTokens(ss[i + 1..]) <= TotalTokens(ss)
  {
    assert ss == ss[..i] + ss[i..] && ss[i := s] == ss[..i] + ss[i := s][i..];
    assert ss[i..][1..] == ss[i + 1..] && ss[i := s][i..][1..] == ss[i + 1..];
    TotalConcat(ss[..i], ss[i..]);
    TotalConcat(ss[..i], ss[i := s][i..]);
  }

  /** A pass over `ss` with its budget. */
  datatype Pass = Pass(ss: seq<Section>, full: FullContent, budget: nat, capped: bool) {
    function Result(): (r: seq<Section>)
      ensures |r| == |ss|
    {
      RelaxPass(ss, full, TotalTokens(ss), budget, capped)
    }

    predicate Underflow() {
      PassUnderflows(ss, full, TotalTokens(ss), budget, capped)
    }

    /** The pass stands at index `i`: `now` is the pack so far, `used` its true token total, and `low` whether
        a subtraction went below zero before. */
    ghost predicate At(now: seq<Section>, i: nat, used: nat, low: bool) {
      && |now| == |ss| && i <= |ss|
      && now[i..] == ss[i..]
      && used == TotalTokens(now)
      && TotalTokens(ss[i..]) <= used
      && Result() == now[..i] + RelaxPass(ss[i..], full, used, budget, capped)
      && (Underflow() <==> low || PassUnderflows(ss[i..], full, used, budget, capped))
    }
  }

  lemma RelaxStep(p: Pass, now: seq<Section>, i: nat, used: nat, low: bool, s: Section)
    requires p.At(now, i, used, low) && i < |p.ss| && used < p.budget
    requires s == RelaxAt(now[i], p.full, used, p.budget, p.capped)
    ensures used - SectionTokens(now[i]) + SectionTokens(s) >= 0
    ensures p.At(now[i := s], i + 1, used - SectionTokens(now[i]) + SectionTokens(s),
                 low || Underflows(now[i], p.full, p.budget - used, p.capped))
  {
    hide RelaxAt, SectionTokens, Underflows;
    TotalUpdate(now, i, s);
    assert now[i] == now[i..][0] == p.ss[i..][0] == p.ss[i];
    assert p.ss[i..][1..] == p.ss[i + 1..] == now[i..][1..] == now[i + 1..];
    var next := now[i := s];
    assert next[i + 1..] == now[i + 1..];
    assert next[..i + 1] == now[..i] + [s];
  }

  lemma RelaxStart(p: Pass)
    ensures p.At(p.ss, 0, TotalTokens(p.ss), false)
  {
    assert p.ss[0..] == p.ss;
  }

  /** The pass is over at the end, or as soon as the budget is used up. */
  lemma RelaxFinish(p: Pass, now: seq<Section>, i: nat, used: nat, low: bool)
    requires p.At(now, i, used, low) && (i == |p.ss| || used >= p.budget)
    ensures now == p.Result() && used == TotalTokens(now) && (low <==> p.Underflow())
  {
    if used >= p.budget { RelaxPassStops(p.ss[i..], p.full, used, p.budget, p.capped); }
    assert now == now[..i] + now[i..];
  }

  /** One pass in place. `used` enters and leaves as the pack's token total; `low` says whether an unsigned
      subtraction went below zero, where a checked build stops and any other wraps back to the same total. */
  method RelaxOnePass(a: array<Section>, full: FullContent, budget: nat, capped: bool, before: nat)
    returns (used: nat, low: bool)
    requires before == TotalTokens(a[..])
    modifies a
    ensures a[..] == RelaxPass(old(a[..]), full, TotalTokens(old(a[..])), budget, capped)
    ensures used == TotalTokens(a[..])
    ensures low <==> PassUnderflows(old(a[..]), full, TotalTokens(old(a[..])), budget, capped)
  {
    hide TotalTokens, RelaxPass, Candidate, PassUnderflows;
    ghost var p := Pass(a[..], full, budget, capped);
    used, low := before, false;
    RelaxStart(p);
    for i := 0 to a.Length
      invariant p.At(a[..], i, used, low)
    {
      if used >= budget {
        RelaxFinish(p, a[..], i, used, low);
        return;
      }
      var s := a[i];
      ghost var now := a[..];
      RelaxStep(p, now, i, used, low, RelaxAt(s, full, used, budget, capped));
      if s.entityId in full {
        var candidate := Candidate(s, full[s.entityId], budget - used, capped);
        if ByteLen(candidate) > ByteLen(s.content) {
          low := low || EstimateTokens(candidate) < EstimateTokens(s.content);
          used := used + EstimateTokens(candidate) - EstimateTokens(s.content);
          a[i] := s.(content := candidate);
        }
      }
      assert a[..] == now[i := a[i]];
    }
    RelaxFinish(p, a[..], a.Length, used, low);
  }

  /** The token total the regrowth starts from. */
  method SumTokens(a: array<Section>) returns (used: nat)
    ensures used == TotalTokens(a[..])
  {
    used := 0;
    for i := 0 to a.Length
      invariant used == TotalTokens(a[..i])
    {
      assert a[..i + 1] == a[..i] + [a[i]];
      TotalConcat(a[..i], [a[i]]);
      used := used + SectionTokens(a[i]);
    }
    assert a[..a.Length] == a[..];
  }

  method RelaxCodeSections(a: array<Section>, full: FullContent, budget: nat) returns (low: bool)
    modifies a
    ensures a[..] == Relaxed(old(a[..]), full, budget)
    ensures low <==> RelaxUnderflows(old(a[..]), full, budget)
  {
    hide TotalTokens, RelaxPass, PassUnderflows;
    ghost var ss := a[..];
    var used := SumTokens(a);
    used, low := RelaxOnePass(a, full, budget, true, used);
    ghost var once := a[..];
    assert once == RelaxPass(ss, full, TotalTokens(ss), budget, true);
    if used >= budget {
      RelaxPassStops(once, full, used, budget, false);
    } else {
      var lowAgain;
      used, lowAgain := RelaxOnePass(a, full, budget, false, used);
      low := low || lowAgain;
    }
  }
}
