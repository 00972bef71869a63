/** Observation-to-rule promotion (src/consolidate/promote.rs). */
module Promote {
  import opened Scalars
  import opened FrontmatterFormat
  import opened EntityFiles
  import opened Refs
  import opened ConsolidationState

  /** A row of the active-observation query. */
  datatype Observation = Observation(id: string, title: Option<string>, content: string)

  datatype Candidate = Candidate(observation: Observation, supporters: seq<string>)

  datatype PromotionResult = PromotionResult(observationId: string, ruleId: string, supporters: nat)

  /** The edge query of one chunk, fresh rule ids by observation, the clock, and where attempts break off. */
  datatype World = World(
    fetch: seq<string> -> seq<Edge>,
    ruleId: string -> string,
    now: string,
    fault: string -> Fault,
    sourceFault: string -> Fault)

  // ─── Finding candidates ─────────────────────────────────────────

  /** Ids per query: each is bound twice, and 999 variables are allowed. */
  const CHUNK := 499

  /** Rows returned chunk by chunk; an edge between two chunks is returned by both. */
  function EdgesInvolving(fetch: seq<string> -> seq<Edge>, ids: seq<string>): seq<Edge> {
    if ids == [] then []
    else if |ids| <= CHUNK then fetch(ids)
    else fetch(ids[..CHUNK]) + EdgesInvolving(fetch, ids[CHUNK..])
  }

  function Incoming(edges: seq<Edge>, target: string): seq<Edge> {
    if edges == [] then []
    else (if edges[0].target == target then [edges[0]] else []) + Incoming(edges[1..], target)
  }

  /** A derivation by anything but the entity itself. */
  predicate IsPromoted(incoming: seq<Edge>, id: string) {
    exists e | e in incoming :: e.kind == DerivedFrom && e.source != id
  }

  function Supporters(incoming: seq<Edge>): seq<string> {
    if incoming == [] then []
    else (if incoming[0].kind == Supports then [incoming[0].source] else []) + Supporters(incoming[1..])
  }

  function CandidateFor(edges: seq<Edge>, obs: Observation, threshold: nat): seq<Candidate> {
    var incoming := Incoming(edges, obs.id);
    if !IsPromoted(incoming, obs.id) && |Supporters(incoming)| >= threshold then [Candidate(obs, Supporters(incoming))]
    else []
  }

  function CandidatesAmong(edges: seq<Edge>, observations: seq<Observation>, threshold: nat): seq<Candidate> {
    if observations == [] then []
    else CandidateFor(edges, observations[0], threshold) + CandidatesAmong(edges, observations[1..], threshold)
  }

  function IdsOf(observations: seq<Observation>): (r: seq<string>)
    ensures |r| == |observations|
  {
    seq(|observations|, i requires 0 <= i < |observations| => observations[i].id)
  }

  function Candidates(observations: seq<Observation>, fetch: seq<string> -> seq<Edge>, threshold: nat): seq<Candidate> {
    if observations == [] then []
    else CandidatesAmong(EdgesInvolving(fetch, IdsOf(observations)), observations, threshold)
  }

  method GetEdgesInvolvingBatch(fetch: seq<string> -> seq<Edge>, ids: seq<string>) returns (edges: seq<Edge>)
    ensures edges == EdgesInvolving(fetch, ids)
  {
    edges := [];
    var rest := ids;
    while rest != []
      invariant EdgesInvolving(fetch, ids) == edges + EdgesInvolving(fetch, rest)
      decreases |rest|
    {
      var n := if |rest| < CHUNK then |rest| else CHUNK;
      assert |rest| <= CHUNK ==> rest[..n] == rest && rest[n..] == [];
      edges := edges + fetch(rest[..n]);
      rest := rest[n..];
    }
  }

  function Group(byTarget: map<string, seq<Edge>>, target: string): seq<Edge> {
    if target in byTarget then byTarget[target] else []
  }

  method FindPromotionCandidates(observations: seq<Observation>, fetch: seq<string> -> seq<Edge>, threshold: nat)
    returns (candidates: seq<Candidate>)
    ensures candidates == Candidates(observations, fetch, threshold)
  {
    hide EdgesInvolving, CandidateFor, Group;
    if observations == [] {
      return [];
    }
    var edges := GetEdgesInvolvingBatch(fetch, IdsOf(observations));
    var byTarget := GroupByTarget(edges);
    candidates := [];
    var rest := observations;
    while rest != []
      invariant CandidatesAmong(edges, observations, threshold) == candidates + CandidatesAmong(edges, rest, threshold)
      decreases |rest|
    {
      var found := Examine(edges, byTarget, rest[0], threshold);
      candidates := candidates + found;
      rest := rest[1..];
    }
  }

  /** One observation: skipped when already promoted, listed when enough support it. */
  method Examine(ghost edges: seq<Edge>, byTarget: map<string, seq<Edge>>, obs: Observation, threshold: nat)
    returns (found: seq<Candidate>)
    requires forall t :: Group(byTarget, t) == Incoming(edges, t)
    ensures found == CandidateFor(edges, obs, threshold)
  {
    hide Incoming, IsPromoted, Supporters, Group;
    var incoming := Group(byTarget, obs.id);
    if IsPromoted(incoming, obs.id) {
      return [];
    }
    var supporters := Supporters(incoming);
    if |supporters| < threshold {
      return [];
    }
    found := [Candidate(obs, supporters)];
  }

  method GroupByTarget(edges: seq<Edge>) returns (byTarget: map<string, seq<Edge>>)
    ensures forall t :: Group(byTarget, t) == Incoming(edges, t)
  {
    hide Incoming, Group;
    byTarget := map[];
    var rest := edges;
    assert forall t :: Group(byTarget, t) + Incoming(rest, t) == Incoming(rest, t) by { GroupNone(); }
    while rest != []
      invariant forall t :: Incoming(edges, t) == Group(byTarget, t) + Incoming(rest, t)
      decreases |rest|
    {
      var e := rest[0];
      forall t
        ensures Group(byTarget[e.target := Group(byTarget, e.target) + [e]], t) + Incoming(rest[1..], t)
                == Group(byTarget, t) + Incoming(rest, t)
      {
        GroupPush(byTarget, rest, t);
      }
      byTarget := byTarget[e.target := Group(byTarget, e.target) + [e]];
      rest := rest[1..];
    }
    forall t ensures Incoming(rest, t) == [] { IncomingNone(t); }
  }

  lemma GroupNone()
    ensures forall t :: Group(map[], t) == []
  {
  }

  lemma IncomingNone(t: string)
    ensures Incoming([], t) == []
  {
  }

  lemma GroupPush(byTarget: map<string, seq<Edge>>, rest: seq<Edge>, t: string)
    requires rest != []
    ensures var e := rest[0];
            Group(byTarget[e.target := Group(byTarget, e.target) + [e]], t) + Incoming(rest[1..], t)
            == Group(byTarget, t) + Incoming(rest, t)
  {
    hide Incoming, Group;
    var e := rest[0];
    var group := Group(byTarget, t);
    GroupAfter(byTarget, e, t);
    IncomingHead(rest, t);
    if t == e.target {
      Regroup(group, e, Incoming(rest[1..], t));
    }
  }

  lemma GroupAfter(byTarget: map<string, seq<Edge>>, e: Edge, t: string)
    ensures Group(byTarget[e.target := Group(byTarget, e.target) + [e]], t)
            == if t == e.target then Group(byTarget, t) + [e] else Group(byTarget, t)
  {
  }

  lemma IncomingHead(edges: seq<Edge>, t: string)
    requires edges != []
    ensures Incoming(edges, t)
            == if edges[0].target == t then [edges[0]] + Incoming(edges[1..], t) else Incoming(edges[1..], t)
  {
  }

  lemma Regroup(a: seq<Edge>, e: Edge, b: seq<Edge>)
    ensures a + [e] + b == a + ([e] + b)
  {
  }

  // ─── Promoting ──────────────────────────────────────────────────

  function InitialConfidence(): FloatText {
    assert Unsigned("0.7") == "0.7" && LowerAll("0.7") == "0.7";
    "0.7"
  }

  /** A new rule file with its provenance. */
  function RuleFile(c: Candidate, ruleId: string, now: string): EntityFile {
    var title := if c.observation.title.Some? then c.observation.title.value else "Promoted rule";
    EntityFile(ruleId, title, Rule, "active", now, now, [],
               [("confidence", Float(InitialConfidence())), ("validation_count", Int(0)),
                ("supporting_ids", Array(c.supporters)), ("promoted_from", String(c.observation.id)),
                ("derived_from", String(c.observation.id))],
               c.observation.content)
  }

  /** Write the rule, sync it, then supersede its source; `landed` says the rule's row exists, which a
      failure to supersede or to record the event no longer undoes. */
  function Promoting(db: Db, c: Candidate, world: World): (r: (Db, bool)) {
    var id := c.observation.id;
    var ruleId := world.ruleId(id);
    var f := RuleFile(c, ruleId, world.now);
    if world.fault(id).WriteFails? then (db, false)
    else
      var written := db.(files := db.files[ruleId := f]);
      var synced := if world.fault(id).SyncFails? then None else SyncFile(written, f);
      if synced.None? then (written, false)
      else (Superseding(synced.value, id, ruleId, world.now, world.sourceFault(id)).0, true)
  }

  function ResultOf(c: Candidate, ruleId: string): PromotionResult {
    PromotionResult(c.observation.id, ruleId, |c.supporters|)
  }

  /** Final database, observations whose rule landed, and the reported promotions. */
  function PromoteAll(db: Db, candidates: seq<Candidate>, world: World): (Db, seq<string>, seq<PromotionResult>)
    decreases |candidates|
  {
    if candidates == [] then (db, [], [])
    else
      var c := candidates[0];
      var (next, landed) := Promoting(db, c, world);
      var (after, ids, results) := PromoteAll(next, candidates[1..], world);
      var reported := landed && !world.fault(c.observation.id).EventFails?;
      (after, (if landed then [c.observation.id] else []) + ids,
       (if reported then [ResultOf(c, world.ruleId(c.observation.id))] else []) + results)
  }

  function PromotionRun(db: Db, observations: seq<Observation>, threshold: nat, world: World)
    : (Db, seq<string>, seq<PromotionResult>)
  {
    PromoteAll(db, Candidates(observations, world.fetch, threshold), world)
  }

  function DryResults(candidates: seq<Candidate>): (r: seq<PromotionResult>)
    ensures |r| == |candidates|
  {
    seq(|candidates|, i requires 0 <= i < |candidates| => ResultOf(candidates[i], ""))
  }

  method RunPromotion(store: Store, observations: seq<Observation>, threshold: nat, world: World, dryRun: bool)
    returns (results: seq<PromotionResult>)
    modifies store
    ensures dryRun ==> store.View() == old(store.View())
    ensures dryRun ==> results == DryResults(Candidates(observations, world.fetch, threshold))
    ensures !dryRun ==> store.View() == PromotionRun(old(store.View()), observations, threshold, world).0
    ensures !dryRun ==> results == PromotionRun(old(store.View()), observations, threshold, world).2
  {
    hide Promoting, Candidates, ResultOf;
    var candidates := FindPromotionCandidates(observations, world.fetch, threshold);
    if dryRun {
      return DryResults(candidates);
    }
    results := [];
    var rest := candidates;
    while rest != []
      invariant PromoteAll(old(store.View()), candidates, world).0 == PromoteAll(store.View(), rest, world).0
      invariant PromoteAll(old(store.View()), candidates, world).2 == results + PromoteAll(store.View(), rest, world).2
      decreases |rest|
    {
      var c := rest[0];
      var landed := PromoteOne(store, c, world);
      if landed && !world.fault(c.observation.id).EventFails? {
        results := results + [ResultOf(c, world.ruleId(c.observation.id))];
      }
      rest := rest[1..];
    }
  }

  method PromoteOne(store: Store, c: Candidate, world: World) returns (landed: bool)
    modifies store
    ensures store.View() == Promoting(old(store.View()), c, world).0
    ensures landed == Promoting(old(store.View()), c, world).1
  {
    hide RuleFile, SyncFile, Superseding;
    var id := c.observation.id;
    var ruleId := world.ruleId(id);
    var f := RuleFile(c, ruleId, world.now);
    if world.fault(id).WriteFails? {
      return false;
    }
    store.files := store.files[ruleId := f];
    if world.fault(id).SyncFails? {
      return false;
    }
    landed := store.SyncSingleFile(f);
    if landed {
      var _ := store.SupersedeEntity(id, ruleId, world.now, world.sourceFault(id));
    }
  }
}
