/** Promotion runs: what support count the threshold sees, that no observation is promoted twice over any
    number of runs, and that runs reach a fixpoint. */
module PromoteLaws {
  import opened FrontmatterFormat
  import EntityFiles
  import opened Refs
  import opened ConsolidationState
  import opened Promote

  // ─── The edge query ─────────────────────────────────────────────

  /** `SELECT DISTINCT` of the edges that touch the ids, in any order. */
  ghost predicate IsQuery(edges: set<Edge>, fetch: seq<string> -> seq<Edge>) {
    forall ids: seq<string>, e: Edge ::
      multiset(fetch(ids))[e] == if e in edges && (e.source in ids || e.target in ids) then 1 else 0
  }

  ghost function ChunksTouching(ids: seq<string>, e: Edge): nat {
    var here := if |ids| <= CHUNK then ids else ids[..CHUNK];
    (if e.source in here || e.target in here then 1 else 0)
    + (if |ids| <= CHUNK then 0 else ChunksTouching(ids[CHUNK..], e))
  }

  /** An edge comes back once per chunk it touches. */
  lemma {:induction false} EdgesInvolvingCount(edges: set<Edge>, fetch: seq<string> -> seq<Edge>, ids: seq<string>,
                                               e: Edge)
    requires IsQuery(edges, fetch)
    ensures multiset(EdgesInvolving(fetch, ids))[e] == if e in edges then ChunksTouching(ids, e) else 0
  {
    if |ids| > CHUNK {
      EdgesInvolvingCount(edges, fetch, ids[CHUNK..], e);
      assert multiset(fetch(ids[..CHUNK]))[e]
             == if e in edges && (e.source in ids[..CHUNK] || e.target in ids[..CHUNK]) then 1 else 0;
    } else if ids != [] {
      assert multiset(fetch(ids))[e] == if e in edges && (e.source in ids || e.target in ids) then 1 else 0;
    }
  }

  lemma {:induction false} IncomingExact(es: seq<Edge>, t: string, e: Edge)
    ensures e in Incoming(es, t) <==> e in es && e.target == t
  {
    if es != [] {
      IncomingExact(es[1..], t, e);
      assert es == [es[0]] + es[1..];
    }
  }

  lemma {:induction false} SupportersCount(es: seq<Edge>, t: string, s: string)
    ensures multiset(Supporters(Incoming(es, t)))[s] == multiset(es)[Edge(s, t, Supports)]
  {
    if es != [] {
      SupportersCount(es[1..], t, s);
      assert es == [es[0]] + es[1..];
      SupportersHead(es, t, s);
    }
  }

  lemma SupportersHead(es: seq<Edge>, t: string, s: string)
    requires es != []
    ensures multiset(Supporters(Incoming(es, t)))[s]
            == multiset(Supporters(Incoming(es[1..], t)))[s] + if es[0] == Edge(s, t, Supports) then 1 else 0
  {
    hide Incoming, Supporters;
    var incoming := Incoming(es[1..], t);
    IncomingHead(es, t);
    if es[0].target == t {
      SupportersCons(es[0], incoming);
      CountCons(es[0].source, Supporters(incoming), s);
    }
  }

  lemma SupportersCons(e: Edge, incoming: seq<Edge>)
    ensures Supporters([e] + incoming)
            == if e.kind == Supports then [e.source] + Supporters(incoming) else Supporters(incoming)
  {
    assert ([e] + incoming)[1..] == incoming;
  }

  lemma CountCons(x: string, q: seq<string>, s: string)
    ensures multiset([x] + q)[s] == multiset(q)[s] + if x == s then 1 else 0
  {
  }

  // ─── What the threshold sees ────────────────────────────────────

  ghost function SupporterSet(edges: set<Edge>, t: string): (r: set<string>)
    ensures forall s :: s in r <==> Edge(s, t, Supports) in edges
  {
    set e | e in edges && e.kind == Supports && e.target == t :: e.source
  }

  ghost predicate HasRule(edges: set<Edge>, id: string) {
    exists e | e in edges :: e.kind == DerivedFrom && e.target == id && e.source != id
  }

  /** The two entities fall into different chunks. */
  ghost predicate IsSplit(ids: seq<string>, s: string, t: string) {
    |ids| > CHUNK && ((s in ids[..CHUNK] && t in ids[CHUNK..]) || (s in ids[CHUNK..] && t in ids[..CHUNK]))
  }

  ghost predicate AreDistinct(ids: seq<string>) {
    forall i, j | 0 <= i < j < |ids| :: ids[i] != ids[j]
  }

  ghost function SplitSupporters(edges: set<Edge>, ids: seq<string>, t: string): (r: set<string>)
    ensures forall s :: s in r <==> s in SupporterSet(edges, t) && IsSplit(ids, s, t)
  {
    set s | s in SupporterSet(edges, t) && IsSplit(ids, s, t)
  }

  lemma OneChunkSide(ids: seq<string>, t: string)
    requires AreDistinct(ids) && |ids| > CHUNK && t in ids
    ensures t in ids[..CHUNK] <==> t !in ids[CHUNK..]
  {
    assert ids == ids[..CHUNK] + ids[CHUNK..];
  }

  lemma ChunksOfSupport(ids: seq<string>, s: string, t: string)
    requires AreDistinct(ids) && |ids| <= 2 * CHUNK && t in ids
    ensures ChunksTouching(ids, Edge(s, t, Supports)) == if IsSplit(ids, s, t) then 2 else 1
  {
    if |ids| > CHUNK {
      OneChunkSide(ids, t);
      assert |ids[CHUNK..]| <= CHUNK;
      assert ChunksTouching(ids[CHUNK..], Edge(s, t, Supports))
             == if s in ids[CHUNK..] || t in ids[CHUNK..] then 1 else 0;
    }
  }

  lemma SizeBySets(q: seq<string>, a: set<string>, b: set<string>)
    requires forall s :: multiset(q)[s] == (if s in a then 1 else 0) + if s in b then 1 else 0
    ensures |q| == |a| + |b|
  {
    assert multiset(q) == multiset(a) + multiset(b);
    assert |multiset(q)| == |q|;
  }

  /** The length compared with the threshold: every supporter, and again each supporter whose own id falls
      into another chunk of the batch. Up to 998 ids there are at most two chunks; the batch is 500. */
  lemma SupportersClosedForm(edges: set<Edge>, fetch: seq<string> -> seq<Edge>, ids: seq<string>, t: string)
    requires IsQuery(edges, fetch) && AreDistinct(ids) && |ids| <= 2 * CHUNK && t in ids
    ensures |Supporters(Incoming(EdgesInvolving(fetch, ids), t))|
            == |SupporterSet(edges, t)| + |SplitSupporters(edges, ids, t)|
  {
    hide IsQuery, Supporters, Incoming, EdgesInvolving, ChunksTouching, IsSplit, SupporterSet, AreDistinct;
    var q := Supporters(Incoming(EdgesInvolving(fetch, ids), t));
    forall s
      ensures multiset(q)[s] == (if s in SupporterSet(edges, t) then 1 else 0)
                                + if s in SplitSupporters(edges, ids, t) then 1 else 0
    {
      SupportersCount(EdgesInvolving(fetch, ids), t, s);
      EdgesInvolvingCount(edges, fetch, ids, Edge(s, t, Supports));
      ChunksOfSupport(ids, s, t);
    }
    SizeBySets(q, SupporterSet(edges, t), SplitSupporters(edges, ids, t));
  }

  /** The count is the number of supporters exactly when none sits in the other chunk. */
  lemma SupportersExactIff(edges: set<Edge>, fetch: seq<string> -> seq<Edge>, ids: seq<string>, t: string)
    requires IsQuery(edges, fetch) && AreDistinct(ids) && |ids| <= 2 * CHUNK && t in ids
    ensures |Supporters(Incoming(EdgesInvolving(fetch, ids), t))| == |SupporterSet(edges, t)|
            <==> forall s | s in SupporterSet(edges, t) :: !IsSplit(ids, s, t)
    ensures |ids| <= CHUNK ==> |Supporters(Incoming(EdgesInvolving(fetch, ids), t))| == |SupporterSet(edges, t)|
  {
    hide IsQuery, Supporters, Incoming, EdgesInvolving, SupporterSet, AreDistinct;
    SupportersClosedForm(edges, fetch, ids, t);
    var split := SplitSupporters(edges, ids, t);
    if forall s | s in SupporterSet(edges, t) :: !IsSplit(ids, s, t) {
      assert split == {};
    } else {
      var s :| s in SupporterSet(edges, t) && IsSplit(ids, s, t);
      assert s in split;
    }
  }

  /** In a full batch of 500 one supporter at the last place is enough for a threshold of two. */
  lemma OneSupporterCountsTwice(edges: set<Edge>, fetch: seq<string> -> seq<Edge>, ids: seq<string>)
    requires IsQuery(edges, fetch) && AreDistinct(ids) && |ids| == 500
    requires SupporterSet(edges, ids[0]) == {ids[499]}
    ensures |Supporters(Incoming(EdgesInvolving(fetch, ids), ids[0]))| == 2
  {
    hide IsQuery, Supporters, Incoming, EdgesInvolving, SupporterSet;
    assert ids[..CHUNK][0] == ids[0] && ids[CHUNK..][0] == ids[499];
    SupportersClosedForm(edges, fetch, ids, ids[0]);
    assert SplitSupporters(edges, ids, ids[0]) == {ids[499]};
  }

  lemma ReturnedExact(edges: set<Edge>, fetch: seq<string> -> seq<Edge>, ids: seq<string>, e: Edge)
    requires IsQuery(edges, fetch) && e.target in ids
    ensures e in EdgesInvolving(fetch, ids) <==> e in edges
  {
    hide IsQuery, EdgesInvolving;
    EdgesInvolvingCount(edges, fetch, ids, e);
    TouchesItsTarget(ids, e);
  }

  lemma {:induction false} TouchesItsTarget(ids: seq<string>, e: Edge)
    requires e.target in ids
    ensures ChunksTouching(ids, e) > 0
  {
    if |ids| > CHUNK && e.target !in ids[..CHUNK] {
      assert ids == ids[..CHUNK] + ids[CHUNK..];
      TouchesItsTarget(ids[CHUNK..], e);
    }
  }

  lemma PromotedExact(edges: set<Edge>, fetch: seq<string> -> seq<Edge>, ids: seq<string>, t: string)
    requires IsQuery(edges, fetch) && t in ids
    ensures IsPromoted(Incoming(EdgesInvolving(fetch, ids), t), t) <==> HasRule(edges, t)
  {
    hide IsQuery, Incoming, EdgesInvolving;
    forall e: Edge | e.target == t
      ensures e in Incoming(EdgesInvolving(fetch, ids), t) <==> e in edges
    {
      IncomingExact(EdgesInvolving(fetch, ids), t, e);
      ReturnedExact(edges, fetch, ids, e);
    }
    forall e ensures e in Incoming(EdgesInvolving(fetch, ids), t) ==> e.target == t {
      IncomingExact(EdgesInvolving(fetch, ids), t, e);
    }
  }

  lemma {:induction false} AmongExact(es: seq<Edge>, observations: seq<Observation>, threshold: nat, c: Candidate)
    ensures c in CandidatesAmong(es, observations, threshold)
            <==> c.observation in observations && c in CandidateFor(es, c.observation, threshold)
  {
    hide Incoming, IsPromoted, Supporters;
    if observations != [] {
      AmongExact(es, observations[1..], threshold, c);
      assert observations == [observations[0]] + observations[1..];
    }
  }

  /** A candidate is a batch observation no rule was derived from whose supporters, counted as the query
      returns them, reach the threshold; its list holds every supporter and nobody else. */
  lemma CandidatesExact(edges: set<Edge>, observations: seq<Observation>, fetch: seq<string> -> seq<Edge>,
                        threshold: nat, obs: Observation)
    requires IsQuery(edges, fetch) && AreDistinct(IdsOf(observations)) && |observations| <= 2 * CHUNK
    requires obs in observations
    ensures (exists c | c in Candidates(observations, fetch, threshold) :: c.observation == obs)
            <==> && !HasRule(edges, obs.id)
                 && |SupporterSet(edges, obs.id)| + |SplitSupporters(edges, IdsOf(observations), obs.id)| >= threshold
    ensures forall c | c in Candidates(observations, fetch, threshold) && c.observation == obs ::
              && (forall s :: s in c.supporters <==> s in SupporterSet(edges, obs.id))
              && |c.supporters|
                 == |SupporterSet(edges, obs.id)| + |SplitSupporters(edges, IdsOf(observations), obs.id)|
  {
    hide IsQuery, Supporters, Incoming, EdgesInvolving, IsPromoted, SupporterSet, CandidatesAmong,
      SplitSupporters, HasRule;
    var ids := IdsOf(observations);
    var es := EdgesInvolving(fetch, ids);
    IdInIds(observations, obs);
    PromotedExact(edges, fetch, ids, obs.id);
    SupportersClosedForm(edges, fetch, ids, obs.id);
    var own := Candidate(obs, Supporters(Incoming(es, obs.id)));
    AmongExact(es, observations, threshold, own);
    forall c | c in Candidates(observations, fetch, threshold) && c.observation == obs
      ensures c == own && forall s :: s in c.supporters <==> s in SupporterSet(edges, obs.id)
    {
      AmongExact(es, observations, threshold, c);
      forall s ensures s in own.supporters <==> s in SupporterSet(edges, obs.id) {
        SupportersCount(es, obs.id, s);
        ReturnedExact(edges, fetch, ids, Edge(s, obs.id, Supports));
      }
    }
  }

  /** Candidates come in the order of the batch. */
  lemma {:induction false} CandidatesInOrder(edges: seq<Edge>, observations: seq<Observation>, threshold: nat,
                                             i: nat, j: nat)
    returns (a: nat, b: nat)
    requires i < j < |CandidatesAmong(edges, observations, threshold)|
    ensures var chosen := CandidatesAmong(edges, observations, threshold);
            && a < b < |observations|
            && chosen[i].observation == observations[a] && chosen[j].observation == observations[b]
  {
    hide Incoming, IsPromoted, Supporters;
    var first := CandidateFor(edges, observations[0], threshold);
    var rest := CandidatesAmong(edges, observations[1..], threshold);
    if i >= |first| {
      a, b := CandidatesInOrder(edges, observations[1..], threshold, i - |first|, j - |first|);
      a, b := a + 1, b + 1;
    } else {
      b := CandidatePlace(edges, observations[1..], threshold, j - |first|);
      a, b := 0, b + 1;
    }
  }

  lemma {:induction false} CandidatePlace(edges: seq<Edge>, observations: seq<Observation>, threshold: nat, j: nat)
    returns (b: nat)
    requires j < |CandidatesAmong(edges, observations, threshold)|
    ensures b < |observations| && CandidatesAmong(edges, observations, threshold)[j].observation == observations[b]
  {
    hide Incoming, IsPromoted, Supporters;
    var first := CandidateFor(edges, observations[0], threshold);
    b := 0;
    if j >= |first| {
      b := CandidatePlace(edges, observations[1..], threshold, j - |first|);
      b := b + 1;
    }
  }

  lemma IdInIds(observations: seq<Observation>, obs: Observation)
    requires obs in observations
    ensures obs.id in IdsOf(observations)
  {
    var i :| 0 <= i < |observations| && observations[i] == obs;
    assert IdsOf(observations)[i] == obs.id;
  }

  // ─── One promotion ──────────────────────────────────────────────

  /** Foreign keys hold, and every derivation from a file-backed entity is one its file declares. */
  ghost predicate IsSound(db: Db) {
    && Valid(db)
    && (forall e | e in db.edges :: Live(db.rows.Keys, e))
    && forall e | e in db.edges && e.kind == DerivedFrom && e.source in db.files ::
         e.target in Targets(db.files[e.source], DerivedFrom)
  }

  ghost predicate KeepsDerivations(before: Db, after: Db) {
    forall e | e in before.edges && e.kind == DerivedFrom :: e in after.edges
  }

  /** Superseding an entity keeps the tables sound and every derivation in place. */
  lemma SupersedingKeepsSound(db: Db, id: string, survivor: string, now: string, fault: Fault)
    requires IsSound(db)
    ensures var after := Superseding(db, id, survivor, now, fault).0;
            && IsSound(after) && KeepsDerivations(db, after)
            && SameRows(db, after) && after.files.Keys == db.files.Keys
            && forall e: Edge | e.source != id :: e in after.edges <==> e in db.edges
  {
    hide IsLegal, Targets, MarkSuperseded, Links;
    SupersedingEffect(db, id, survivor, now, fault);
    var after := Superseding(db, id, survivor, now, fault).0;
    if id in db.files {
      MarkedTargets(db.files[id], survivor, now, DerivedFrom);
      MarkedFields(db.files[id], survivor, now);
    }
  }

  ghost predicate IsFresh(db: Db, ruleId: string) {
    ruleId !in db.rows && ruleId !in db.files
  }

  lemma RuleTargets(c: Candidate, ruleId: string, now: string)
    ensures var f := RuleFile(c, ruleId, now);
            && f.id == ruleId && f.status == "active" && f.entityType == EntityFiles.Rule
            && Targets(f, Supports) == c.supporters && Targets(f, DerivedFrom) == [c.observation.id]
  {
    hide InitialConfidence;
    var f := RuleFile(c, ruleId, now);
    assert Lookup(f.frontmatter[1..], "supporting_ids") == Lookup(f.frontmatter[2..], "supporting_ids");
    assert Lookup(f.frontmatter[1..], "derived_from") == Lookup(f.frontmatter[2..], "derived_from");
    assert Lookup(f.frontmatter[2..], "derived_from") == Lookup(f.frontmatter[3..], "derived_from");
    assert Lookup(f.frontmatter[3..], "derived_from") == Lookup(f.frontmatter[4..], "derived_from");
  }

  /** The tables right after the rule file is synced. */
  lemma SyncNewRule(db: Db, f: EntityFiles.EntityFile, id: string)
    requires IsSound(db) && IsFresh(db, f.id) && Targets(f, DerivedFrom) == [id] && id in db.rows
    requires f.entityType == EntityFiles.Rule
    ensures var synced := SyncFile(db.(files := db.files[f.id := f]), f);
            && synced.Some? && IsSound(synced.value) && KeepsDerivations(db, synced.value)
            && synced.value.rows == db.rows[f.id := Row(FileRow(EntityFiles.Rule), f.status, f.createdAt)]
            && synced.value.files == db.files[f.id := f]
            && Edge(f.id, id, DerivedFrom) in synced.value.edges
            && (forall s | s in Targets(f, Supports) && s in db.rows :: Edge(f.id, s, Supports) in synced.value.edges)
            && forall e: Edge | e.source != f.id :: e in synced.value.edges <==> e in db.edges
  {
    hide Targets;
    var rows := db.rows[f.id := Row(FileRow(f.entityType), f.status, f.createdAt)];
    assert rows.Keys == db.rows.Keys + {f.id};
    forall e | e in db.edges ensures e.source != f.id { assert Live(db.rows.Keys, e); }
  }

  ghost predicate KeepsKinds(before: Db, after: Db) {
    forall id | id in before.rows :: id in after.rows && after.rows[id].kind == before.rows[id].kind
  }

  /** A landed promotion adds one rule row, derived from the observation and supporting each of its
      supporters; no derivation is ever lost. */
  lemma PromotingEffect(db: Db, c: Candidate, world: World)
    requires IsSound(db) && c.observation.id in db.rows && IsFresh(db, world.ruleId(c.observation.id))
    ensures var id := c.observation.id;
            var ruleId := world.ruleId(id);
            var (after, landed) := Promoting(db, c, world);
            && IsSound(after) && KeepsDerivations(db, after) && KeepsKinds(db, after)
            && after.rows.Keys == db.rows.Keys + (if landed then {ruleId} else {})
            && after.files.Keys <= db.files.Keys + {ruleId}
            && (landed <==> !world.fault(id).WriteFails? && !world.fault(id).SyncFails?)
            && (landed ==> && after.rows[ruleId].kind == FileRow(EntityFiles.Rule)
                           && Edge(ruleId, id, DerivedFrom) in after.edges
                           && forall s | s in c.supporters && s in db.rows :: Edge(ruleId, s, Supports) in after.edges)
            && (!landed ==> after.rows == db.rows && after.edges == db.edges)
  {
    hide RuleFile, SyncFile, Superseding, Targets, InitialConfidence;
    var id := c.observation.id;
    var ruleId := world.ruleId(id);
    var f := RuleFile(c, ruleId, world.now);
    RuleTargets(c, ruleId, world.now);
    if !world.fault(id).WriteFails? {
      if !world.fault(id).SyncFails? {
        SyncNewRule(db, f, id);
        var synced := SyncFile(db.(files := db.files[ruleId := f]), f).value;
        SupersedingKeepsSound(synced, id, ruleId, world.now, world.sourceFault(id));
      }
    }
  }

  /** A landed rule replaces its source: superseded, with one link, to the rule. */
  lemma LandedRuleReplacesSource(db: Db, c: Candidate, world: World)
    requires IsSound(db) && IsFresh(db, world.ruleId(c.observation.id))
    requires var id := c.observation.id;
             id in db.rows && id in db.files && db.rows[id].status == "active" && world.sourceFault(id).NoFault?
    requires !world.fault(c.observation.id).WriteFails? && !world.fault(c.observation.id).SyncFails?
    ensures var (id, after) := (c.observation.id, Promoting(db, c, world).0);
            id in after.rows && after.rows[id].status == "superseded" && Links(after, id) == {world.ruleId(id)}
  {
    hide RuleFile, SyncFile, Superseding, Targets, Links, IsLegal;
    var id := c.observation.id;
    var ruleId := world.ruleId(id);
    var f := RuleFile(c, ruleId, world.now);
    RuleTargets(c, ruleId, world.now);
    SyncNewRule(db, f, id);
    var synced := SyncFile(db.(files := db.files[ruleId := f]), f).value;
    SupersedingEffect(synced, id, ruleId, world.now, world.sourceFault(id));
    SupersedingIsFinal(synced.rows[id].status);
  }
}
