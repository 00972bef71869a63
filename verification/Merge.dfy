/** Duplicate merging (src/consolidate/merge.rs): pair selection and the merge loop. */
module Merge {
  import opened FrontmatterFormat
  import opened Sorting
  import opened ConsolidationState

  /** A row of the active-observation query. */
  datatype Observation = Observation(id: string, createdAt: string)

  datatype Pair = Pair(survivor: string, superseded: string)

  /** One KNN result; `similar` is whether its cosine reaches the dedup threshold. */
  datatype Neighbor = Neighbor(id: string, similar: bool)

  /** What embeddings, vector search and the NLI model answer; `nli` is `None` when the probe fails. */
  datatype World = World(
    embedded: string -> bool,
    nearest: string -> Option<seq<Neighbor>>,
    nli: Option<(string, string) -> bool>,
    fault: Pair -> Fault,
    now: string)

  // ─── Pair selection ─────────────────────────────────────────────

  function FindObservation(observations: seq<Observation>, id: string): Option<Observation> {
    if observations == [] then None
    else if observations[0].id == id then Some(observations[0])
    else FindObservation(observations[1..], id)
  }

  /** The older one survives; on equal times the one whose neighbours are being scanned. */
  function Orient(obs: Observation, neighbor: Observation): Pair {
    if StringLe(obs.createdAt, neighbor.createdAt) then Pair(obs.id, neighbor.id) else Pair(neighbor.id, obs.id)
  }

  function Hit(observations: seq<Observation>, obs: Observation, n: Neighbor): seq<Pair> {
    var neighbor := FindObservation(observations, n.id);
    if n.id == obs.id || !n.similar || neighbor.None? then [] else [Orient(obs, neighbor.value)]
  }

  function Hits(observations: seq<Observation>, obs: Observation, ns: seq<Neighbor>): seq<Pair> {
    if ns == [] then [] else Hit(observations, obs, ns[0]) + Hits(observations, obs, ns[1..])
  }

  function NeighborsOf(world: World, obs: Observation): seq<Neighbor> {
    if world.embedded(obs.id) && world.nearest(obs.id).Some? then world.nearest(obs.id).value else []
  }

  function AllHits(observations: seq<Observation>, rest: seq<Observation>, world: World): seq<Pair>
    decreases |rest|
  {
    if rest == [] then []
    else Hits(observations, rest[0], NeighborsOf(world, rest[0])) + AllHits(observations, rest[1..], world)
  }

  /** Without a model every pair passes, to be reported only. */
  predicate IsConfirmed(world: World, p: Pair) {
    world.nli.Some? ==> world.nli.value(p.survivor, p.superseded)
  }

  /** First occurrences, confirmed. */
  function Selected(hits: seq<Pair>, seen: set<Pair>, world: World): seq<Pair>
    decreases |hits|
  {
    if hits == [] then []
    else if hits[0] in seen then Selected(hits[1..], seen, world)
    else (if IsConfirmed(world, hits[0]) then [hits[0]] else []) + Selected(hits[1..], seen + {hits[0]}, world)
  }

  function Candidates(observations: seq<Observation>, world: World): seq<Pair> {
    if |observations| < 2 then [] else Selected(AllHits(observations, observations, world), {}, world)
  }

  method FindMergeCandidates(observations: seq<Observation>, world: World) returns (candidates: seq<Pair>)
    ensures candidates == Candidates(observations, world)
  {
    hide Hits, IsConfirmed, NeighborsOf;
    if |observations| < 2 {
      return [];
    }
    var seen := {};
    candidates := [];
    var rest := observations;
    while rest != []
      invariant Candidates(observations, world)
                == candidates + Selected(AllHits(observations, rest, world), seen, world)
      decreases |rest|
    {
      candidates, seen := ScanNeighbors(observations, rest[0], world, candidates, seen,
                                        AllHits(observations, rest[1..], world));
      rest := rest[1..];
    }
  }

  /** The inner loop: one observation's neighbours. */
  method ScanNeighbors(observations: seq<Observation>, obs: Observation, world: World,
                       before: seq<Pair>, seenBefore: set<Pair>, ghost later: seq<Pair>)
    returns (candidates: seq<Pair>, seen: set<Pair>)
    ensures before + Selected(Hits(observations, obs, NeighborsOf(world, obs)) + later, seenBefore, world)
            == candidates + Selected(later, seen, world)
  {
    hide IsConfirmed, Orient, FindObservation;
    candidates, seen := before, seenBefore;
    if !world.embedded(obs.id) || world.nearest(obs.id).None? {
      assert Hits(observations, obs, []) + later == later;
      return;
    }
    var ns := world.nearest(obs.id).value;
    while ns != []
      invariant before + Selected(Hits(observations, obs, NeighborsOf(world, obs)) + later, seenBefore, world)
                == candidates + Selected(Hits(observations, obs, ns) + later, seen, world)
      decreases |ns|
    {
      HitsHead(observations, obs, ns, later);
      var n := ns[0];
      ns := ns[1..];
      var neighbor := FindObservation(observations, n.id);
      if n.id == obs.id || !n.similar || neighbor.None? {
        continue;
      }
      var p := Orient(obs, neighbor.value);
      if p in seen {
        continue;
      }
      seen := seen + {p};
      if IsConfirmed(world, p) {
        candidates := candidates + [p];
      }
    }
    assert Hits(observations, obs, []) + later == later;
  }

  lemma HitsHead(observations: seq<Observation>, obs: Observation, ns: seq<Neighbor>, later: seq<Pair>)
    requires ns != []
    ensures var hit, all := Hit(observations, obs, ns[0]), Hits(observations, obs, ns) + later;
            && (hit == [] ==> all == Hits(observations, obs, ns[1..]) + later)
            && (hit != [] ==> all != [] && all[0] == hit[0] && all[1..] == Hits(observations, obs, ns[1..]) + later)
  {
    hide Hit;
    assert |Hit(observations, obs, ns[0])| <= 1 by { AtMostOneHit(observations, obs, ns[0]); }
    PrefixAtMostOne(Hit(observations, obs, ns[0]), Hits(observations, obs, ns[1..]), later);
  }

  lemma AtMostOneHit(observations: seq<Observation>, obs: Observation, n: Neighbor)
    ensures |Hit(observations, obs, n)| <= 1
  {
    hide FindObservation, Orient;
  }

  lemma PrefixAtMostOne(hit: seq<Pair>, rest: seq<Pair>, later: seq<Pair>)
    requires |hit| <= 1
    ensures hit == [] ==> hit + rest + later == rest + later
    ensures hit != [] ==> (hit + rest + later)[0] == hit[0] && (hit + rest + later)[1..] == rest + later
  {
  }

  // ─── Merging ────────────────────────────────────────────────────

  function MergeOne(db: Db, p: Pair, now: string, fault: Fault): (Db, Outcome) {
    var (after, o) := Superseding(db, p.superseded, p.survivor, now, fault);
    (after, if o.Done? && fault.EventFails? then Failed else o)
  }

  /** The merge loop: the final database and the reported pairs. */
  function MergeAll(db: Db, pairs: seq<Pair>, world: World): (Db, seq<Pair>)
    decreases |pairs|
  {
    if pairs == [] then (db, [])
    else
      var (next, o) := MergeOne(db, pairs[0], world.now, world.fault(pairs[0]));
      var (after, merged) := MergeAll(next, pairs[1..], world);
      (after, (if o.Done? then [pairs[0]] else []) + merged)
  }

  function MergeRun(db: Db, observations: seq<Observation>, world: World): (Db, seq<Pair>) {
    if world.nli.None? then (db, []) else MergeAll(db, Candidates(observations, world), world)
  }

  /** A dry run reports the candidates; a run without a model changes nothing. */
  method RunMerge(store: Store, observations: seq<Observation>, world: World, dryRun: bool) returns (results: seq<Pair>)
    modifies store
    ensures dryRun ==> store.View() == old(store.View()) && results == Candidates(observations, world)
    ensures !dryRun ==> store.View() == MergeRun(old(store.View()), observations, world).0
    ensures !dryRun ==> results == MergeRun(old(store.View()), observations, world).1
  {
    hide Superseding, Candidates;
    var pairs := FindMergeCandidates(observations, world);
    if dryRun {
      return pairs;
    }
    if world.nli.None? && pairs != [] {
      return [];
    }
    results := [];
    var rest := pairs;
    while rest != []
      invariant world.nli.None? ==> rest == []
      invariant MergeAll(old(store.View()), pairs, world).0 == MergeAll(store.View(), rest, world).0
      invariant MergeAll(old(store.View()), pairs, world).1 == results + MergeAll(store.View(), rest, world).1
      decreases |rest|
    {
      var p := rest[0];
      var o := store.SupersedeEntity(p.superseded, p.survivor, world.now, world.fault(p));
      if o.Done? && world.fault(p).EventFails? {
        o := Failed;
      }
      if o.Done? {
        results := results + [p];
      }
      rest := rest[1..];
    }
  }
}
