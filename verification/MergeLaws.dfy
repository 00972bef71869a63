/** Merge runs: which pairs are selected, that nothing is superseded twice, and that following
    `superseded_by` ends at an entity still active. */
module MergeLaws {
  import opened FrontmatterFormat
  import opened EntityFiles
  import opened Sorting
  import opened Refs
  import opened ConsolidationState
  import opened Merge

  /** Rows of the active-observation query, in any order. */
  ghost predicate IsBatch(db: Db, observations: seq<Observation>) {
    && (forall i, j | 0 <= i < j < |observations| :: observations[i].id != observations[j].id)
    && forall o | o in observations ::
         o.id in db.rows && db.rows[o.id].status == "active" && db.rows[o.id].createdAt == o.createdAt
  }

  ghost predicate DistinctTimes(observations: seq<Observation>) {
    forall i, j | 0 <= i < j < |observations| :: observations[i].createdAt != observations[j].createdAt
  }

  ghost function Ids(observations: seq<Observation>): set<string> {
    set o | o in observations :: o.id
  }

  predicate Older(a: string, b: string) {
    StringLe(a, b) && a != b
  }

  // ─── Pair selection ─────────────────────────────────────────────

  lemma {:induction false} SelectedExact(hits: seq<Pair>, seen: set<Pair>, world: World, p: Pair)
    ensures p in Selected(hits, seen, world) <==> p in hits && p !in seen && IsConfirmed(world, p)
    decreases |hits|
  {
    hide IsConfirmed;
    if hits != [] {
      var next := if hits[0] in seen then seen else seen + {hits[0]};
      SelectedExact(hits[1..], next, world, p);
      assert p in hits <==> p == hits[0] || p in hits[1..] by { assert hits == [hits[0]] + hits[1..]; }
    }
  }

  lemma {:induction false} SelectedOnce(hits: seq<Pair>, seen: set<Pair>, world: World)
    ensures NoRepeat(Selected(hits, seen, world))
    decreases |hits|
  {
    hide IsConfirmed, NoRepeat;
    if hits == [] {
      NoneRepeats();
    } else if hits[0] in seen {
      SelectedOnce(hits[1..], seen, world);
    } else {
      SelectedOnce(hits[1..], seen + {hits[0]}, world);
      SelectedExact(hits[1..], seen + {hits[0]}, world, hits[0]);
      PrependFresh(hits[0], Selected(hits[1..], seen + {hits[0]}, world));
    }
  }

  ghost predicate NoRepeat(pairs: seq<Pair>) {
    forall i, j | 0 <= i < j < |pairs| :: pairs[i] != pairs[j]
  }

  lemma NoneRepeats()
    ensures NoRepeat([])
  {
  }

  lemma PrependFresh(p: Pair, rest: seq<Pair>)
    requires p !in rest && NoRepeat(rest)
    ensures NoRepeat([p] + rest) && NoRepeat([] + rest)
  {
    assert forall i | 0 <= i < |rest| :: rest[i] in rest;
    assert [] + rest == rest;
  }

  lemma {:induction false} HitsExact(observations: seq<Observation>, obs: Observation, ns: seq<Neighbor>, p: Pair)
    ensures p in Hits(observations, obs, ns) <==> exists n | n in ns :: p in Hit(observations, obs, n)
  {
    hide Hit;
    if ns != [] {
      HitsExact(observations, obs, ns[1..], p);
      assert ns == [ns[0]] + ns[1..];
    }
  }

  lemma {:induction false} AllHitsExact(observations: seq<Observation>, rest: seq<Observation>, world: World, p: Pair)
    ensures p in AllHits(observations, rest, world)
            <==> exists o | o in rest :: p in Hits(observations, o, NeighborsOf(world, o))
    decreases |rest|
  {
    hide Hits, NeighborsOf;
    if rest != [] {
      AllHitsExact(observations, rest[1..], world, p);
      assert rest == [rest[0]] + rest[1..];
    }
  }

  lemma {:induction false} FindExact(observations: seq<Observation>, id: string)
    ensures FindObservation(observations, id).Some? ==>
              var found := FindObservation(observations, id).value; found in observations && found.id == id
    ensures FindObservation(observations, id).None? ==> forall o | o in observations :: o.id != id
  {
    if observations != [] && observations[0].id != id {
      FindExact(observations[1..], id);
      assert observations == [observations[0]] + observations[1..];
    }
  }

  lemma FindUnique(observations: seq<Observation>, o: Observation)
    requires forall i, j | 0 <= i < j < |observations| :: observations[i].id != observations[j].id
    requires o in observations
    ensures FindObservation(observations, o.id) == Some(o)
  {
    FindExact(observations, o.id);
    var found := FindObservation(observations, o.id).value;
    var i, j :| 0 <= i < |observations| && observations[i] == o && 0 <= j < |observations| && observations[j] == found;
    assert observations[i].id == observations[j].id;
  }

  /** Two different observations of the batch, one of which the search finds close to the other. */
  ghost predicate AreClose(observations: seq<Observation>, world: World, a: Observation, b: Observation) {
    && a in observations && b in observations && a.id != b.id
    && world.embedded(a.id) && world.nearest(a.id).Some? && Neighbor(b.id, true) in world.nearest(a.id).value
  }

  /** The pair supersedes the younger one, or on equal times the one found. */
  predicate Orients(p: Pair, scanned: Observation, found: Observation) {
    if StringLe(scanned.createdAt, found.createdAt) then p.survivor == scanned.id && p.superseded == found.id
    else p.survivor == found.id && p.superseded == scanned.id
  }

  lemma OrientExactly(p: Pair, a: Observation, b: Observation)
    ensures p == Orient(a, b) <==> Orients(p, a, b)
  {
  }

  lemma NeighborsExact(world: World, a: Observation, n: Neighbor)
    ensures n in NeighborsOf(world, a)
            <==> world.embedded(a.id) && world.nearest(a.id).Some? && n in world.nearest(a.id).value
  {
  }

  /** A pair is a candidate exactly when it orients two close observations and the model, when there is one,
      answers yes to it; no pair is listed twice. */
  lemma CandidatesExact(db: Db, observations: seq<Observation>, world: World, p: Pair)
    requires IsBatch(db, observations)
    ensures p in Candidates(observations, world)
            <==> && (world.nli.Some? ==> world.nli.value(p.survivor, p.superseded))
                 && exists a, b | AreClose(observations, world, a, b) :: Orients(p, a, b)
    ensures NoRepeat(Candidates(observations, world))
  {
    hide Candidates, Orient, Orients, AreClose, IsBatch;
    OrientedExact(db, observations, world, p);
    forall a, b ensures p == Orient(a, b) <==> Orients(p, a, b) { OrientExactly(p, a, b); }
  }

  lemma OrientedExact(db: Db, observations: seq<Observation>, world: World, p: Pair)
    requires IsBatch(db, observations)
    ensures p in Candidates(observations, world)
            <==> IsConfirmed(world, p) && exists a, b | AreClose(observations, world, a, b) :: p == Orient(a, b)
    ensures NoRepeat(Candidates(observations, world))
  {
    hide NeighborsOf, Orient, FindObservation, IsConfirmed, Hits, AllHits;
    var hits := AllHits(observations, observations, world);
    SelectedExact(hits, {}, world, p);
    SelectedOnce(hits, {}, world);
    AllHitsExact(observations, observations, world, p);
    forall a | a in observations
      ensures p in Hits(observations, a, NeighborsOf(world, a))
              <==> exists b | AreClose(observations, world, a, b) :: p == Orient(a, b)
    {
      HitExact(observations, a, world, p);
    }
    if a, b :| AreClose(observations, world, a, b) && p == Orient(a, b) {
      var i, j :| 0 <= i < |observations| && observations[i] == a && 0 <= j < |observations| && observations[j] == b;
    }
  }

  lemma HitExact(observations: seq<Observation>, a: Observation, world: World, p: Pair)
    requires forall i, j | 0 <= i < j < |observations| :: observations[i].id != observations[j].id
    requires a in observations
    ensures p in Hits(observations, a, NeighborsOf(world, a))
            <==> exists b | AreClose(observations, world, a, b) :: p == Orient(a, b)
  {
    hide NeighborsOf, Orient, FindObservation, Hits;
    var ns := NeighborsOf(world, a);
    HitsExact(observations, a, ns, p);
    forall n ensures n in ns <==> world.embedded(a.id) && world.nearest(a.id).Some? && n in world.nearest(a.id).value {
      NeighborsExact(world, a, n);
    }
    if n :| n in ns && p in Hit(observations, a, n) {
      FindExact(observations, n.id);
      var b := FindObservation(observations, n.id).value;
      assert n == Neighbor(b.id, true);
      assert AreClose(observations, world, a, b) && p == Orient(a, b);
    }
    if b :| AreClose(observations, world, a, b) && p == Orient(a, b) {
      FindUnique(observations, b);
      assert p in Hit(observations, a, Neighbor(b.id, true));
    }
  }

  /** A model that denies every pair, or none at all, leaves the database alone. */
  lemma DeniedRunIsNoOp(db: Db, observations: seq<Observation>, world: World)
    requires world.nli.Some? ==> forall a, b :: !world.nli.value(a, b)
    ensures MergeRun(db, observations, world) == (db, [])
  {
    hide AllHits;
    if |observations| >= 2 && world.nli.Some? {
      var hits := AllHits(observations, observations, world);
      forall p ensures p !in Selected(hits, {}, world) { SelectedExact(hits, {}, world, p); }
      HeadIsListed(Selected(hits, {}, world));
    }
  }

  lemma HeadIsListed(pairs: seq<Pair>)
    ensures pairs == [] || pairs[0] in pairs
  {
  }

  /** A candidate joins two batch entities, the survivor created no later than the other. */
  lemma CandidateEnds(db: Db, observations: seq<Observation>, world: World, p: Pair)
    requires IsBatch(db, observations) && p in Candidates(observations, world)
    ensures p.survivor in Ids(observations) && p.superseded in Ids(observations) && p.survivor != p.superseded
    ensures StringLe(db.rows[p.survivor].createdAt, db.rows[p.superseded].createdAt)
    ensures DistinctTimes(observations) ==> Older(db.rows[p.survivor].createdAt, db.rows[p.superseded].createdAt)
  {
    hide Candidates, StringLe;
    CandidatesExact(db, observations, world, p);
    var a, b :| AreClose(observations, world, a, b) && Orients(p, a, b);
    StringLeTotal(a.createdAt, b.createdAt);
    var i, j :| 0 <= i < |observations| && observations[i] == a && 0 <= j < |observations| && observations[j] == b;
  }

  // ─── Whole runs ─────────────────────────────────────────────────

  lemma MergeOneEffect(db: Db, p: Pair, now: string, fault: Fault)
    requires Valid(db)
    ensures var (next, o) := MergeOne(db, p, now, fault);
            && Valid(next) && SameRows(db, next)
            && (forall other | other != p.superseded :: SameEntity(db, next, other))
            && (o.Done? ==> p.superseded in db.rows && IsLegal(db.rows[p.superseded].status, "superseded")
                            && next.rows[p.superseded].status == "superseded")
            && (p.superseded in db.rows && next.rows[p.superseded] != db.rows[p.superseded] ==>
                  IsLegal(db.rows[p.superseded].status, "superseded") && next.rows[p.superseded].status == "superseded")
            && (p.superseded in db.rows && db.rows[p.superseded].status == "superseded" ==>
                  !o.Done? && SameEntity(db, next, p.superseded))
  {
    hide Superseding, IsLegal, Links;
    SupersedingEffect(db, p.superseded, p.survivor, now, fault);
    if p.superseded in db.rows {
      SupersedingIsFinal(db.rows[p.superseded].status);
    }
  }

  lemma LegalBefore(db: Db, p: Pair, now: string, fault: Fault, id: string)
    requires Valid(db) && id in MergeOne(db, p, now, fault).0.rows
    requires IsLegal(MergeOne(db, p, now, fault).0.rows[id].status, "superseded")
    ensures id in db.rows && IsLegal(db.rows[id].status, "superseded")
  {
    hide MergeOne, IsLegal;
    MergeOneEffect(db, p, now, fault);
    SupersedingIsFinal("superseded");
    if id != p.superseded {
      assert SameEntity(db, MergeOne(db, p, now, fault).0, id);
    }
  }

  lemma SameEntityTrans(a: Db, b: Db, c: Db, id: string)
    requires SameEntity(a, b, id) && SameEntity(b, c, id)
    ensures SameEntity(a, c, id)
  {
  }

  /** A superseded entity keeps its row and its edges through the rest of the run. */
  lemma {:induction false} SupersededIsFrozen(db: Db, pairs: seq<Pair>, world: World, id: string)
    requires Valid(db) && id in db.rows && db.rows[id].status == "superseded"
    ensures SameEntity(db, MergeAll(db, pairs, world).0, id)
    decreases |pairs|
  {
    hide MergeOne, IsLegal, SameRows;
    if pairs != [] {
      var p := pairs[0];
      var next := MergeOne(db, p, world.now, world.fault(p)).0;
      MergeOneEffect(db, p, world.now, world.fault(p));
      assert SameEntity(db, next, id);
      SupersededIsFrozen(next, pairs[1..], world, id);
      SameEntityTrans(db, next, MergeAll(next, pairs[1..], world).0, id);
    }
  }

  /** Reported merges come from the pairs, and no entity is superseded in two of them. */
  lemma {:induction false} MergedAtMostOnce(db: Db, pairs: seq<Pair>, world: World)
    requires Valid(db)
    ensures var (after, merged) := MergeAll(db, pairs, world);
            && Valid(after) && SameRows(db, after)
            && (forall i | 0 <= i < |merged| ::
                  var id := merged[i].superseded;
                  merged[i] in pairs && id in db.rows && IsLegal(db.rows[id].status, "superseded")
                  && after.rows[id].status == "superseded")
            && forall i, j | 0 <= i < j < |merged| :: merged[i].superseded != merged[j].superseded
    decreases |pairs|
  {
    hide MergeOne, IsLegal;
    if pairs != [] {
      var p := pairs[0];
      var (next, o) := MergeOne(db, p, world.now, world.fault(p));
      MergeOneEffect(db, p, world.now, world.fault(p));
      MergedAtMostOnce(next, pairs[1..], world);
      if o.Done? {
        SupersededIsFrozen(next, pairs[1..], world, p.superseded);
        SupersedingIsFinal("superseded");
      }
      var merged := MergeAll(next, pairs[1..], world).1;
      forall i | 0 <= i < |merged|
        ensures merged[i] in pairs
        ensures IsLegal(db.rows[merged[i].superseded].status, "superseded")
        ensures o.Done? ==> merged[i].superseded != p.superseded
      {
        assert merged[i] in pairs[1..];
        LegalBefore(db, p, world.now, world.fault(p), merged[i].superseded);
      }
    }
  }

  /** The survivor of the first pair that supersedes this entity. */
  ghost function FirstSurvivor(pairs: seq<Pair>, id: string): Option<string> {
    if pairs == [] then None
    else if pairs[0].superseded == id then Some(pairs[0].survivor)
    else FirstSurvivor(pairs[1..], id)
  }

  /** Without faults the first pair naming an entity decides, and later ones are skipped. */
  lemma {:induction false} FirstPairWins(db: Db, pairs: seq<Pair>, world: World, id: string)
    requires Valid(db) && id in db.rows && db.rows[id].status == "active" && id in db.files
    requires forall p | p in pairs :: p.survivor in db.rows && world.fault(p).NoFault?
    ensures var after := MergeAll(db, pairs, world).0;
            match FirstSurvivor(pairs, id)
            case None => SameEntity(db, after, id)
            case Some(survivor) =>
              id in after.rows && after.rows[id].status == "superseded" && Links(after, id) == {survivor}
    decreases |pairs|
  {
    hide Superseding, IsLegal, Links, SameRows;
    if pairs != [] {
      var p := pairs[0];
      assert p in pairs;
      var (next, o) := MergeOne(db, p, world.now, world.fault(p));
      SupersedingEffect(db, p.superseded, p.survivor, world.now, world.fault(p));
      SameRowsKeepKeys(db, next);
      if p.superseded == id {
        SupersedingIsFinal(db.rows[id].status);
        SupersededIsFrozen(next, pairs[1..], world, id);
        SameEntitySameLinks(next, MergeAll(next, pairs[1..], world).0, id);
      } else {
        FilesRemain(db, p, world, id);
        assert SameEntity(db, next, id);
        FirstPairWins(next, pairs[1..], world, id);
        var after := MergeAll(next, pairs[1..], world).0;
        if FirstSurvivor(pairs, id).None? {
          SameEntityTrans(db, next, after, id);
        }
      }
    }
  }

  lemma SameEntitySameLinks(a: Db, b: Db, id: string)
    requires SameEntity(a, b, id)
    ensures Links(a, id) == Links(b, id)
  {
  }

  lemma SameRowsKeepKeys(a: Db, b: Db)
    requires SameRows(a, b)
    ensures a.rows.Keys == b.rows.Keys
  {
  }

  lemma FilesRemain(db: Db, p: Pair, world: World, id: string)
    requires id in db.files
    ensures id in MergeOne(db, p, world.now, world.fault(p)).0.files
  {
    hide IsLegal, MarkSuperseded, AfterSync;
  }

  // ─── Chains ─────────────────────────────────────────────────────

  /** Active, or superseded with exactly one link: to an older entity of the same set, or to a rule. */
  ghost predicate IsSettled(db: Db, ids: set<string>, rules: set<string>, id: string) {
    id in db.rows &&
    (|| db.rows[id].status == "active"
     || (db.rows[id].status == "superseded" && exists next | next in db.rows :: LinksDown(db, ids, rules, id, next)))
  }

  ghost predicate LinksDown(db: Db, ids: set<string>, rules: set<string>, id: string, next: string)
    requires id in db.rows && next in db.rows
  {
    Links(db, id) == {next} &&
    (next in rules || (next in ids && Older(db.rows[next].createdAt, db.rows[id].createdAt)))
  }

  /** The rules are active and none of the entities runs may supersede. */
  ghost predicate RulesStand(db: Db, ids: set<string>, rules: set<string>) {
    forall r | r in rules :: r in db.rows && db.rows[r].status == "active" && r !in ids
  }

  ghost predicate AllSettled(db: Db, ids: set<string>, rules: set<string>) {
    RulesStand(db, ids, rules) && forall id | id in ids :: IsSettled(db, ids, rules, id)
  }

  ghost predicate IsChain(db: Db, chain: seq<string>) {
    && chain != []
    && (forall id | id in chain :: id in db.rows)
    && (forall i | 0 <= i < |chain| - 1 :: chain[i + 1] in Links(db, chain[i]))
    && db.rows[chain[|chain| - 1]].status == "active"
  }

  /** Following `superseded_by` from here ends at an active entity. */
  ghost predicate EndsActive(db: Db, id: string) {
    exists chain | IsChain(db, chain) :: chain[0] == id
  }

  ghost function OlderIn(db: Db, ids: set<string>, id: string): set<string>
    requires id in db.rows
  {
    set x | x in ids && x in db.rows && Older(db.rows[x].createdAt, db.rows[id].createdAt)
  }

  lemma OlderShrinks(db: Db, ids: set<string>, id: string, survivor: string)
    requires id in db.rows && survivor in db.rows && survivor in ids
    requires Older(db.rows[survivor].createdAt, db.rows[id].createdAt)
    ensures |OlderIn(db, ids, survivor)| < |OlderIn(db, ids, id)|
  {
    hide StringLe;
    var small, big := OlderIn(db, ids, survivor), OlderIn(db, ids, id);
    forall x | x in small ensures x in big {
      StringLeTransitive(db.rows[x].createdAt, db.rows[survivor].createdAt, db.rows[id].createdAt);
      StringLeTotal(db.rows[survivor].createdAt, db.rows[id].createdAt);
    }
    assert survivor in big && survivor !in small;
    assert small <= big - {survivor};
    SubsetSize(small, big - {survivor});
  }

  lemma {:induction false} SettledEndsActive(db: Db, ids: set<string>, rules: set<string>, id: string)
    requires AllSettled(db, ids, rules) && id in ids
    ensures EndsActive(db, id)
    decreases |OlderIn(db, ids, id)|
  {
    hide Links, Older, OlderIn, EndsActive;
    assert IsSettled(db, ids, rules, id);
    if db.rows[id].status == "active" {
      ActiveEnds(db, id);
    } else {
      var next :| next in db.rows && LinksDown(db, ids, rules, id, next);
      if next in rules {
        ActiveEnds(db, next);
      } else {
        OlderShrinks(db, ids, id, next);
        SettledEndsActive(db, ids, rules, next);
      }
      PrependLink(db, id, next);
    }
  }

  lemma ActiveEnds(db: Db, id: string)
    requires id in db.rows && db.rows[id].status == "active"
    ensures EndsActive(db, id)
  {
    hide Links;
    assert IsChain(db, [id]) && [id][0] == id;
  }

  lemma PrependLink(db: Db, id: string, next: string)
    requires id in db.rows && next in Links(db, id) && EndsActive(db, next)
    ensures EndsActive(db, id)
  {
    hide Links;
    var chain :| IsChain(db, chain) && chain[0] == next;
    ExtendChain(db, id, chain);
  }

  lemma ExtendChain(db: Db, id: string, chain: seq<string>)
    requires IsChain(db, chain) && id in db.rows && chain[0] in Links(db, id)
    ensures EndsActive(db, id)
  {
    hide Links;
    var longer := [id] + chain;
    forall i | 0 <= i < |longer| - 1 ensures longer[i + 1] in Links(db, longer[i]) {
      if i > 0 {
        assert chain[i - 1 + 1] in Links(db, chain[i - 1]);
      }
    }
    assert IsChain(db, longer) && longer[0] == id;
  }

  /** Superseding one entity of the set by an older one, or by a rule, keeps everything settled. */
  lemma StepKeepsSettled(db: Db, ids: set<string>, rules: set<string>, id: string, next: string, now: string,
                         fault: Fault)
    requires Valid(db) && AllSettled(db, ids, rules) && id in ids && next in db.rows
    requires next in rules || (next in ids && Older(db.rows[next].createdAt, db.rows[id].createdAt))
    ensures AllSettled(Superseding(db, id, next, now, fault).0, ids, rules)
  {
    hide Superseding, IsLegal, Links, Older, IsSettled;
    var after := Superseding(db, id, next, now, fault).0;
    SupersedingEffect(db, id, next, now, fault);
    forall r | r in rules ensures r in after.rows && after.rows[r].status == "active" && r !in ids {
      assert r != id && SameEntity(db, after, r);
    }
    forall x | x in ids ensures IsSettled(after, ids, rules, x) {
      assert IsSettled(db, ids, rules, x);
      if x == id && Superseding(db, id, next, now, fault).1.Done? {
        LinkedIsSettled(db, after, ids, rules, id, next);
      } else {
        if x == id { EqualTablesSameEntity(db, after, x); }
        SettledStays(db, after, ids, rules, x);
      }
    }
  }

  lemma LinkedIsSettled(db: Db, after: Db, ids: set<string>, rules: set<string>, id: string, next: string)
    requires SameRows(db, after) && id in db.rows && next in db.rows
    requires next in rules || (next in ids && Older(db.rows[next].createdAt, db.rows[id].createdAt))
    requires after.rows[id].status == "superseded" && Links(after, id) == {next}
    ensures IsSettled(after, ids, rules, id)
  {
    hide Links, Older;
    assert LinksDown(after, ids, rules, id, next);
  }

  /** An untouched entity stays settled while no creation time changes. */
  lemma SettledStays(db: Db, after: Db, ids: set<string>, rules: set<string>, id: string)
    requires IsSettled(db, ids, rules, id) && SameEntity(db, after, id)
    requires forall x | x in db.rows :: x in after.rows && after.rows[x].createdAt == db.rows[x].createdAt
    ensures IsSettled(after, ids, rules, id)
  {
    hide Links, Older;
    SameEntitySameLinks(db, after, id);
    if db.rows[id].status != "active" {
      var next :| next in db.rows && LinksDown(db, ids, rules, id, next);
      assert LinksDown(after, ids, rules, id, next);
    }
  }

  lemma EqualTablesSameEntity(a: Db, b: Db, id: string)
    requires a.rows == b.rows && a.edges == b.edges
    ensures SameEntity(a, b, id)
  {
  }

  lemma {:induction false} PairsKeepSettled(db: Db, ids: set<string>, rules: set<string>, pairs: seq<Pair>,
                                            world: World)
    requires Valid(db) && AllSettled(db, ids, rules) && forall id | id in ids :: id in db.rows
    requires forall p | p in pairs ::
               && p.survivor in ids && p.superseded in ids
               && Older(db.rows[p.survivor].createdAt, db.rows[p.superseded].createdAt)
    ensures AllSettled(MergeAll(db, pairs, world).0, ids, rules)
    decreases |pairs|
  {
    hide Superseding, IsSettled, Older, RulesStand;
    if pairs != [] {
      var p := pairs[0];
      var next := MergeOne(db, p, world.now, world.fault(p)).0;
      SupersedingEffect(db, p.superseded, p.survivor, world.now, world.fault(p));
      StepKeepsSettled(db, ids, rules, p.superseded, p.survivor, world.now, world.fault(p));
      PairsKeepSettled(next, ids, rules, pairs[1..], world);
    }
  }

  lemma SettledRows(db: Db, ids: set<string>, rules: set<string>)
    requires AllSettled(db, ids, rules)
    ensures forall id | id in ids :: id in db.rows
  {
    forall id | id in ids ensures id in db.rows {
      assert IsSettled(db, ids, rules, id);
    }
  }

  /** A run over any batch of the set, with any answers and any failures, keeps every chain ending active. */
  lemma MergeRunIsSafe(db: Db, ids: set<string>, rules: set<string>, observations: seq<Observation>, world: World)
    requires Valid(db) && AllSettled(db, ids, rules)
    requires IsBatch(db, observations) && DistinctTimes(observations) && Ids(observations) <= ids
    ensures var after := MergeRun(db, observations, world).0;
            Valid(after) && AllSettled(after, ids, rules) && forall id | id in ids :: EndsActive(after, id)
  {
    hide MergeAll, Candidates, IsSettled, EndsActive, Older, RulesStand;
    var pairs := Candidates(observations, world);
    SettledRows(db, ids, rules);
    forall p | p in pairs
      ensures p.survivor in ids && p.superseded in ids
      ensures Older(db.rows[p.survivor].createdAt, db.rows[p.superseded].createdAt)
    {
      CandidateEnds(db, observations, world, p);
    }
    PairsKeepSettled(db, ids, rules, pairs, world);
    MergedAtMostOnce(db, pairs, world);
    forall id | id in ids ensures EndsActive(MergeRun(db, observations, world).0, id) {
      SettledEndsActive(MergeRun(db, observations, world).0, ids, rules, id);
    }
  }

  lemma ActiveIsSettled(db: Db, observations: seq<Observation>)
    requires IsBatch(db, observations)
    ensures AllSettled(db, Ids(observations), {})
  {
    hide Links, Older;
  }

  // ─── Equal creation times ───────────────────────────────────────

  /** Two observations the search finds close to each other, and a model that agrees. */
  ghost function TieWorld(a: string, b: string): World {
    World(id => id == a || id == b,
          id => Some([Neighbor(if id == a then b else a, true)]),
          Some((_, _) => true),
          _ => NoFault,
          "")
  }

  lemma SameIdSame(db: Db, observations: seq<Observation>, x: Observation, y: Observation)
    requires IsBatch(db, observations) && x in observations && y in observations && x.id == y.id
    ensures x == y
  {
    var i, j :| 0 <= i < |observations| && observations[i] == x && 0 <= j < |observations| && observations[j] == y;
  }

  lemma TieNeighbors(a: string, b: string, o: Observation)
    requires a != b
    ensures var world := TieWorld(a, b);
            && (world.embedded(o.id) <==> o.id == a || o.id == b)
            && (o.id == a ==> world.nearest(o.id) == Some([Neighbor(b, true)]))
            && (o.id == b ==> world.nearest(o.id) == Some([Neighbor(a, true)]))
  {
  }

  lemma TieClose(db: Db, observations: seq<Observation>, a: Observation, b: Observation, x: Observation, y: Observation)
    requires IsBatch(db, observations) && a in observations && b in observations && a.id != b.id
    ensures AreClose(observations, TieWorld(a.id, b.id), x, y) <==> (x == a && y == b) || (x == b && y == a)
  {
    hide TieWorld, IsBatch;
    TieNeighbors(a.id, b.id, x);
    if AreClose(observations, TieWorld(a.id, b.id), x, y) {
      SameIdSame(db, observations, x, if x.id == a.id then a else b);
      SameIdSame(db, observations, y, if x.id == a.id then b else a);
    }
  }

  lemma TieOrient(a: Observation, b: Observation)
    requires a.createdAt == b.createdAt
    ensures forall p :: Orients(p, a, b) <==> p == Pair(a.id, b.id)
  {
    StringLeTotal(a.createdAt, a.createdAt);
  }

  lemma TieCandidates(db: Db, observations: seq<Observation>, a: Observation, b: Observation, p: Pair)
    requires IsBatch(db, observations) && a in observations && b in observations && a.id != b.id
    requires a.createdAt == b.createdAt
    ensures p in Candidates(observations, TieWorld(a.id, b.id)) <==> p == Pair(a.id, b.id) || p == Pair(b.id, a.id)
  {
    hide Candidates, Orients, AreClose, TieWorld, IsBatch;
    var world := TieWorld(a.id, b.id);
    CandidatesExact(db, observations, world, p);
    TieOrient(a, b);
    TieOrient(b, a);
    forall x, y
      ensures AreClose(observations, world, x, y) <==> (x == a && y == b) || (x == b && y == a)
    {
      TieClose(db, observations, a, b, x, y);
    }
    assert AreClose(observations, world, a, b) && AreClose(observations, world, b, a);
    TieConfirms(a.id, b.id, p);
  }

  lemma TieConfirms(a: string, b: string, p: Pair)
    ensures var world := TieWorld(a, b);
            world.fault(p).NoFault? && world.nli.Some? && world.nli.value(p.survivor, p.superseded)
  {
  }

  lemma {:induction false} FirstSurvivorExact(pairs: seq<Pair>, id: string)
    ensures FirstSurvivor(pairs, id).Some? ==> Pair(FirstSurvivor(pairs, id).value, id) in pairs
    ensures FirstSurvivor(pairs, id).None? ==> forall p | p in pairs :: p.superseded != id
  {
    if pairs != [] && pairs[0].superseded != id {
      FirstSurvivorExact(pairs[1..], id);
      assert pairs == [pairs[0]] + pairs[1..];
    }
  }

  lemma {:induction false} CycleNeverEnds(db: Db, a: string, b: string, chain: seq<string>)
    requires a in db.rows && b in db.rows && db.rows[a].status != "active" && db.rows[b].status != "active"
    requires Links(db, a) == {b} && Links(db, b) == {a}
    ensures chain != [] && chain[0] in {a, b} ==> !IsChain(db, chain)
  {
    hide Links;
    if |chain| > 1 && chain[0] in {a, b} && IsChain(db, chain) {
      assert chain[0 + 1] in Links(db, chain[0]);
      assert IsChain(db, chain[1..]) by {
        forall i | 0 <= i < |chain[1..]| - 1 ensures chain[1..][i + 1] in Links(db, chain[1..][i]) {
          assert chain[i + 1 + 1] in Links(db, chain[i + 1]);
        }
      }
      CycleNeverEnds(db, a, b, chain[1..]);
    }
  }

  /** On equal times both orders are candidates, both entities end superseded by each other. */
  lemma TieLosesBoth(db: Db, observations: seq<Observation>, a: Observation, b: Observation)
    requires Valid(db) && IsBatch(db, observations) && a in observations && b in observations && a.id != b.id
    requires a.createdAt == b.createdAt && a.id in db.files && b.id in db.files
    ensures var after := MergeRun(db, observations, TieWorld(a.id, b.id)).0;
            && a.id in after.rows && after.rows[a.id].status == "superseded"
            && b.id in after.rows && after.rows[b.id].status == "superseded"
            && Links(after, a.id) == {b.id} && Links(after, b.id) == {a.id}
            && !EndsActive(after, a.id)
  {
    hide MergeAll, Candidates, Links, IsChain, TieWorld, FirstSurvivor, IsBatch;
    var world := TieWorld(a.id, b.id);
    var pairs := Candidates(observations, world);
    forall p
      ensures p in pairs <==> p == Pair(a.id, b.id) || p == Pair(b.id, a.id)
      ensures world.fault(p).NoFault? && world.nli.Some?
    {
      TieCandidates(db, observations, a, b, p);
      TieConfirms(a.id, b.id, p);
    }
    BatchRow(db, observations, a);
    BatchRow(db, observations, b);
    assert Pair(a.id, b.id) in pairs && Pair(b.id, a.id) in pairs;
    FirstSurvivorExact(pairs, a.id);
    FirstSurvivorExact(pairs, b.id);
    FirstPairWins(db, pairs, world, a.id);
    FirstPairWins(db, pairs, world, b.id);
    CyclesNeverEnd(MergeRun(db, observations, world).0, a.id, b.id);
  }

  lemma BatchRow(db: Db, observations: seq<Observation>, o: Observation)
    requires IsBatch(db, observations) && o in observations
    ensures o.id in db.rows && db.rows[o.id].status == "active"
  {
  }

  lemma CyclesNeverEnd(db: Db, a: string, b: string)
    requires a in db.rows && b in db.rows && db.rows[a].status == "superseded" && db.rows[b].status == "superseded"
    requires Links(db, a) == {b} && Links(db, b) == {a}
    ensures !EndsActive(db, a)
  {
    hide Links, IsChain;
    forall chain ensures chain != [] && chain[0] in {a, b} ==> !IsChain(db, chain) {
      CycleNeverEnds(db, a, b, chain);
    }
    forall chain | IsChain(db, chain) ensures chain != [] && chain[0] != a {
      NonEmptyChain(db, chain);
    }
  }

  lemma NonEmptyChain(db: Db, chain: seq<string>)
    requires IsChain(db, chain)
    ensures chain != []
  {
  }

  /** Every run on the batch is safe exactly when its creation times are distinct. */
  lemma SafeIffDistinctTimes(db: Db, observations: seq<Observation>)
    requires Valid(db) && IsBatch(db, observations)
    requires forall o | o in observations :: o.id in db.files
    ensures (forall world: World, o | o in observations :: EndsActive(MergeRun(db, observations, world).0, o.id))
            <==> DistinctTimes(observations)
  {
    hide MergeRun, EndsActive;
    ActiveIsSettled(db, observations);
    if DistinctTimes(observations) {
      forall world: World, o | o in observations ensures EndsActive(MergeRun(db, observations, world).0, o.id) {
        MergeRunIsSafe(db, Ids(observations), {}, observations, world);
      }
    } else {
      var i, j :| 0 <= i < j < |observations| && observations[i].createdAt == observations[j].createdAt;
      TieLosesBoth(db, observations, observations[i], observations[j]);
    }
  }
}
