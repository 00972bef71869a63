/** Sequences of consolidation runs: each observation is promoted at most once, and promotion reaches a
    fixpoint although every new rule adds support to other observations. */
module PromotionRuns {
  import opened FrontmatterFormat
  import EntityFiles
  import opened Refs
  import opened ConsolidationState
  import opened Promote
  import opened PromoteLaws
  import Merge

  /** Observations no other entity is derived from. */
  ghost function Unpromoted(db: Db): (r: set<string>) {
    set id | id in db.rows && db.rows[id].kind == FileRow(EntityFiles.Observation) && !HasRule(db.edges, id)
  }

  ghost predicate NoRepeat(ids: seq<string>) {
    forall i, j | 0 <= i < j < |ids| :: ids[i] != ids[j]
  }

  /** What every step keeps: sound tables, every derivation, every old row's kind, and no new observation. */
  ghost predicate IsLater(before: Db, after: Db) {
    && IsSound(after) && KeepsDerivations(before, after) && KeepsKinds(before, after)
    && forall id | id in after.rows && id !in before.rows :: after.rows[id].kind == FileRow(EntityFiles.Rule)
  }

  lemma LaterTrans(a: Db, b: Db, c: Db)
    requires IsLater(a, b) && IsLater(b, c)
    ensures IsLater(a, c)
  {
    hide IsSound;
  }

  lemma SameIsLater(db: Db)
    requires IsSound(db)
    ensures IsLater(db, db)
  {
    hide IsSound;
  }

  lemma LaterKeepsRules(a: Db, b: Db)
    requires IsLater(a, b)
    ensures forall id :: HasRule(a.edges, id) ==> HasRule(b.edges, id)
    ensures Unpromoted(b) <= Unpromoted(a)
  {
    hide IsSound;
    forall id | HasRule(a.edges, id) ensures HasRule(b.edges, id) {
      var e :| e in a.edges && e.kind == DerivedFrom && e.target == id && e.source != id;
      assert e in b.edges;
    }
  }

  // ─── One promotion run ──────────────────────────────────────────

  ghost predicate AreReady(db: Db, candidates: seq<Candidate>, world: World) {
    && (forall c | c in candidates :: c.observation.id in db.rows && IsFresh(db, world.ruleId(c.observation.id)))
    && forall i, j | 0 <= i < j < |candidates| ::
         var (a, b) := (candidates[i].observation.id, candidates[j].observation.id);
         a != b && world.ruleId(a) != world.ruleId(b)
  }

  lemma StepIsLater(db: Db, c: Candidate, world: World)
    requires IsSound(db) && c.observation.id in db.rows && IsFresh(db, world.ruleId(c.observation.id))
    ensures IsLater(db, Promoting(db, c, world).0)
    ensures Promoting(db, c, world).1 ==> HasRule(Promoting(db, c, world).0.edges, c.observation.id)
  {
    hide IsSound, Promoting;
    PromotingEffect(db, c, world);
  }

  lemma StillReady(db: Db, candidates: seq<Candidate>, world: World)
    requires IsSound(db) && AreReady(db, candidates, world) && candidates != []
    ensures AreReady(Promoting(db, candidates[0], world).0, candidates[1..], world)
  {
    hide IsSound, Promoting;
    var next := Promoting(db, candidates[0], world).0;
    assert candidates[0] in candidates;
    PromotingEffect(db, candidates[0], world);
    forall c | c in candidates[1..]
      ensures c.observation.id in next.rows && IsFresh(next, world.ruleId(c.observation.id))
    {
      var k :| 0 <= k < |candidates| - 1 && candidates[1..][k] == c;
      assert candidates[k + 1] == c && c in candidates;
      assert world.ruleId(candidates[0].observation.id) != world.ruleId(candidates[k + 1].observation.id);
    }
  }

  ghost predicate IsCandidateId(candidates: seq<Candidate>, id: string) {
    exists c | c in candidates :: c.observation.id == id
  }

  lemma {:induction false} PromoteAllEffect(db: Db, candidates: seq<Candidate>, world: World)
    requires IsSound(db) && AreReady(db, candidates, world)
    ensures var (after, landed, _) := PromoteAll(db, candidates, world);
            && IsLater(db, after) && NoRepeat(landed) && |landed| <= |candidates|
            && (forall id | id in landed :: IsCandidateId(candidates, id) && HasRule(after.edges, id))
    decreases |candidates|
  {
    hide IsSound, Promoting, IsLater, HasRule, AreReady, NoRepeat, ResultOf;
    if candidates == [] {
      SameIsLater(db);
      NoneRepeat();
    } else {
      var c := candidates[0];
      var (next, landed) := Promoting(db, c, world);
      ReadyHead(db, candidates, world);
      StepIsLater(db, c, world);
      StillReady(db, candidates, world);
      LaterIsSound(db, next);
      PromoteAllEffect(next, candidates[1..], world);
      var (after, ids, _) := PromoteAll(next, candidates[1..], world);
      LaterTrans(db, next, after);
      LaterKeepsRules(next, after);
      forall id | id in ids ensures IsCandidateId(candidates, id) && id != c.observation.id {
        LaterCandidates(db, candidates, world, id);
      }
      if landed {
        PrependFreshId(c.observation.id, ids);
      } else {
        assert [] + ids == ids;
      }
      assert PromoteAll(db, candidates, world).1 == (if landed then [c.observation.id] else []) + ids;
      assert IsCandidateId(candidates, c.observation.id);
    }
  }

  lemma LaterIsSound(a: Db, b: Db)
    requires IsLater(a, b)
    ensures IsSound(b)
  {
  }

  lemma ReadyHead(db: Db, candidates: seq<Candidate>, world: World)
    requires AreReady(db, candidates, world) && candidates != []
    ensures var id := candidates[0].observation.id; id in db.rows && IsFresh(db, world.ruleId(id))
  {
    assert candidates[0] in candidates;
  }

  lemma LaterCandidates(db: Db, candidates: seq<Candidate>, world: World, id: string)
    requires AreReady(db, candidates, world) && candidates != [] && IsCandidateId(candidates[1..], id)
    ensures IsCandidateId(candidates, id) && id != candidates[0].observation.id
  {
    var c :| c in candidates[1..] && c.observation.id == id;
    var k :| 0 <= k < |candidates| - 1 && candidates[1..][k] == c;
    assert candidates[k + 1] in candidates;
    assert candidates[0].observation.id != candidates[k + 1].observation.id;
  }

  lemma NoneRepeat()
    ensures NoRepeat([])
  {
  }

  lemma PrependFreshId(x: string, rest: seq<string>)
    requires NoRepeat(rest) && x !in rest
    ensures NoRepeat([x] + rest)
  {
    assert forall i | 0 <= i < |rest| :: rest[i] in rest;
  }

  /** A batch of distinct observation rows, an exact edge query, and fresh rule ids. */
  ghost predicate IsBatch(db: Db, observations: seq<Observation>, world: World) {
    && IsQuery(db.edges, world.fetch) && AreDistinct(IdsOf(observations))
    && (forall o | o in observations ::
          o.id in db.rows && db.rows[o.id].kind == FileRow(EntityFiles.Observation) && IsFresh(db, world.ruleId(o.id)))
    && forall o, p | o in observations && p in observations && o.id != p.id :: world.ruleId(o.id) != world.ruleId(p.id)
  }

  lemma {:induction false} AmongDistinct(es: seq<Edge>, observations: seq<Observation>, threshold: nat)
    requires AreDistinct(IdsOf(observations))
    ensures var r := CandidatesAmong(es, observations, threshold);
            && (forall c | c in r :: c.observation in observations)
            && forall i, j | 0 <= i < j < |r| :: r[i].observation.id != r[j].observation.id
  {
    hide Incoming, IsPromoted, Supporters;
    if observations != [] {
      var rest := observations[1..];
      forall i, j | 0 <= i < j < |rest| ensures IdsOf(rest)[i] != IdsOf(rest)[j] {
        assert IdsOf(observations)[i + 1] != IdsOf(observations)[j + 1];
      }
      AmongDistinct(es, rest, threshold);
      var later := CandidatesAmong(es, rest, threshold);
      forall i | 0 <= i < |later| ensures later[i].observation.id != observations[0].id {
        assert later[i] in later;
        var k :| 0 <= k < |rest| && rest[k] == later[i].observation;
        assert IdsOf(observations)[0] != IdsOf(observations)[k + 1];
      }
      assert observations == [observations[0]] + rest;
    }
  }

  lemma CandidatesAreReady(db: Db, observations: seq<Observation>, threshold: nat, world: World)
    requires IsBatch(db, observations, world)
    ensures AreReady(db, Candidates(observations, world.fetch, threshold), world)
    ensures forall id | IsCandidateId(Candidates(observations, world.fetch, threshold), id) :: id in Unpromoted(db)
  {
    hide IsQuery, EdgesInvolving, Incoming, IsPromoted, Supporters, HasRule, CandidatesAmong, IsFresh;
    if observations != [] {
      var es := EdgesInvolving(world.fetch, IdsOf(observations));
      var candidates := CandidatesAmong(es, observations, threshold);
      AmongDistinct(es, observations, threshold);
      forall i, j | 0 <= i < j < |candidates|
        ensures world.ruleId(candidates[i].observation.id) != world.ruleId(candidates[j].observation.id)
      {
        assert candidates[i] in candidates && candidates[j] in candidates;
      }
      forall c | c in candidates ensures !HasRule(db.edges, c.observation.id) {
        AmongExact(es, observations, threshold, c);
        IdInIds(observations, c.observation);
        PromotedExact(db.edges, world.fetch, IdsOf(observations), c.observation.id);
      }
    }
  }

  /** One run: what lands was unpromoted before and is promoted after, each observation once. */
  lemma PromotionRunEffect(db: Db, observations: seq<Observation>, threshold: nat, world: World)
    requires IsSound(db) && IsBatch(db, observations, world)
    ensures var (after, landed, _) := PromotionRun(db, observations, threshold, world);
            && IsLater(db, after) && NoRepeat(landed)
            && (forall id | id in landed :: id in Unpromoted(db) && id !in Unpromoted(after))
            && |landed| + |Unpromoted(after)| <= |Unpromoted(db)|
  {
    hide IsSound, IsBatch, Candidates, PromoteAll, IsLater, NoRepeat, IsCandidateId;
    var candidates := Candidates(observations, world.fetch, threshold);
    CandidatesAreReady(db, observations, threshold, world);
    PromoteAllEffect(db, candidates, world);
    var (after, landed, _) := PromoteAll(db, candidates, world);
    LaterKeepsRules(db, after);
    SizeSplit(landed, Unpromoted(after), Unpromoted(db));
  }

  lemma {:induction false} SizeSplit(landed: seq<string>, after: set<string>, before: set<string>)
    requires NoRepeat(landed) && after <= before
    requires forall id | id in landed :: id in before && id !in after
    ensures |landed| + |after| <= |before|
  {
    if landed == [] {
      SubsetSize(after, before);
    } else {
      assert landed[0] in landed;
      forall id | id in landed[1..] ensures id in before - {landed[0]} && id !in after {
        var k :| 0 <= k < |landed| - 1 && landed[1..][k] == id;
        assert landed[0] != landed[k + 1];
      }
      SizeSplit(landed[1..], after, before - {landed[0]});
    }
  }

  // ─── Any sequence of runs ───────────────────────────────────────

  /** Merge runs and promotion runs may alternate in any way. */
  datatype Step =
    | MergeStep(pairs: seq<Merge.Pair>, mergeWorld: Merge.World)
    | PromotionStep(observations: seq<Observation>, threshold: nat, world: World)

  function Run(db: Db, s: Step): (Db, seq<string>) {
    match s
    case MergeStep(pairs, mergeWorld) => (Merge.MergeAll(db, pairs, mergeWorld).0, [])
    case PromotionStep(observations, threshold, world) =>
      (PromotionRun(db, observations, threshold, world).0, PromotionRun(db, observations, threshold, world).1)
  }

  function RunAll(db: Db, steps: seq<Step>): (Db, seq<string>)
    decreases |steps|
  {
    if steps == [] then (db, [])
    else
      var (next, landed) := Run(db, steps[0]);
      var (after, later) := RunAll(next, steps[1..]);
      (after, landed + later)
  }

  ghost predicate AreRuns(db: Db, steps: seq<Step>)
    decreases |steps|
  {
    steps == [] ||
    (&& (steps[0].PromotionStep? ==> IsBatch(db, steps[0].observations, steps[0].world))
     && AreRuns(Run(db, steps[0]).0, steps[1..]))
  }

  lemma {:induction false} MergeIsLater(db: Db, pairs: seq<Merge.Pair>, world: Merge.World)
    requires IsSound(db)
    ensures IsLater(db, Merge.MergeAll(db, pairs, world).0)
    decreases |pairs|
  {
    hide IsLater, Superseding;
    if pairs == [] {
      SameIsLater(db);
    } else {
      var p := pairs[0];
      var next := Merge.MergeOne(db, p, world.now, world.fault(p)).0;
      MergeOneIsLater(db, p, world);
      LaterIsSound(db, next);
      MergeIsLater(next, pairs[1..], world);
      LaterTrans(db, next, Merge.MergeAll(next, pairs[1..], world).0);
    }
  }

  lemma MergeOneIsLater(db: Db, p: Merge.Pair, world: Merge.World)
    requires IsSound(db)
    ensures IsLater(db, Merge.MergeOne(db, p, world.now, world.fault(p)).0)
  {
    hide IsSound, Superseding;
    SupersedingKeepsSound(db, p.superseded, p.survivor, world.now, world.fault(p));
  }

  lemma RunEffect(db: Db, s: Step)
    requires IsSound(db) && (s.PromotionStep? ==> IsBatch(db, s.observations, s.world))
    ensures var (after, landed) := Run(db, s);
            && IsLater(db, after) && NoRepeat(landed)
            && (forall id | id in landed :: id in Unpromoted(db) && id !in Unpromoted(after))
            && |landed| + |Unpromoted(after)| <= |Unpromoted(db)|
  {
    hide IsSound, IsBatch, IsLater, PromotionRun, Unpromoted;
    if s.MergeStep? {
      MergeIsLater(db, s.pairs, s.mergeWorld);
      var after := Merge.MergeAll(db, s.pairs, s.mergeWorld).0;
      LaterKeepsRules(db, after);
      SubsetSize(Unpromoted(after), Unpromoted(db));
    } else {
      PromotionRunEffect(db, s.observations, s.threshold, s.world);
    }
  }

  /** Over all runs together no observation is promoted twice, and the promotions plus the observations
      still unpromoted never exceed the unpromoted ones at the start. */
  lemma {:induction false} PromotedAtMostOnce(db: Db, steps: seq<Step>)
    requires IsSound(db) && AreRuns(db, steps)
    ensures var (after, landed) := RunAll(db, steps);
            && IsLater(db, after) && NoRepeat(landed)
            && (forall id | id in landed :: id in Unpromoted(db) && id !in Unpromoted(after))
            && |landed| + |Unpromoted(after)| <= |Unpromoted(db)|
    decreases |steps|
  {
    hide IsSound, IsLater, Run, IsBatch, Unpromoted, NoRepeat;
    if steps == [] {
      SameIsLater(db);
      NoneRepeat();
    } else {
      var (next, landed) := Run(db, steps[0]);
      RunEffect(db, steps[0]);
      LaterIsSound(db, next);
      PromotedAtMostOnce(next, steps[1..]);
      var (after, later) := RunAll(next, steps[1..]);
      LaterTrans(db, next, after);
      LaterKeepsRules(db, next);
      LaterKeepsRules(next, after);
      AppendDisjoint(landed, later, Unpromoted(next));
    }
  }

  lemma AppendDisjoint(a: seq<string>, b: seq<string>, between: set<string>)
    requires NoRepeat(a) && NoRepeat(b)
    requires (forall id | id in a :: id !in between) && forall id | id in b :: id in between
    ensures NoRepeat(a + b)
  {
    assert forall i | 0 <= i < |a| :: a[i] in a;
    assert forall i | 0 <= i < |b| :: b[i] in b;
  }

  // ─── Fixpoint ───────────────────────────────────────────────────

  /** No rule file fails to be written or synced. */
  ghost predicate RulesLand(s: Step) {
    s.PromotionStep? ==>
      forall o | o in s.observations :: !s.world.fault(o.id).WriteFails? && !s.world.fault(o.id).SyncFails?
  }

  predicate IsBusy(s: Step) {
    s.PromotionStep? && Candidates(s.observations, s.world.fetch, s.threshold) != []
  }

  function BusyRuns(steps: seq<Step>): nat {
    if steps == [] then 0 else (if IsBusy(steps[0]) then 1 else 0) + BusyRuns(steps[1..])
  }

  lemma BusyRunLands(db: Db, s: Step)
    requires IsSound(db) && s.PromotionStep? && IsBatch(db, s.observations, s.world) && RulesLand(s) && IsBusy(s)
    ensures |Run(db, s).1| >= 1
  {
    hide IsSound, Promoting, IsQuery, CandidateFor, EdgesInvolving;
    var candidates := Candidates(s.observations, s.world.fetch, s.threshold);
    CandidatesAreReady(db, s.observations, s.threshold, s.world);
    ReadyHead(db, candidates, s.world);
    AmongDistinct(EdgesInvolving(s.world.fetch, IdsOf(s.observations)), s.observations, s.threshold);
    assert candidates[0] in candidates;
    PromotingEffect(db, candidates[0], s.world);
  }

  /** When rules land, at most as many runs find a candidate as there are unpromoted observations at the
      start; every other promotion run changes nothing. */
  lemma {:induction false} RunsReachFixpoint(db: Db, steps: seq<Step>)
    requires IsSound(db) && AreRuns(db, steps) && forall s | s in steps :: RulesLand(s)
    ensures BusyRuns(steps) + |Unpromoted(RunAll(db, steps).0)| <= |Unpromoted(db)|
    decreases |steps|
  {
    hide IsSound, IsLater, Run, IsBatch, Unpromoted, NoRepeat, RulesLand, IsBusy;
    if steps != [] {
      var (next, landed) := Run(db, steps[0]);
      assert steps[0] in steps;
      RunEffect(db, steps[0]);
      LaterIsSound(db, next);
      RunsReachFixpoint(next, steps[1..]);
      if IsBusy(steps[0]) {
        BusyIsPromotion(steps[0]);
        BusyRunLands(db, steps[0]);
      }
    }
  }

  lemma BusyIsPromotion(s: Step)
    requires IsBusy(s)
    ensures s.PromotionStep?
  {
  }
}
