/** Merge and promotion runs in any order: following `superseded_by` always ends at an active entity. */
module ConsolidationRuns {
  import opened FrontmatterFormat
  import EntityFiles
  import opened Refs
  import opened ConsolidationState
  import Merge
  import opened MergeLaws
  import Promote
  import opened PromoteLaws
  import Promotions = PromotionRuns

  datatype Run =
    | Merging(batch: seq<Merge.Observation>, answers: Merge.World)
    | Promoting(observations: seq<Promote.Observation>, threshold: nat, world: Promote.World)

  function After(db: Db, run: Run): Db {
    match run
    case Merging(batch, answers) => Merge.MergeRun(db, batch, answers).0
    case Promoting(observations, threshold, world) => Promote.PromotionRun(db, observations, threshold, world).0
  }

  /** A run on a batch of the managed observations, as the queries return it. */
  ghost predicate IsRun(db: Db, ids: set<string>, run: Run) {
    match run
    case Merging(batch, _) => MergeLaws.IsBatch(db, batch) && DistinctTimes(batch) && MergeLaws.Ids(batch) <= ids
    case Promoting(observations, _, world) =>
      Promotions.IsBatch(db, observations, world) && forall o | o in observations :: o.id in ids
  }

  // ─── One promotion ──────────────────────────────────────────────

  /** A new active rule that touches nobody else keeps everything settled, with the rule added. */
  lemma NewRuleKeepsSettled(db: Db, after: Db, ids: set<string>, rules: set<string>, ruleId: string)
    requires AllSettled(db, ids, rules) && ruleId !in db.rows
    requires after.rows.Keys == db.rows.Keys + {ruleId} && after.rows[ruleId].status == "active"
    requires forall id | id in db.rows :: after.rows[id] == db.rows[id]
    requires forall e: Edge | e.source != ruleId :: e in after.edges <==> e in db.edges
    ensures AllSettled(after, ids, rules + {ruleId})
  {
    hide IsSettled, Links;
    SettledRows(db, ids, rules);
    forall id | id in ids ensures IsSettled(after, ids, rules + {ruleId}, id) {
      assert IsSettled(db, ids, rules, id);
      SettledStays(db, after, ids, rules, id);
      MoreRules(after, ids, rules, rules + {ruleId}, id);
    }
  }

  lemma MoreRules(db: Db, ids: set<string>, rules: set<string>, more: set<string>, id: string)
    requires IsSettled(db, ids, rules, id) && rules <= more
    ensures IsSettled(db, ids, more, id)
  {
    hide Links, Older;
    if db.rows[id].status != "active" {
      var next :| next in db.rows && LinksDown(db, ids, rules, id, next);
      assert LinksDown(db, ids, more, id, next);
    }
  }

  lemma EqualTablesSettled(db: Db, after: Db, ids: set<string>, rules: set<string>)
    requires AllSettled(db, ids, rules) && after.rows == db.rows && after.edges == db.edges
    ensures AllSettled(after, ids, rules)
  {
    hide IsSettled;
    forall id | id in ids ensures IsSettled(after, ids, rules, id) {
      assert IsSettled(db, ids, rules, id);
      EqualTablesSameEntity(db, after, id);
      SettledStays(db, after, ids, rules, id);
    }
  }

  /** The rules that stand after an attempt. */
  function RulesAfter(db: Db, c: Promote.Candidate, world: Promote.World, rules: set<string>): set<string> {
    if Promote.Promoting(db, c, world).1 then rules + {world.ruleId(c.observation.id)} else rules
  }

  lemma PromotingKeepsSettled(db: Db, c: Promote.Candidate, world: Promote.World, ids: set<string>, rules: set<string>)
    requires IsSound(db) && AllSettled(db, ids, rules) && c.observation.id in ids && c.observation.id in db.rows
    requires IsFresh(db, world.ruleId(c.observation.id))
    ensures AllSettled(Promote.Promoting(db, c, world).0, ids, RulesAfter(db, c, world, rules))
  {
    hide Promote.RuleFile, SyncFile, Superseding, Targets, AllSettled;
    var id := c.observation.id;
    var ruleId := world.ruleId(id);
    var f := Promote.RuleFile(c, ruleId, world.now);
    RuleTargets(c, ruleId, world.now);
    PromotingEffect(db, c, world);
    if Promote.Promoting(db, c, world).1 {
      SyncNewRule(db, f, id);
      var synced := SyncFile(db.(files := db.files[ruleId := f]), f).value;
      NewRuleKeepsSettled(db, synced, ids, rules, ruleId);
      StepKeepsSettled(synced, ids, rules + {ruleId}, id, ruleId, world.now, world.sourceFault(id));
    } else {
      EqualTablesSettled(db, Promote.Promoting(db, c, world).0, ids, rules);
    }
  }

  lemma {:induction false} PromoteAllKeepsSettled(db: Db, candidates: seq<Promote.Candidate>, world: Promote.World,
                                                  ids: set<string>, rules: set<string>)
    requires IsSound(db) && Promotions.AreReady(db, candidates, world) && AllSettled(db, ids, rules)
    requires forall c | c in candidates :: c.observation.id in ids
    ensures exists later :: AllSettled(Promote.PromoteAll(db, candidates, world).0, ids, later)
    decreases |candidates|
  {
    hide IsSound, Promote.Promoting, Promotions.AreReady, AllSettled, Promote.ResultOf;
    if candidates == [] {
      assert AllSettled(Promote.PromoteAll(db, candidates, world).0, ids, rules);
    } else {
      var c := candidates[0];
      var next := Promote.Promoting(db, c, world).0;
      assert c in candidates;
      Promotions.ReadyHead(db, candidates, world);
      PromotingKeepsSettled(db, c, world, ids, rules);
      PromotingEffect(db, c, world);
      Promotions.StillReady(db, candidates, world);
      PromoteAllKeepsSettled(next, candidates[1..], world, ids, RulesAfter(db, c, world, rules));
      assert Promote.PromoteAll(db, candidates, world).0 == Promote.PromoteAll(next, candidates[1..], world).0;
    }
  }

  // ─── Any sequence of runs ───────────────────────────────────────

  lemma RunKeepsSettled(db: Db, run: Run, ids: set<string>, rules: set<string>)
    requires IsSound(db) && AllSettled(db, ids, rules) && IsRun(db, ids, run)
    ensures IsSound(After(db, run)) && exists later :: AllSettled(After(db, run), ids, later)
  {
    hide IsSound, AllSettled, Promote.PromoteAll, Promote.Candidates, Promotions.IsBatch, EndsActive, MergeLaws.IsBatch;
    match run
    case Merging(batch, answers) =>
      SoundIsValid(db);
      MergeRunIsSafe(db, ids, rules, batch, answers);
      Promotions.MergeIsLater(db, Merge.Candidates(batch, answers), answers);
      Promotions.LaterIsSound(db, Merge.MergeAll(db, Merge.Candidates(batch, answers), answers).0);
      assert AllSettled(After(db, run), ids, rules);
    case Promoting(observations, threshold, world) =>
      var candidates := Promote.Candidates(observations, world.fetch, threshold);
      Promotions.CandidatesAreReady(db, observations, threshold, world);
      CandidatesFromBatch(db, observations, threshold, world, ids);
      PromoteAllKeepsSettled(db, candidates, world, ids, rules);
      Promotions.PromoteAllEffect(db, candidates, world);
      Promotions.LaterIsSound(db, After(db, run));
  }

  lemma SoundIsValid(db: Db)
    requires IsSound(db)
    ensures Valid(db)
  {
  }

  lemma CandidatesFromBatch(db: Db, observations: seq<Promote.Observation>, threshold: nat, world: Promote.World,
                            ids: set<string>)
    requires Promotions.IsBatch(db, observations, world) && forall o | o in observations :: o.id in ids
    ensures forall c | c in Promote.Candidates(observations, world.fetch, threshold) :: c.observation.id in ids
  {
    hide Promote.EdgesInvolving, Promote.CandidatesAmong;
    if observations != [] {
      var es := Promote.EdgesInvolving(world.fetch, Promote.IdsOf(observations));
      Promotions.AmongDistinct(es, observations, threshold);
    }
  }

  function AfterAll(db: Db, runs: seq<Run>): Db
    decreases |runs|
  {
    if runs == [] then db else AfterAll(After(db, runs[0]), runs[1..])
  }

  ghost predicate AreRuns(db: Db, ids: set<string>, runs: seq<Run>)
    decreases |runs|
  {
    runs == [] || (IsRun(db, ids, runs[0]) && AreRuns(After(db, runs[0]), ids, runs[1..]))
  }

  /** Over merge and promotion runs in any order, with any answers and failures, following `superseded_by` from
      any managed observation ends at an active entity: an older observation or a rule. */
  lemma {:induction false} RunsAreSafe(db: Db, runs: seq<Run>, ids: set<string>, rules: set<string>, id: string)
    requires IsSound(db) && AllSettled(db, ids, rules) && AreRuns(db, ids, runs) && id in ids
    ensures EndsActive(AfterAll(db, runs), id)
    decreases |runs|
  {
    hide IsSound, AllSettled, IsRun, After, EndsActive;
    if runs == [] {
      SettledEndsActive(db, ids, rules, id);
    } else {
      RunKeepsSettled(db, runs[0], ids, rules);
      var later :| AllSettled(After(db, runs[0]), ids, later);
      RunsAreSafe(After(db, runs[0]), runs[1..], ids, later, id);
    }
  }
}
