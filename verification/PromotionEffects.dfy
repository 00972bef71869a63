/** What a promotion writes into files, and what a promotion run reports (src/consolidate/promote.rs). */
module PromotionEffects {
  import opened FrontmatterFormat
  import EntityFiles
  import opened Refs
  import opened ConsolidationState
  import opened Promote

  // ─── The files of a promotion ───────────────────────────────────

  /** The rule says what the observation said, and where it comes from. */
  ghost predicate IsRuleOf(f: EntityFiles.EntityFile, c: Candidate, ruleId: string, now: string) {
    && f.id == ruleId && f.entityType == EntityFiles.Rule && f.status == "active"
    && f.body == c.observation.content
    && f.title == (match c.observation.title case Some(title) => title case None => "Promoted rule")
    && f.createdAt == now && f.updatedAt == now && f.references == []
    && (exists confidence | Lookup(f.frontmatter, "confidence") == Some(Float(confidence)) :: confidence == "0.7")
    && Lookup(f.frontmatter, "validation_count") == Some(Int(0))
    && Lookup(f.frontmatter, "supporting_ids") == Some(Array(c.supporters))
    && Lookup(f.frontmatter, "promoted_from") == Some(String(c.observation.id))
    && Lookup(f.frontmatter, "derived_from") == Some(String(c.observation.id))
  }

  lemma LookupNext(e: Entry, rest: seq<Entry>, key: string)
    ensures Lookup([e] + rest, key) == if e.0 == key then Some(e.1) else Lookup(rest, key)
  {
    assert ([e] + rest)[1..] == rest;
  }

  lemma RuleEntries(c: Candidate, ruleId: string, now: string, key: string)
    ensures var es := RuleFile(c, ruleId, now).frontmatter;
            Lookup(es, key) == if key == "confidence" then Some(Float(InitialConfidence()))
                               else if key == "validation_count" then Some(Int(0))
                               else if key == "supporting_ids" then Some(Array(c.supporters))
                               else if key in {"promoted_from", "derived_from"} then Some(String(c.observation.id))
                               else None
  {
    hide Lookup, InitialConfidence;
    var es := RuleFile(c, ruleId, now).frontmatter;
    var r4 := [es[4]] + [];
    var r3 := [es[3]] + r4;
    var r2 := [es[2]] + r3;
    var r1 := [es[1]] + r2;
    assert es == [es[0]] + r1;
    NothingToLookUp(key);
    LookupNext(es[4], [], key);
    LookupNext(es[3], r4, key);
    LookupNext(es[2], r3, key);
    LookupNext(es[1], r2, key);
    LookupNext(es[0], r1, key);
  }

  lemma NothingToLookUp(key: string)
    ensures Lookup([], key) == None
  {
  }

  lemma RuleFileSays(c: Candidate, ruleId: string, now: string)
    ensures IsRuleOf(RuleFile(c, ruleId, now), c, ruleId, now)
  {
    hide Lookup;
    var es := RuleFile(c, ruleId, now).frontmatter;
    RuleEntries(c, ruleId, now, "confidence");
    RuleEntries(c, ruleId, now, "validation_count");
    RuleEntries(c, ruleId, now, "supporting_ids");
    RuleEntries(c, ruleId, now, "promoted_from");
    RuleEntries(c, ruleId, now, "derived_from");
    var confidence := InitialConfidence();
    assert Lookup(es, "confidence") == Some(Float(confidence)) && confidence == "0.7";
  }

  /** A promotion writes the rule with the observation's own words before it touches the observation, whose
      file is marked superseded by the rule and keeps the rest; no other file changes. */
  lemma PromotedFiles(db: Db, c: Candidate, world: World)
    requires world.ruleId(c.observation.id) != c.observation.id
    ensures var (id, ruleId) := (c.observation.id, world.ruleId(c.observation.id));
            var (after, landed) := Promoting(db, c, world);
            && (world.fault(id).WriteFails? ==> after == db)
            && (!world.fault(id).WriteFails? ==>
                  ruleId in after.files && IsRuleOf(after.files[ruleId], c, ruleId, world.now))
            && (forall other | other in db.files && other != ruleId ::
                  other in after.files && (other != id ==> after.files[other] == db.files[other]))
            && (forall other | other in after.files && other != ruleId :: other in db.files)
            && (id in db.files ==>
                  if landed && id in db.rows && db.rows[id].status in {"active", "stale"}
                     && !world.sourceFault(id).WriteFails?
                  then IsMarked(db.files[id], after.files[id], ruleId, world.now)
                  else after.files[id] == db.files[id])
  {
    hide RuleFile, Superseding, IsMarked, IsRuleOf, AfterSync, IsLegal;
    var id := c.observation.id;
    var ruleId := world.ruleId(id);
    var f := RuleFile(c, ruleId, world.now);
    RuleFileSays(c, ruleId, world.now);
    assert f.id == ruleId by { RuleIdOf(c, ruleId, world.now); }
    if !world.fault(id).WriteFails? && !world.fault(id).SyncFails? {
      var written := db.(files := db.files[ruleId := f]);
      if SyncFile(written, f).Some? {
        SupersededFile(SyncFile(written, f).value, id, ruleId, world.now, world.sourceFault(id));
      }
    }
  }

  lemma RuleIdOf(c: Candidate, ruleId: string, now: string)
    ensures RuleFile(c, ruleId, now).id == ruleId
  {
  }

  // ─── What is reported ───────────────────────────────────────────

  /** The observations whose promotion is reported: those landed whose event was recorded. */
  function Recorded(ids: seq<string>, world: World): seq<string> {
    if ids == [] then []
    else (if world.fault(ids[0]).EventFails? then [] else [ids[0]]) + Recorded(ids[1..], world)
  }

  ghost predicate IsReport(r: PromotionResult, candidates: seq<Candidate>, world: World, id: string) {
    && r.observationId == id && r.ruleId == world.ruleId(id)
    && exists c | c in candidates && c.observation.id == id :: r.supporters == |c.supporters|
  }

  ghost predicate AreReports(rs: seq<PromotionResult>, candidates: seq<Candidate>, world: World, ids: seq<string>) {
    |rs| == |ids| && forall i | 0 <= i < |rs| :: IsReport(rs[i], candidates, world, ids[i])
  }

  /** Every landed promotion is reported, in order, unless recording it failed; the report names the rule and
      the size of the support. */
  lemma {:induction false} ReportedInOrder(db: Db, candidates: seq<Candidate>, world: World)
    ensures var (_, landed, results) := PromoteAll(db, candidates, world);
            AreReports(results, candidates, world, Recorded(landed, world))
    decreases |candidates|
  {
    hide Promoting, AreReports, Recorded, ResultOf;
    if candidates == [] {
      NothingToReport(world);
    } else {
      var c, tail := candidates[0], candidates[1..];
      var (next, landed) := Promoting(db, c, world);
      ReportedInOrder(next, tail, world);
      var (_, ids, results) := PromoteAll(next, tail, world);
      RecordedHead(c.observation.id, ids, world);
      ReportHead(c, tail, world, results, Recorded(ids, world));
      assert candidates == [c] + tail;
      assert [] + results == results;
    }
  }

  lemma NothingToReport(world: World)
    ensures Recorded([], world) == [] && AreReports([], [], world, [])
  {
  }

  lemma StillReport(r: PromotionResult, c: Candidate, tail: seq<Candidate>, world: World, id: string)
    requires IsReport(r, tail, world, id)
    ensures IsReport(r, [c] + tail, world, id)
  {
    var d :| d in tail && d.observation.id == id && r.supporters == |d.supporters|;
    assert d in [c] + tail;
  }

  lemma OwnReport(c: Candidate, tail: seq<Candidate>, world: World)
    ensures var id := c.observation.id;
            IsReport(ResultOf(c, world.ruleId(id)), [c] + tail, world, id)
  {
    assert c in [c] + tail;
  }

  lemma PrependReport(r: PromotionResult, rs: seq<PromotionResult>, candidates: seq<Candidate>, world: World,
                      id: string, ids: seq<string>)
    requires IsReport(r, candidates, world, id) && AreReports(rs, candidates, world, ids)
    ensures AreReports([r] + rs, candidates, world, [id] + ids)
  {
    hide IsReport;
  }

  lemma ReportHead(c: Candidate, tail: seq<Candidate>, world: World, results: seq<PromotionResult>, ids: seq<string>)
    requires AreReports(results, tail, world, ids)
    ensures AreReports(results, [c] + tail, world, ids) && [] + ids == ids
    ensures var id := c.observation.id;
            AreReports([ResultOf(c, world.ruleId(id))] + results, [c] + tail, world, [id] + ids)
  {
    hide IsReport, ResultOf;
    forall i | 0 <= i < |results| ensures IsReport(results[i], [c] + tail, world, ids[i]) {
      StillReport(results[i], c, tail, world, ids[i]);
    }
    OwnReport(c, tail, world);
    var id := c.observation.id;
    PrependReport(ResultOf(c, world.ruleId(id)), results, [c] + tail, world, id, ids);
  }

  lemma RecordedHead(id: string, rest: seq<string>, world: World)
    ensures Recorded([id] + rest, world)
            == (if world.fault(id).EventFails? then [] else [id]) + Recorded(rest, world)
    ensures [] + rest == rest
  {
    assert ([id] + rest)[1..] == rest;
  }
}
