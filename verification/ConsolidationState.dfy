/** The tables and files consolidation works on, and the step both its halves share: marking one entity
    superseded (src/consolidate/merge.rs, src/consolidate/promote.rs, src/storage/status.rs). */
module ConsolidationState {
  import opened FrontmatterFormat
  import opened EntityFiles
  import opened Refs
  import Parser = FrontmatterParser

  datatype RowKind = FileRow(entityType: EntityType) | CodeRow

  datatype Row = Row(kind: RowKind, status: string, createdAt: string)

  /** Entity rows, canonical files by entity id, and edge rows. */
  datatype Db = Db(rows: map<string, Row>, files: map<string, EntityFile>, edges: set<Edge>)

  ghost predicate Valid(db: Db) {
    forall id | id in db.files :: db.files[id].id == id
  }

  // ─── Status lattice ─────────────────────────────────────────────

  predicate IsLegal(current: string, next: string) {
    || (current == "active" && next in {"stale", "rejected", "superseded"})
    || (current == "stale" && next in {"active", "rejected", "superseded"})
    || (current == "rejected" && next == "pruned")
    || (current == "superseded" && next == "pruned")
  }

  /** What may be superseded, and where a superseded entity may still go. */
  lemma SupersedingIsFinal(s: string)
    ensures IsLegal(s, "superseded") <==> s == "active" || s == "stale"
    ensures IsLegal("superseded", s) <==> s == "pruned"
  {
  }

  // ─── Syncing a changed file ─────────────────────────────────────

  /** The database after syncing a file whose text changed; `None` when its status may not be reached. */
  function SyncFile(db: Db, f: EntityFile): Option<Db> {
    if f.id in db.rows then
      var row := db.rows[f.id];
      if row.status != f.status && !IsLegal(row.status, f.status) then None
      else Some(db.(rows := db.rows[f.id := row.(status := f.status)], edges := AfterSync(db.rows.Keys, db.edges, f)))
    else
      var rows := db.rows[f.id := Row(FileRow(f.entityType), f.status, f.createdAt)];
      Some(db.(rows := rows, edges := AfterSync(rows.Keys, db.edges, f)))
  }

  /** A changed file is refused exactly when its status is new and may not follow the old one; otherwise its row
      takes the status, or is added as the file says, and its edges are synced; no other row and no file changes. */
  lemma SyncFileExactly(db: Db, f: EntityFile)
    ensures SyncFile(db, f).None? <==>
            f.id in db.rows && db.rows[f.id].status != f.status && !IsLegal(db.rows[f.id].status, f.status)
    ensures SyncFile(db, f).Some? ==>
              var after := SyncFile(db, f).value;
              && after.rows.Keys == db.rows.Keys + {f.id} && after.files == db.files
              && (forall id | id in db.rows && id != f.id :: after.rows[id] == db.rows[id])
              && after.rows[f.id].status == f.status
              && (f.id in db.rows ==> after.rows[f.id].kind == db.rows[f.id].kind
                                      && after.rows[f.id].createdAt == db.rows[f.id].createdAt)
              && (f.id !in db.rows ==> after.rows[f.id].kind == FileRow(f.entityType)
                                       && after.rows[f.id].createdAt == f.createdAt)
              && after.edges == AfterSync(db.rows.Keys + {f.id}, db.edges, f)
  {
    hide AfterSync, IsLegal;
    assert f.id in db.rows ==> db.rows.Keys + {f.id} == db.rows.Keys;
    assert f.id !in db.rows ==>
             db.rows[f.id := Row(FileRow(f.entityType), f.status, f.createdAt)].Keys == db.rows.Keys + {f.id};
  }

  // ─── Superseding one entity ─────────────────────────────────────

  /** Where an attempt breaks off: before the file is written, before its row changes, or after. */
  datatype Fault = NoFault | WriteFails | SyncFails | EventFails

  datatype Outcome = Done | IllegalTransition | Failed

  function MarkSuperseded(f: EntityFile, survivor: string, now: string): EntityFile {
    f.(frontmatter := Put(f.frontmatter, "superseded_by", String(survivor)), status := "superseded", updatedAt := now)
  }

  /** Check the transition, rewrite the file, sync it. */
  function Superseding(db: Db, id: string, survivor: string, now: string, fault: Fault): (Db, Outcome) {
    if id !in db.rows then (db, Failed)
    else if !IsLegal(db.rows[id].status, "superseded") then (db, IllegalTransition)
    else if fault.WriteFails? || id !in db.files then (db, Failed)
    else
      var f := MarkSuperseded(db.files[id], survivor, now);
      var written := db.(files := db.files[id := f]);
      var synced := if fault.SyncFails? then None else SyncFile(written, f);
      if synced.None? then (written, Failed) else (synced.value, Done)
  }

  class Store {
    var rows: map<string, Row>
    var files: map<string, EntityFile>
    var edges: set<Edge>

    constructor (db: Db)
      ensures View() == db
    {
      rows, files, edges := db.rows, db.files, db.edges;
    }

    function View(): Db
      reads this
    {
      Db(rows, files, edges)
    }

    /** `false`: the sync reports an error and changes nothing. */
    method SyncSingleFile(f: EntityFile) returns (ok: bool)
      modifies this
      ensures ok <==> SyncFile(old(View()), f).Some?
      ensures View() == if ok then SyncFile(old(View()), f).value else old(View())
    {
      if f.id in rows {
        if rows[f.id].status != f.status && !IsLegal(rows[f.id].status, f.status) {
          return false;
        }
        rows := rows[f.id := rows[f.id].(status := f.status)];
      } else {
        rows := rows[f.id := Row(FileRow(f.entityType), f.status, f.createdAt)];
      }
      assert f.id in old(rows) ==> rows.Keys == old(rows).Keys;
      edges := AfterSync(rows.Keys, edges, f);
      ok := true;
    }

    method SupersedeEntity(id: string, survivor: string, now: string, fault: Fault) returns (o: Outcome)
      modifies this
      ensures View() == Superseding(old(View()), id, survivor, now, fault).0
      ensures o == Superseding(old(View()), id, survivor, now, fault).1
    {
      hide AfterSync, IsLegal, MarkSuperseded;
      if id !in rows {
        return Failed;
      }
      if !IsLegal(rows[id].status, "superseded") {
        return IllegalTransition;
      }
      if fault.WriteFails? || id !in files {
        return Failed;
      }
      var f := MarkSuperseded(files[id], survivor, now);
      files := files[id := f];
      if fault.SyncFails? {
        return Failed;
      }
      var ok := SyncSingleFile(f);
      o := if ok then Done else Failed;
    }
  }

  // ─── What superseding does ──────────────────────────────────────

  function Links(db: Db, id: string): (r: set<string>)
    ensures forall t :: t in r <==> Edge(id, t, SupersededBy) in db.edges
  {
    set e | e in db.edges && e.source == id && e.kind == SupersededBy :: e.target
  }

  /** Same rows but for statuses. */
  ghost predicate SameRows(a: Db, b: Db) {
    && a.rows.Keys == b.rows.Keys
    && forall id | id in a.rows :: a.rows[id].kind == b.rows[id].kind && a.rows[id].createdAt == b.rows[id].createdAt
  }

  /** Nothing about this entity's row or own edges differs. */
  ghost predicate SameEntity(a: Db, b: Db, id: string) {
    && (id in a.rows <==> id in b.rows)
    && (id in a.rows ==> a.rows[id] == b.rows[id])
    && forall e: Edge | e.source == id :: e in a.edges <==> e in b.edges
  }

  lemma MarkedTargets(f: EntityFile, survivor: string, now: string, kind: EdgeKind)
    ensures Targets(MarkSuperseded(f, survivor, now), kind)
            == if kind == SupersededBy then [survivor] else Targets(f, kind)
  {
    hide Put, Lookup;
    forall key ensures Lookup(Put(f.frontmatter, "superseded_by", String(survivor)), key)
                       == if key == "superseded_by" then Some(String(survivor)) else Lookup(f.frontmatter, key) {
      Parser.LookupAfterPut(f.frontmatter, "superseded_by", String(survivor), key);
    }
  }

  /** An attempt that ends `Done` moves exactly one row to superseded and leaves it exactly one link;
      any other leaves every row and edge as it was. Other entities are never touched. */
  lemma SupersedingEffect(db: Db, id: string, survivor: string, now: string, fault: Fault)
    requires Valid(db)
    ensures var (after, o) := Superseding(db, id, survivor, now, fault);
            && Valid(after) && SameRows(db, after)
            && (forall other | other != id :: SameEntity(db, after, other))
            && (o.Done? ==> id in db.rows && IsLegal(db.rows[id].status, "superseded")
                            && after.rows[id].status == "superseded"
                            && Links(after, id) == if survivor in db.rows then {survivor} else {})
            && (!o.Done? ==> after.rows == db.rows && after.edges == db.edges)
            && (o.IllegalTransition? <==> id in db.rows && !IsLegal(db.rows[id].status, "superseded"))
            && (fault.NoFault? && id in db.rows && id in db.files && !o.IllegalTransition? ==> o.Done?)
  {
    hide IsLegal, Targets, MarkSuperseded;
    if id in db.rows && IsLegal(db.rows[id].status, "superseded") && !fault.WriteFails? && id in db.files {
      var f := MarkSuperseded(db.files[id], survivor, now);
      assert f.id == id && f.status == "superseded" by { MarkedFields(db.files[id], survivor, now); }
      MarkedTargets(db.files[id], survivor, now, SupersededBy);
    }
  }

  lemma MarkedFields(f: EntityFile, survivor: string, now: string)
    ensures MarkSuperseded(f, survivor, now).id == f.id && MarkSuperseded(f, survivor, now).status == "superseded"
  {
  }

  /** What the attempt writes: the file of the superseded entity gets the status, the link and the time, and
      keeps everything else; it is written even where syncing it fails. No other file changes. */
  lemma SupersededFile(db: Db, id: string, survivor: string, now: string, fault: Fault)
    ensures var after := Superseding(db, id, survivor, now, fault).0;
            && after.files.Keys == db.files.Keys
            && (forall other | other in db.files && other != id :: after.files[other] == db.files[other])
            && (id in db.files ==>
                  if id in db.rows && db.rows[id].status in {"active", "stale"} && !fault.WriteFails?
                  then IsMarked(db.files[id], after.files[id], survivor, now)
                  else after.files[id] == db.files[id])
  {
    hide AfterSync, MarkSuperseded;
    if id in db.files {
      MarkedExactly(db.files[id], survivor, now);
    }
    if id in db.rows {
      SupersedingIsFinal(db.rows[id].status);
    }
  }

  ghost predicate IsMarked(before: EntityFile, after: EntityFile, survivor: string, now: string) {
    && after == before.(frontmatter := after.frontmatter, status := "superseded", updatedAt := now)
    && forall key :: Lookup(after.frontmatter, key)
                     == if key == "superseded_by" then Some(String(survivor)) else Lookup(before.frontmatter, key)
  }

  lemma MarkedExactly(f: EntityFile, survivor: string, now: string)
    ensures IsMarked(f, MarkSuperseded(f, survivor, now), survivor, now)
  {
    hide Put, Lookup;
    forall key ensures Lookup(Put(f.frontmatter, "superseded_by", String(survivor)), key)
                       == if key == "superseded_by" then Some(String(survivor)) else Lookup(f.frontmatter, key) {
      Parser.LookupAfterPut(f.frontmatter, "superseded_by", String(survivor), key);
    }
  }

  /** The status lattice: a rejected or superseded entity may only be pruned, an active or stale one become
      anything else but pruned; a pruned or unknown status goes nowhere, and none stays as it is. */
  lemma StatusLattice(current: string, next: string)
    ensures IsLegal(current, next) <==>
            && current in {"active", "stale", "rejected", "superseded"} && current != next
            && next in {"active", "stale", "rejected", "superseded", "pruned"}
            && (next == "pruned" <==> current in {"rejected", "superseded"})
  {
  }

  lemma {:induction false} SubsetSize(a: set<string>, b: set<string>)
    requires a <= b
    ensures |a| <= |b|
  {
    if x :| x in a {
      SubsetSize(a - {x}, b - {x});
    }
  }
}
