/** File-backed edges (src/files/refs.rs) and the reference pass of a sync (src/files/sync.rs). */
module Refs {
  import opened FrontmatterFormat
  import opened EntityFiles

  /** `Structural` stands for the edge types no file declares. */
  datatype EdgeKind = References | Supports | Contradicts | DerivedFrom | SupersededBy | Structural(name: string)

  /** The primary key of an edge row. */
  datatype Edge = Edge(source: string, target: string, kind: EdgeKind)

  // ─── What a file declares ───────────────────────────────────────

  function ArrayField(entries: seq<Entry>, key: string): seq<string> {
    match Lookup(entries, key)
    case Some(Array(items)) => items
    case _ => []
  }

  function SingleField(entries: seq<Entry>, key: string): seq<string> {
    match Lookup(entries, key)
    case Some(String(s)) => [s]
    case _ => []
  }

  function Targets(f: EntityFile, kind: EdgeKind): seq<string> {
    match kind
    case References => f.references
    case Supports => ArrayField(f.frontmatter, "supporting_ids")
    case Contradicts => ArrayField(f.frontmatter, "contradicts")
    case DerivedFrom => SingleField(f.frontmatter, "derived_from")
    case SupersededBy => SingleField(f.frontmatter, "superseded_by")
    case Structural(_) => []
  }

  /** Every target the file declares, whatever the edge type. */
  function DeclaredTargets(f: EntityFile): (r: seq<string>)
    ensures forall t :: t in r <==> exists kind :: t in Targets(f, kind)
  {
    var r := Targets(f, References) + Targets(f, Supports) + Targets(f, Contradicts)
             + Targets(f, DerivedFrom) + Targets(f, SupersededBy);
    assert forall t :: (exists kind :: t in Targets(f, kind)) ==> t in r;
    r
  }

  predicate Declares(f: EntityFile, e: Edge) {
    e.source == f.id && e.target in Targets(f, e.kind)
  }

  /** Both foreign keys hold. */
  predicate Live(entities: set<string>, e: Edge) {
    e.source in entities && e.target in entities
  }

  predicate OwnedBy(e: Edge, f: EntityFile) {
    e.source == f.id && !e.kind.Structural?
  }

  // ─── One file ───────────────────────────────────────────────────

  function Materialized(entities: set<string>, f: EntityFile, kind: EdgeKind): (r: set<Edge>)
    ensures forall e :: e in r <==> e.kind == kind && Declares(f, e) && Live(entities, e)
  {
    set t | t in Targets(f, kind) && t in entities && f.id in entities :: Edge(f.id, t, kind)
  }

  /** The edge table after `sync_references`: the file's own edges are exactly the declared live ones. */
  function AfterSync(entities: set<string>, edges: set<Edge>, f: EntityFile): (r: set<Edge>)
    ensures forall e :: e in r <==> if OwnedBy(e, f) then Declares(f, e) && Live(entities, e) else e in edges
  {
    (set e | e in edges && !OwnedBy(e, f))
    + Materialized(entities, f, References) + Materialized(entities, f, Supports)
    + Materialized(entities, f, Contradicts) + Materialized(entities, f, DerivedFrom)
    + Materialized(entities, f, SupersededBy)
  }

  /** The table already holds what syncing the file would leave. */
  ghost predicate UpToDate(entities: set<string>, edges: set<Edge>, f: EntityFile) {
    forall e | OwnedBy(e, f) :: e in edges <==> Declares(f, e) && Live(entities, e)
  }

  // ─── The tables ─────────────────────────────────────────────────

  class Storage {
    var entities: set<string>
    var edges: set<Edge>

    constructor ()
      ensures entities == {} && edges == {}
    {
      entities, edges := {}, {};
    }

    method DeleteBySourceAndType(source: string, kind: EdgeKind)
      modifies this`edges
      ensures forall e :: e in edges <==> e in old(edges) && !(e.source == source && e.kind == kind)
    {
      edges := set e | e in edges && !(e.source == source && e.kind == kind);
    }

    /** A row whose endpoints do not exist is skipped, as is one already present. */
    method InsertSkipFkViolation(e: Edge)
      modifies this`edges
      ensures edges == old(edges) + (if Live(entities, e) then {e} else {})
    {
      if e.source in entities && e.target in entities {
        edges := edges + {e};
      }
    }

    method InsertEdges(f: EntityFile, kind: EdgeKind)
      modifies this`edges
      ensures edges == old(edges) + Materialized(entities, f, kind)
    {
      hide Targets;
      var targets := Targets(f, kind);
      for i := 0 to |targets|
        invariant forall e :: e in edges <==>
                    (e in old(edges)
                     || (e.source == f.id && e.kind == kind && e.target in targets[..i] && Live(entities, e)))
      {
        InsertSkipFkViolation(Edge(f.id, targets[i], kind));
        assert forall t :: t in targets[..i + 1] <==> t in targets[..i] || t == targets[i];
      }
      assert targets[..|targets|] == targets;
    }

    method SyncReferences(f: EntityFile)
      modifies this`edges
      ensures edges == AfterSync(entities, old(edges), f)
    {
      hide Targets, Declares;
      DeleteBySourceAndType(f.id, References);
      DeleteBySourceAndType(f.id, Supports);
      DeleteBySourceAndType(f.id, Contradicts);
      DeleteBySourceAndType(f.id, DerivedFrom);
      DeleteBySourceAndType(f.id, SupersededBy);
      assert edges == set e | e in old(edges) && !OwnedBy(e, f);
      InsertEdges(f, References);
      InsertEdges(f, Supports);
      InsertEdges(f, Contradicts);
      InsertEdges(f, DerivedFrom);
      InsertEdges(f, SupersededBy);
    }

    /** Edges of the files changed by this sync, and of the files that refer to an entity it created. */
    method ReferencePass(files: seq<EntityFile>, synced: set<string>, created: set<string>)
      modifies this`edges
      ensures edges == AfterPass(entities, old(edges), files, f => IsPicked(f, synced, created))
    {
      hide AfterSync, IsPicked;
      var rest := files;
      while rest != []
        invariant AfterPass(entities, old(edges), files, f => IsPicked(f, synced, created))
                  == AfterPass(entities, edges, rest, f => IsPicked(f, synced, created))
        decreases |rest|
      {
        if IsPicked(rest[0], synced, created) {
          SyncReferences(rest[0]);
        }
        rest := rest[1..];
      }
    }
  }

  // ─── A pass over files ──────────────────────────────────────────

  predicate RefersToNew(f: EntityFile, created: set<string>) {
    exists t | t in DeclaredTargets(f) :: t in created
  }

  predicate IsPicked(f: EntityFile, synced: set<string>, created: set<string>) {
    f.id in synced || RefersToNew(f, created)
  }

  function AfterPass(entities: set<string>, edges: set<Edge>, files: seq<EntityFile>, pick: EntityFile -> bool)
    : set<Edge>
    decreases |files|
  {
    if files == [] then edges
    else AfterPass(entities, if pick(files[0]) then AfterSync(entities, edges, files[0]) else edges, files[1..], pick)
  }

  ghost predicate DistinctIds(files: seq<EntityFile>) {
    forall i, j | 0 <= i < j < |files| :: files[i].id != files[j].id
  }

  /** Edges no file of the list owns are left alone. */
  lemma {:induction false} PassKeepsForeign(entities: set<string>, edges: set<Edge>, files: seq<EntityFile>,
                                            pick: EntityFile -> bool, e: Edge)
    requires forall f | f in files :: !OwnedBy(e, f)
    ensures e in AfterPass(entities, edges, files, pick) <==> e in edges
    decreases |files|
  {
    if files != [] {
      assert files[0] in files;
      PassKeepsForeign(entities, if pick(files[0]) then AfterSync(entities, edges, files[0]) else edges,
                       files[1..], pick, e);
    }
  }

  /** An edge owned by a file is as that file declares, or as it was when the file is not picked. */
  lemma {:induction false} PassSettlesOwned(entities: set<string>, edges: set<Edge>, files: seq<EntityFile>,
                                            pick: EntityFile -> bool, k: nat, e: Edge)
    requires DistinctIds(files) && k < |files| && OwnedBy(e, files[k])
    ensures e in AfterPass(entities, edges, files, pick)
            <==> if pick(files[k]) then Declares(files[k], e) && Live(entities, e) else e in edges
    decreases |files|
  {
    hide Declares, Live;
    var next := if pick(files[0]) then AfterSync(entities, edges, files[0]) else edges;
    if k == 0 {
      PassKeepsForeign(entities, next, files[1..], pick, e);
    } else {
      assert files[0].id != files[k].id;
      PassSettlesOwned(entities, next, files[1..], pick, k - 1, e);
    }
  }

  /** The table a pass over every file leaves depends on no order, and on no earlier edge of those files. */
  lemma FullPassIsExact(entities: set<string>, edges: set<Edge>, files: seq<EntityFile>, e: Edge)
    requires DistinctIds(files)
    ensures e in AfterPass(entities, edges, files, _ => true)
            <==> if exists f | f in files :: OwnedBy(e, f)
                 then Live(entities, e) && exists f | f in files :: Declares(f, e)
                 else e in edges
  {
    hide Live;
    if f :| f in files && OwnedBy(e, f) {
      var k :| 0 <= k < |files| && files[k] == f;
      PassSettlesOwned(entities, edges, files, _ => true, k, e);
      forall g | g in files && Declares(g, e) ensures g == f {
        var j :| 0 <= j < |files| && files[j] == g;
        assert files[j].id == files[k].id;
      }
    } else {
      PassKeepsForeign(entities, edges, files, _ => true, e);
    }
  }

  lemma SyncIsNoOpIff(entities: set<string>, edges: set<Edge>, f: EntityFile)
    ensures AfterSync(entities, edges, f) == edges <==> UpToDate(entities, edges, f)
  {
    hide Declares, Live;
    if AfterSync(entities, edges, f) == edges {
      assert forall e :: e in edges <==> e in AfterSync(entities, edges, f);
    }
  }

  /** Skipping files is safe exactly when every skipped file was up to date. */
  lemma SelectiveEqualsFullIff(entities: set<string>, edges: set<Edge>, files: seq<EntityFile>,
                               pick: EntityFile -> bool)
    requires DistinctIds(files)
    ensures AfterPass(entities, edges, files, pick) == AfterPass(entities, edges, files, _ => true)
            <==> forall f | f in files && !pick(f) :: UpToDate(entities, edges, f)
  {
    hide Declares, Live, AfterPass;
    var some, all := AfterPass(entities, edges, files, pick), AfterPass(entities, edges, files, _ => true);
    forall k, e | 0 <= k < |files| && OwnedBy(e, files[k])
      ensures e in all <==> Declares(files[k], e) && Live(entities, e)
      ensures e in some <==> if pick(files[k]) then Declares(files[k], e) && Live(entities, e) else e in edges
    {
      PassSettlesOwned(entities, edges, files, pick, k, e);
      PassSettlesOwned(entities, edges, files, _ => true, k, e);
    }
    if forall f | f in files && !pick(f) :: UpToDate(entities, edges, f) {
      forall e ensures e in some <==> e in all {
        if k :| 0 <= k < |files| && OwnedBy(e, files[k]) {
          assert files[k] in files;
        } else {
          PassKeepsForeign(entities, edges, files, pick, e);
          PassKeepsForeign(entities, edges, files, _ => true, e);
        }
      }
    }
  }

  /** New rows outdate an unchanged file's edges exactly when it declares one of them. */
  lemma OutdatedIffRefersToNew(before: set<string>, created: set<string>, edges: set<Edge>, f: EntityFile)
    requires before !! created && f.id in before && UpToDate(before, edges, f)
    ensures UpToDate(before + created, edges, f) <==> !RefersToNew(f, created)
  {
    hide Targets;
    if t :| t in DeclaredTargets(f) && t in created {
      var kind :| t in Targets(f, kind);
      assert t !in before;
      NoStructuralTargets(f, kind);
      var e := Edge(f.id, t, kind);
      assert OwnedBy(e, f) && Declares(f, e) && !Live(before, e) && Live(before + created, e);
    } else {
      forall e | OwnedBy(e, f) ensures e in edges <==> Declares(f, e) && Live(before + created, e) {
        if Declares(f, e) {
          assert e.target in DeclaredTargets(f);
        }
      }
    }
  }

  lemma NoStructuralTargets(f: EntityFile, kind: EdgeKind)
    ensures kind.Structural? ==> Targets(f, kind) == []
  {
  }

  /** The reference pass of a sync gives the table that syncing every file would give, and picks among
      the unchanged files only those whose edges it changes. */
  lemma ReferencePassIsComplete(before: set<string>, created: set<string>, synced: set<string>,
                                edges: set<Edge>, files: seq<EntityFile>)
    requires DistinctIds(files) && before !! created && created <= synced
    requires forall f | f in files :: f.id in before + created
    requires forall f | f in files && f.id !in synced :: UpToDate(before, edges, f)
    ensures AfterPass(before + created, edges, files, f => IsPicked(f, synced, created))
            == AfterPass(before + created, edges, files, _ => true)
    ensures forall f | f in files && f.id !in synced ::
              IsPicked(f, synced, created) <==> AfterSync(before + created, edges, f) != edges
  {
    hide UpToDate, RefersToNew, AfterSync, AfterPass, DistinctIds;
    forall f | f in files && f.id !in synced
      ensures UpToDate(before + created, edges, f) <==> !RefersToNew(f, created)
      ensures UpToDate(before + created, edges, f) <==> AfterSync(before + created, edges, f) == edges
    {
      OutdatedIffRefersToNew(before, created, edges, f);
      SyncIsNoOpIff(before + created, edges, f);
    }
    SelectiveEqualsFullIff(before + created, edges, files, f => IsPicked(f, synced, created));
  }

  // ─── Exact tables ───────────────────────────────────────────────

  /** File-backed edges are the declared ones with both ends present. */
  ghost predicate IsExact(entities: set<string>, edges: set<Edge>, files: seq<EntityFile>) {
    forall e: Edge | !e.kind.Structural? ::
      e in edges <==> Live(entities, e) && exists f | f in files :: Declares(f, e)
  }

  lemma ExactIsUpToDate(entities: set<string>, edges: set<Edge>, files: seq<EntityFile>, f: EntityFile)
    requires DistinctIds(files) && IsExact(entities, edges, files) && f in files
    ensures UpToDate(entities, edges, f)
  {
    hide Targets, Live;
    forall e | OwnedBy(e, f) ensures e in edges <==> Declares(f, e) && Live(entities, e) {
      forall g | g in files && Declares(g, e) ensures g == f {
        var j, k :| 0 <= j < |files| && files[j] == g && 0 <= k < |files| && files[k] == f;
        assert files[j].id == files[k].id;
      }
    }
  }

  /** From an exact table, adding one entity, its file's edges and those of the files that mention it
      leaves an exact table, the one re-syncing every file leaves, with structural edges untouched. */
  lemma AddingOneEntityStaysExact(entities: set<string>, edges: set<Edge>, files: seq<EntityFile>, added: EntityFile)
    requires IsExact(entities, edges, files) && DistinctIds(files + [added])
    requires added.id !in entities && forall f | f in files :: f.id in entities
    ensures var pick := (f: EntityFile) => IsPicked(f, {added.id}, {added.id});
            var after := AfterPass(entities + {added.id}, edges, files + [added], pick);
            && after == AfterPass(entities + {added.id}, edges, files + [added], _ => true)
            && IsExact(entities + {added.id}, after, files + [added])
            && forall e: Edge | e.kind.Structural? :: e in after <==> e in edges
  {
    hide AfterPass, Live, IsPicked, UpToDate, Targets;
    var all, now := files + [added], entities + {added.id};
    assert DistinctIds(files) by { forall i, j | 0 <= i < j < |files| ensures files[i].id != files[j].id {
      assert all[i].id != all[j].id; } }
    forall f | f in all && f.id !in {added.id} ensures UpToDate(entities, edges, f) {
      ExactIsUpToDate(entities, edges, files, f);
    }
    ReferencePassIsComplete(entities, {added.id}, {added.id}, edges, all);
    forall e: Edge
      ensures e in AfterPass(now, edges, all, _ => true) <==>
              if e.kind.Structural? then e in edges else Live(now, e) && exists f | f in all :: Declares(f, e)
    {
      FullPassIsExact(now, edges, all, e);
      if !e.kind.Structural? {
        UnownedIsAbsent(entities, edges, files, added, e);
      }
    }
  }

  lemma UnownedIsAbsent(entities: set<string>, edges: set<Edge>, files: seq<EntityFile>, added: EntityFile, e: Edge)
    requires IsExact(entities, edges, files) && !e.kind.Structural?
    ensures (forall f | f in files + [added] :: !OwnedBy(e, f)) ==>
              e !in edges && forall f | f in files + [added] :: !Declares(f, e)
  {
    hide Targets, Live;
    if forall f | f in files + [added] :: !OwnedBy(e, f) {
      assert forall f | f in files :: f in files + [added];
    }
  }

  /** Which edges of a file a sync leaves: one to each target that is there and that the file lists under the field
      of that edge type. */
  lemma ListedTargetsHaveEdges(entities: set<string>, edges: set<Edge>, f: EntityFile, t: string)
    ensures var after := AfterSync(entities, edges, f);
            var live := f.id in entities && t in entities;
            && (Edge(f.id, t, References) in after <==> live && t in f.references)
            && (Edge(f.id, t, Supports) in after <==> live && IsListed(f, "supporting_ids", t))
            && (Edge(f.id, t, Contradicts) in after <==> live && IsListed(f, "contradicts", t))
            && (Edge(f.id, t, DerivedFrom) in after <==>
                  live && Lookup(f.frontmatter, "derived_from") == Some(String(t)))
            && (Edge(f.id, t, SupersededBy) in after <==>
                  live && Lookup(f.frontmatter, "superseded_by") == Some(String(t)))
  {
    hide Lookup, AfterSync, Targets;
    TargetHasEdge(entities, edges, f, t, References);
    TargetHasEdge(entities, edges, f, t, Supports);
    TargetHasEdge(entities, edges, f, t, Contradicts);
    TargetHasEdge(entities, edges, f, t, DerivedFrom);
    TargetHasEdge(entities, edges, f, t, SupersededBy);
    SpellTargets(f, t);
  }

  lemma TargetHasEdge(entities: set<string>, edges: set<Edge>, f: EntityFile, t: string, kind: EdgeKind)
    requires !kind.Structural?
    ensures Edge(f.id, t, kind) in AfterSync(entities, edges, f)
            <==> t in Targets(f, kind) && f.id in entities && t in entities
  {
    hide Targets;
    assert OwnedBy(Edge(f.id, t, kind), f);
  }

  lemma SpellTargets(f: EntityFile, t: string)
    ensures t in Targets(f, References) <==> t in f.references
    ensures t in Targets(f, Supports) <==> IsListed(f, "supporting_ids", t)
    ensures t in Targets(f, Contradicts) <==> IsListed(f, "contradicts", t)
    ensures t in Targets(f, DerivedFrom) <==> Lookup(f.frontmatter, "derived_from") == Some(String(t))
    ensures t in Targets(f, SupersededBy) <==> Lookup(f.frontmatter, "superseded_by") == Some(String(t))
  {
    hide Lookup;
  }

  ghost predicate IsListed(f: EntityFile, field: string, t: string) {
    exists items | Lookup(f.frontmatter, field) == Some(Array(items)) :: t in items
  }
}
