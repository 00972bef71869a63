/** In which order a merge run takes its pairs, and what it reports of them (src/consolidate/merge.rs). */
module MergeOrder {
  import opened FrontmatterFormat
  import opened Refs
  import opened ConsolidationState
  import opened Merge
  import opened MergeLaws

  // ─── The order of candidates ────────────────────────────────────

  /** An observation and one of its neighbours, as the scan comes to them. */
  datatype Visit = Visit(scanned: Observation, neighbor: Neighbor)

  /** Observation by observation, nearest neighbour first. */
  function Visits(rest: seq<Observation>, world: World): seq<Visit> {
    if rest == [] then []
    else
      var a := rest[0];
      var ns := if world.embedded(a.id) && world.nearest(a.id).Some? then world.nearest(a.id).value else [];
      seq(|ns|, i requires 0 <= i < |ns| => Visit(a, ns[i])) + Visits(rest[1..], world)
  }

  ghost predicate Discovers(observations: seq<Observation>, v: Visit, p: Pair) {
    && v.neighbor.similar && v.neighbor.id != v.scanned.id
    && exists b | b in observations && b.id == v.neighbor.id :: Orients(p, v.scanned, b)
  }

  /** Some visit discovers `p` before any discovers `q`. */
  ghost predicate IsFoundFirst(observations: seq<Observation>, vs: seq<Visit>, p: Pair, q: Pair) {
    exists t | 0 <= t < |vs| && Discovers(observations, vs[t], p) ::
      forall u | 0 <= u <= t :: !Discovers(observations, vs[u], q)
  }

  function VisitHits(observations: seq<Observation>, vs: seq<Visit>): seq<Pair> {
    if vs == [] then [] else Hit(observations, vs[0].scanned, vs[0].neighbor) + VisitHits(observations, vs[1..])
  }

  lemma {:induction false} VisitHitsConcat(observations: seq<Observation>, a: seq<Visit>, b: seq<Visit>)
    ensures VisitHits(observations, a + b) == VisitHits(observations, a) + VisitHits(observations, b)
  {
    hide Hit;
    if a == [] {
      assert a + b == b;
    } else {
      assert (a + b)[1..] == a[1..] + b;
      VisitHitsConcat(observations, a[1..], b);
    }
  }

  lemma {:induction false} HitsOfVisits(observations: seq<Observation>, a: Observation, ns: seq<Neighbor>)
    ensures Hits(observations, a, ns)
            == VisitHits(observations, seq(|ns|, i requires 0 <= i < |ns| => Visit(a, ns[i])))
  {
    hide Hit;
    if ns != [] {
      var vs := seq(|ns|, i requires 0 <= i < |ns| => Visit(a, ns[i]));
      HitsOfVisits(observations, a, ns[1..]);
      assert vs[1..] == seq(|ns[1..]|, i requires 0 <= i < |ns[1..]| => Visit(a, ns[1..][i]));
    }
  }

  lemma {:induction false} AllHitsOfVisits(observations: seq<Observation>, rest: seq<Observation>, world: World)
    ensures AllHits(observations, rest, world) == VisitHits(observations, Visits(rest, world))
    decreases |rest|
  {
    hide Hits, VisitHits;
    if rest == [] {
      NoVisits(observations);
    } else {
      var a := rest[0];
      var ns := if world.embedded(a.id) && world.nearest(a.id).Some? then world.nearest(a.id).value else [];
      AllHitsOfVisits(observations, rest[1..], world);
      HitsOfVisits(observations, a, ns);
      VisitHitsConcat(observations, seq(|ns|, i requires 0 <= i < |ns| => Visit(a, ns[i])), Visits(rest[1..], world));
    }
  }

  lemma NoVisits(observations: seq<Observation>)
    ensures VisitHits(observations, []) == []
  {
  }

  lemma DiscoversExactly(db: Db, observations: seq<Observation>, v: Visit, p: Pair)
    requires IsBatch(db, observations)
    ensures Discovers(observations, v, p) <==> p in Hit(observations, v.scanned, v.neighbor)
  {
    hide FindObservation, Orient, Orients;
    FindExact(observations, v.neighbor.id);
    forall b ensures p == Orient(v.scanned, b) <==> Orients(p, v.scanned, b) { OrientExactly(p, v.scanned, b); }
    forall b | b in observations && b.id == v.neighbor.id
      ensures FindObservation(observations, v.neighbor.id) == Some(b)
    {
      FindUnique(observations, b);
    }
  }

  /** Of two selected pairs the earlier one was visited before the later one was. */
  lemma {:induction false} SelectedInOrder(observations: seq<Observation>, vs: seq<Visit>, seen: set<Pair>,
                                           world: World, i: nat, j: nat)
    returns (t: nat)
    requires i < j < |Selected(VisitHits(observations, vs), seen, world)|
    ensures var chosen := Selected(VisitHits(observations, vs), seen, world);
            && t < |vs| && chosen[i] in Hit(observations, vs[t].scanned, vs[t].neighbor)
            && forall u | 0 <= u <= t :: chosen[j] !in Hit(observations, vs[u].scanned, vs[u].neighbor)
    decreases |vs|
  {
    hide Hit, IsConfirmed, Selected, VisitHits;
    VisitStep(observations, vs, seen, world);
    var first := Hit(observations, vs[0].scanned, vs[0].neighbor);
    var next := if first == [] then seen else seen + {first[0]};
    var later := VisitHits(observations, vs[1..]);
    var skip := if first != [] && first[0] !in seen && IsConfirmed(world, first[0]) then 1 else 0;
    SelectedExact(VisitHits(observations, vs), seen, world, Selected(VisitHits(observations, vs), seen, world)[j]);
    SelectedExact(later, next, world, Selected(later, next, world)[j - skip]);
    if i < skip {
      t := 0;
    } else {
      var m := SelectedInOrder(observations, vs[1..], next, world, i - skip, j - skip);
      t := m + 1;
    }
  }

  lemma VisitStep(observations: seq<Observation>, vs: seq<Visit>, seen: set<Pair>, world: World)
    ensures vs == [] ==> Selected(VisitHits(observations, vs), seen, world) == []
    ensures vs != [] ==>
              var first := Hit(observations, vs[0].scanned, vs[0].neighbor);
              var later := VisitHits(observations, vs[1..]);
              && |first| <= 1
              && Selected(VisitHits(observations, vs), seen, world)
                 == (if first != [] && first[0] !in seen && IsConfirmed(world, first[0]) then first else [])
                    + Selected(later, if first == [] then seen else seen + {first[0]}, world)
  {
    hide Hit, IsConfirmed, Selected;
    if vs == [] {
      NothingSelected(seen, world);
    } else {
      var first := Hit(observations, vs[0].scanned, vs[0].neighbor);
      var later := VisitHits(observations, vs[1..]);
      AtMostOneHit(observations, vs[0].scanned, vs[0].neighbor);
      if first == [] {
        assert first + later == later;
      } else {
        assert first == [first[0]];
        SelectedHead(first[0], later, seen, world);
        assert first[0] in seen ==> seen + {first[0]} == seen;
      }
    }
  }

  lemma NothingSelected(seen: set<Pair>, world: World)
    ensures Selected([], seen, world) == []
  {
  }

  lemma SelectedHead(p: Pair, later: seq<Pair>, seen: set<Pair>, world: World)
    ensures Selected([p] + later, seen, world)
            == if p in seen then Selected(later, seen, world)
               else (if IsConfirmed(world, p) then [p] else []) + Selected(later, seen + {p}, world)
  {
    hide IsConfirmed;
    assert ([p] + later)[1..] == later;
  }

  /** Candidates come in the order of the scan that discovers them: which decides who wins. */
  lemma CandidatesInScanOrder(db: Db, observations: seq<Observation>, world: World, i: nat, j: nat)
    requires IsBatch(db, observations) && i < j < |Candidates(observations, world)|
    ensures var chosen := Candidates(observations, world);
            IsFoundFirst(observations, Visits(observations, world), chosen[i], chosen[j])
  {
    hide Visits, Selected, Hit, Discovers, IsBatch, AllHits;
    var chosen, vs := Candidates(observations, world), Visits(observations, world);
    AllHitsOfVisits(observations, observations, world);
    var t := SelectedInOrder(observations, vs, {}, world, i, j);
    DiscoversExactly(db, observations, vs[t], chosen[i]);
    assert Discovers(observations, vs[t], chosen[i]);
    forall u | 0 <= u <= t ensures !Discovers(observations, vs[u], chosen[j]) {
      DiscoversExactly(db, observations, vs[u], chosen[j]);
    }
    assert IsFoundFirst(observations, vs, chosen[i], chosen[j]);
  }

  // ─── What is reported ───────────────────────────────────────────

  ghost predicate HasSuperseded(pairs: seq<Pair>, id: string) {
    exists p | p in pairs :: p.superseded == id
  }

  lemma HasSupersededHead(p: Pair, rest: seq<Pair>, id: string)
    ensures HasSuperseded([p] + rest, id) <==> p.superseded == id || HasSuperseded(rest, id)
    ensures [] + rest == rest
  {
    if HasSuperseded(rest, id) {
      var q :| q in rest && q.superseded == id;
      assert q in [p] + rest;
    }
    assert p in [p] + rest;
  }

  lemma DoneIsSuperseded(db: Db, p: Pair, now: string, fault: Fault, id: string)
    requires Valid(db) && id in db.rows && !fault.EventFails?
    ensures var (next, o) := MergeOne(db, p, now, fault);
            && Valid(next) && id in next.rows
            && (o.Done? && p.superseded == id ==>
                  && db.rows[id].status != "superseded" && next.rows[id].status == "superseded"
                  && Links(next, id) == if p.survivor in db.rows then {p.survivor} else {})
            && (!(o.Done? && p.superseded == id) ==> next.rows[id] == db.rows[id])
  {
    hide Superseding, IsLegal, Links;
    SupersedingEffect(db, p.superseded, p.survivor, now, fault);
    SupersedingIsFinal("superseded");
    var next := Superseding(db, p.superseded, p.survivor, now, fault).0;
    assert p.superseded != id ==> SameEntity(db, next, id);
  }

  /** When recording events does not fail, the report is complete and true: an entity became superseded in the
      run exactly when a reported pair says so, and its one link is to that pair's survivor. */
  lemma {:induction false} ReportedExactly(db: Db, pairs: seq<Pair>, world: World, id: string)
    requires Valid(db) && id in db.rows
    requires forall p | p in pairs :: !world.fault(p).EventFails? && p.survivor in db.rows
    ensures var (after, merged) := MergeAll(db, pairs, world);
            && id in after.rows
            && (HasSuperseded(merged, id) <==>
                  db.rows[id].status != "superseded" && after.rows[id].status == "superseded")
            && (HasSuperseded(merged, id) ==>
                  exists p | p in merged && p.superseded == id :: Links(after, id) == {p.survivor})
            && (!HasSuperseded(merged, id) ==> after.rows[id] == db.rows[id])
    decreases |pairs|
  {
    hide MergeOne, Links, HasSuperseded;
    if pairs == [] {
      NothingSuperseded(id);
    } else {
      var p := pairs[0];
      assert p in pairs && forall q | q in pairs[1..] :: q in pairs;
      var (next, o) := MergeOne(db, p, world.now, world.fault(p));
      DoneIsSuperseded(db, p, world.now, world.fault(p), id);
      MergeOneEffect(db, p, world.now, world.fault(p));
      SameRowsKeepKeys(db, next);
      ReportedExactly(next, pairs[1..], world, id);
      var (after, merged) := MergeAll(next, pairs[1..], world);
      HasSupersededHead(p, merged, id);
      if o.Done? && p.superseded == id {
        SupersededIsFrozen(next, pairs[1..], world, id);
        SameEntitySameLinks(next, after, id);
        assert p in [p] + merged;
      } else if HasSuperseded(merged, id) {
        var q :| q in merged && q.superseded == id && Links(after, id) == {q.survivor};
        assert q in [p] + merged;
      }
    }
  }

  /** A merge whose event was not recorded is not reported, although it happened. */
  lemma {:induction false} ReportedAreRecorded(db: Db, pairs: seq<Pair>, world: World)
    ensures forall p | p in MergeAll(db, pairs, world).1 :: p in pairs && !world.fault(p).EventFails?
    decreases |pairs|
  {
    hide Superseding;
    if pairs != [] {
      var next := MergeOne(db, pairs[0], world.now, world.fault(pairs[0])).0;
      ReportedAreRecorded(next, pairs[1..], world);
    }
  }

  lemma NothingSuperseded(id: string)
    ensures !HasSuperseded([], id)
  {
  }
}
