/** The same merge and repair for TOML tables (src/configure/mod.rs, src/configure/apply.rs), where
    existing leaves are never overwritten. */
module TomlMerge {
  import opened Text
  import opened CommandKeys
  import opened CommandKeyLaws
  import opened CommandNames

  datatype TomlValue = TString(s: string) | TArray(items: seq<TomlValue>) | TOther(repr: string)

  /** A table item. `Leaf` covers every inline value; its formatting is not modelled. The elements of an
      array of tables are tables. */
  datatype Item = Missing | Leaf(v: TomlValue) | Table(t: map<string, Item>) | Tables(ts: seq<Item>)

  type Fields = map<string, Item>

  predicate IsCogzServerTable(t: Fields) {
    && "command" in t && t["command"].Leaf? && t["command"].v.TString?
    && var cmd := t["command"].v.s;
    && Argv0Base(SplitArgv0(cmd).0) == "cogz"
    && (|| Contains(cmd, "mcp-stdio")
        || ("args" in t && t["args"].Leaf? && t["args"].v.TArray? && TString("mcp-stdio") in t["args"].v.items))
  }

  /** What an existing item becomes when the patch holds `patch` under the same key. */
  function MergeItem(existing: Item, patch: Item): Item
    decreases patch
  {
    match existing
    case Table(bt) =>
      if !patch.Table? || (IsCogzServerTable(bt) && IsCogzServerTable(patch.t)) then existing
      else
        var pt := patch.t;
        Table(map k | k in bt.Keys + pt.Keys ::
                if k !in pt then bt[k] else if k !in bt then pt[k] else MergeItem(bt[k], pt[k]))
    case Missing => patch
    case _ => existing
  }

  /** `merge_toml_doc` on whole tables. */
  function MergeTables(base: Fields, patch: Fields): Fields {
    MergeItem(Table(base), Table(patch)).t
  }

  function UpgradeLeaf(i: Item, bin: string): Item {
    if i.Leaf? && i.v.TString? then Leaf(TString(Rewrite(i.v.s, bin))) else i
  }

  function UpgradeItem(i: Item, bin: string): Item
    decreases i
  {
    match i
    case Table(t) => Table(map k | k in t :: if k == "command" then UpgradeLeaf(t[k], bin) else UpgradeItem(t[k], bin))
    case Tables(ts) => Tables(seq(|ts|, n requires 0 <= n < |ts| => UpgradeItem(ts[n], bin)))
    case _ => i
  }

  /** One configure run on a file: merge, then repair. */
  function Configure(base: Fields, patch: Fields, bin: string): Fields {
    UpgradeItem(Table(MergeTables(base, patch)), bin).t
  }

  // ─── In-place forms ─────────────────────────────────────────────

  method MergeTomlDoc(base: Fields, patch: Fields) returns (merged: Fields)
    ensures merged == MergeTables(base, patch)
    decreases Table(patch)
  {
    if IsCogzServerTable(base) && IsCogzServerTable(patch) {
      return base;
    }
    merged := base;
    var todo := patch.Keys;
    while todo != {}
      invariant todo <= patch.Keys
      invariant merged.Keys == base.Keys + (patch.Keys - todo)
      invariant forall k | k in merged ::
        merged[k] == if k !in patch || k in todo then base[k]
                     else if k !in base then patch[k] else MergeItem(base[k], patch[k])
    {
      var k :| k in todo;
      if k !in merged || merged[k].Missing? {
        merged := merged[k := patch[k]];
      } else if merged[k].Table? && patch[k].Table? {
        var t := MergeTomlDoc(merged[k].t, patch[k].t);
        merged := merged[k := Table(t)];
      }
      todo := todo - {k};
    }
  }

  method UpgradeToml(table: Fields, bin: string) returns (upgraded: Fields)
    ensures Table(upgraded) == UpgradeItem(Table(table), bin)
    decreases Table(table), 1
  {
    upgraded := table;
    var todo := table.Keys;
    while todo != {}
      invariant todo <= table.Keys == upgraded.Keys
      invariant forall k | k in table ::
        upgraded[k] == if k in todo then table[k]
                       else if k == "command" then UpgradeLeaf(table[k], bin) else UpgradeItem(table[k], bin)
    {
      var k :| k in todo;
      if k == "command" {
        upgraded := upgraded[k := UpgradeLeaf(table[k], bin)];
      } else {
        var item := UpgradeTomlItem(table[k], bin);
        upgraded := upgraded[k := item];
      }
      todo := todo - {k};
    }
  }

  method UpgradeTomlItem(i: Item, bin: string) returns (upgraded: Item)
    ensures upgraded == UpgradeItem(i, bin)
    decreases i, 2
  {
    match i {
      case Table(t) =>
        var table := UpgradeToml(t, bin);
        upgraded := Table(table);
      case Tables(ts) =>
        var done := [];
        for n := 0 to |ts|
          invariant |done| == n && forall m | 0 <= m < n :: done[m] == UpgradeItem(ts[m], bin)
        {
          var item := UpgradeTomlItem(ts[n], bin);
          done := done + [item];
        }
        upgraded := Tables(done);
      case _ =>
        upgraded := i;
    }
  }

  // ─── When a patch is installed ──────────────────────────────────

  ghost predicate Settled(patch: Item, m: Item)
    decreases patch
  {
    match (patch, m)
    case (Table(p), Table(t)) =>
      || (IsCogzServerTable(t) && IsCogzServerTable(p))
      || forall k | k in p :: k in t && Settled(p[k], t[k])
    case (_, Missing) => patch.Missing?
    case _ => true
  }

  lemma {:induction false} SettledInItself(i: Item)
    ensures Settled(i, i)
    decreases i
  {
    hide IsCogzServerTable;
    if i.Table? {
      forall k | k in i.t ensures Settled(i.t[k], i.t[k]) { SettledInItself(i.t[k]); }
    }
  }

  lemma {:induction false} MergeSettles(base: Item, patch: Item)
    ensures Settled(patch, MergeItem(base, patch))
    decreases patch
  {
    hide IsCogzServerTable;
    if base.Missing? {
      SettledInItself(patch);
    } else if base.Table? && patch.Table? && !(IsCogzServerTable(base.t) && IsCogzServerTable(patch.t)) {
      var m := MergeItem(base, patch).t;
      forall k | k in patch.t ensures k in m && Settled(patch.t[k], m[k]) {
        if k in base.t { MergeSettles(base.t[k], patch.t[k]); } else { SettledInItself(patch.t[k]); }
      }
    }
  }

  lemma {:induction false} MergeIsNoOpIfSettled(m: Item, patch: Item)
    requires Settled(patch, m)
    ensures MergeItem(m, patch) == m
    decreases patch
  {
    hide IsCogzServerTable;
    if m.Table? && patch.Table? && !(IsCogzServerTable(m.t) && IsCogzServerTable(patch.t)) {
      forall k | k in patch.t ensures MergeItem(m.t[k], patch.t[k]) == m.t[k] {
        MergeIsNoOpIfSettled(m.t[k], patch.t[k]);
      }
      assert MergeItem(m, patch).t == m.t;
    }
  }

  /** Merging alone never has more to do the second time. */
  lemma MergeIsIdempotent(base: Fields, patch: Fields)
    ensures MergeTables(MergeTables(base, patch), patch) == MergeTables(base, patch)
  {
    MergeSettles(Table(base), Table(patch));
    MergeIsNoOpIfSettled(MergeItem(Table(base), Table(patch)), Table(patch));
  }

  /** Reading a path of keys down nested tables. */
  function At(i: Item, path: seq<string>): Item {
    if path == [] then i
    else if i.Table? && path[0] in i.t then At(i.t[path[0]], path[1..])
    else Missing
  }

  /** A leaf, at any depth, is exactly what it was before the merge. */
  lemma {:induction false} MergeKeepsLeaves(base: Item, patch: Item, path: seq<string>)
    requires At(base, path).Leaf? || At(base, path).Tables?
    ensures At(MergeItem(base, patch), path) == At(base, path)
    decreases path
  {
    hide IsCogzServerTable;
    if path != [] && patch.Table? && path[0] in patch.t {
      MergeKeepsLeaves(base.t[path[0]], patch.t[path[0]], path[1..]);
    }
  }

  /** A wired server is untouched when the patch is one too. Otherwise every key of either side is there: a
      key of one side alone has that side's item, down to the last leaf; under a key of both, what the base
      has stays, tables are merged again, and only an empty place takes the patch's item. */
  ghost predicate Kept(base: Item, patch: Item, m: Item)
    decreases patch
  {
    match (base, patch)
    case (Missing, _) => m == patch
    case (Table(b), Table(p)) =>
      if IsCogzServerTable(b) && IsCogzServerTable(p) then m == base
      else
        && m.Table? && m.t.Keys == b.Keys + p.Keys
        && (forall k | k in b && k !in p :: m.t[k] == b[k])
        && (forall k | k in p && k !in b :: m.t[k] == p[k])
        && (forall k | k in b && k in p :: Kept(b[k], p[k], m.t[k]))
    case _ => m == base
  }

  lemma {:induction false} MergeKeepsBase(base: Item, patch: Item)
    ensures Kept(base, patch, MergeItem(base, patch))
    decreases patch
  {
    hide IsCogzServerTable;
    if base.Table? && patch.Table? && !(IsCogzServerTable(base.t) && IsCogzServerTable(patch.t)) {
      var m := MergeItem(base, patch).t;
      forall k | k in base.t && k in patch.t ensures Kept(base.t[k], patch.t[k], m[k]) {
        MergeKeepsBase(base.t[k], patch.t[k]);
      }
    }
  }

  /** An empty config becomes the patch. */
  lemma MergeIntoNothing(patch: Fields)
    ensures MergeTables(map[], patch) == patch
  {
  }

  // ─── Main result ────────────────────────────────────────────────

  lemma UpgradeKeepsServerTable(t: Fields, bin: string)
    requires NameSurvives(bin) && IsCogzServerTable(t)
    ensures IsCogzServerTable(UpgradeItem(Table(t), bin).t)
  {
    hide Contains, Argv0Base, SplitArgv0, Rewrite;
    var cmd := t["command"].v.s;
    assert CommandNamesCogz(Rewrite(cmd, bin));
    RewriteKeepsNeedle(cmd, bin);
  }

  /** Somewhere in the item a wired server is described. */
  predicate HasServer(i: Item) {
    i.Table? && (IsCogzServerTable(i.t) || exists k | k in i.t :: HasServer(i.t[k]))
  }

  lemma {:induction false} UpgradeKeepsSettled(patch: Item, m: Item, bin: string)
    requires (HasServer(patch) ==> NameSurvives(bin)) && Settled(patch, m)
    ensures Settled(patch, UpgradeItem(m, bin))
    decreases patch
  {
    hide IsCogzServerTable, NameSurvives;
    if m.Table? && patch.Table? {
      if IsCogzServerTable(m.t) && IsCogzServerTable(patch.t) {
        UpgradeKeepsServerTable(m.t, bin);
      } else {
        var g := UpgradeItem(m, bin).t;
        forall k | k in patch.t ensures k in g && Settled(patch.t[k], g[k]) {
          if k == "command" {
            UpgradeLeafSettled(patch.t[k], m.t[k], bin);
          } else {
            UpgradeKeepsSettled(patch.t[k], m.t[k], bin);
          }
        }
      }
    }
  }

  lemma UpgradeLeafSettled(patch: Item, m: Item, bin: string)
    requires Settled(patch, m)
    ensures Settled(patch, UpgradeLeaf(m, bin))
  {
  }

  lemma {:induction false} UpgradeItemSettles(i: Item, bin: string)
    requires RewriteSettles(bin)
    ensures UpgradeItem(UpgradeItem(i, bin), bin) == UpgradeItem(i, bin)
    decreases i
  {
    hide Rewrite;
    match i
    case Table(t) =>
      var g := UpgradeItem(i, bin).t;
      var h := UpgradeItem(Table(g), bin).t;
      forall k | k in t ensures h[k] == g[k] {
        if k == "command" {
          if t[k].Leaf? && t[k].v.TString? { assert Rewrite(Rewrite(t[k].v.s, bin), bin) == Rewrite(t[k].v.s, bin); }
        } else {
          UpgradeItemSettles(t[k], bin);
        }
      }
      assert h == g;
    case Tables(ts) =>
      var g := UpgradeItem(i, bin).ts;
      forall n | 0 <= n < |ts| ensures UpgradeItem(g[n], bin) == g[n] { UpgradeItemSettles(ts[n], bin); }
      assert UpgradeItem(Tables(g), bin).ts == g;
    case _ =>
  }

  ghost predicate RerunIsNoOp(bin: string) {
    forall base, patch :: Configure(Configure(base, patch, bin), patch, bin) == Configure(base, patch, bin)
  }

  function OneCommand(cmd: string): Fields {
    map["command" := Leaf(TString(cmd))]
  }

  lemma RerunRewrites(s: string, bin: string)
    requires RerunIsNoOp(bin)
    ensures Rewrite(Rewrite(s, bin), bin) == Rewrite(s, bin)
  {
    hide Rewrite, IsCogzServerTable;
    var none: Fields := map[];
    assert MergeTables(OneCommand(s), none) == OneCommand(s);
    var r := Rewrite(s, bin);
    assert UpgradeItem(Table(OneCommand(s)), bin).t == OneCommand(r);
    assert MergeTables(OneCommand(r), none) == OneCommand(r);
    assert UpgradeItem(Table(OneCommand(r)), bin).t == OneCommand(Rewrite(r, bin));
    assert Configure(Configure(OneCommand(s), none, bin), none, bin) == Configure(OneCommand(s), none, bin);
    assert OneCommand(Rewrite(r, bin))["command"] == OneCommand(r)["command"];
  }

  function Server(cmd: string): Fields {
    map["command" := Leaf(TString(cmd)), "args" := Leaf(TArray([TString("mcp-stdio")]))]
  }

  function ServerPatch(cmd: string): Fields {
    Server(cmd)["env" := Leaf(TOther(""))]
  }

  lemma ServerIsRecognised(cmd: string)
    ensures IsCogzServerTable(Server(cmd)) <==> CommandNamesCogz(cmd)
    ensures IsCogzServerTable(ServerPatch(cmd)) <==> CommandNamesCogz(cmd)
  {
    hide Contains, Argv0Base, SplitArgv0;
    assert TString("mcp-stdio") in [TString("mcp-stdio")];
  }

  /** A wired server next to a patch with one more key: the second run adds the key unless the rewritten
      command is still recognised. */
  lemma RerunKeepsName(s: string, bin: string)
    requires RerunIsNoOp(bin) && CommandNamesCogz(s)
    ensures CommandNamesCogz(Rewrite(s, bin))
  {
    hide Rewrite, IsCogzServerTable, CommandNamesCogz;
    ServerIsRecognised(s);
    var r := Rewrite(s, bin);
    assert MergeTables(Server(s), ServerPatch(s)) == Server(s);
    assert UpgradeItem(Table(Server(s)), bin).t == Server(r);
    assert Configure(Server(s), ServerPatch(s), bin) == Server(r);
    ServerIsRecognised(r);
    assert Configure(Server(r), ServerPatch(s), bin) == Server(r);
    assert "env" !in Server(r);
    assert !IsCogzServerTable(Server(r)) ==> "env" in MergeTables(Server(r), ServerPatch(s));
    assert !IsCogzServerTable(Server(r)) ==> "env" in Configure(Server(r), ServerPatch(s), bin);
  }

  /** Re-running on a TOML config is a no-op, for every config and patch, exactly when the binary is
      still recognised once written in and is not itself a bare-cogz command line. */
  lemma RerunIsNoOpExactly(bin: string)
    ensures RerunIsNoOp(bin) <==> Recognised(bin) && !("cogz " <= bin)
  {
    NameSurvivesIffRecognised(bin);
    RewriteSettlesExactly(bin);
    if RerunIsNoOp(bin) {
      forall s ensures Rewrite(Rewrite(s, bin), bin) == Rewrite(s, bin) { RerunRewrites(s, bin); }
      forall s | CommandNamesCogz(s) ensures CommandNamesCogz(Rewrite(s, bin)) { RerunKeepsName(s, bin); }
    }
    if NameSurvives(bin) && RewriteSettles(bin) {
      forall base, patch
        ensures Configure(Configure(base, patch, bin), patch, bin) == Configure(base, patch, bin)
      {
        NoOpWhenKept(base, patch, bin);
      }
    }
  }

  lemma NoOpWhenKept(base: Fields, patch: Fields, bin: string)
    requires (HasServer(Table(patch)) ==> NameSurvives(bin)) && RewriteSettles(bin)
    ensures Configure(Configure(base, patch, bin), patch, bin) == Configure(base, patch, bin)
  {
    hide NameSurvives, RewriteSettles, IsCogzServerTable;
    var m := MergeItem(Table(base), Table(patch));
    MergeSettles(Table(base), Table(patch));
    UpgradeKeepsSettled(Table(patch), m, bin);
    MergeIsNoOpIfSettled(UpgradeItem(m, bin), Table(patch));
    UpgradeItemSettles(m, bin);
  }

  // ─── The generated patch ────────────────────────────────────────

  /** The server entry written for a harness configured in TOML. */
  function ServerEntry(bin: string): Fields {
    Server(bin)
  }

  function ServersPatch(bin: string): Fields {
    map["mcp_servers" := Table(map["cogz" := Table(ServerEntry(bin))])]
  }

  ghost predicate RerunsWith(patch: Fields, bin: string) {
    forall base :: Configure(Configure(base, patch, bin), patch, bin) == Configure(base, patch, bin)
  }

  /** A run on an empty config writes the generated servers, word for word. */
  lemma FreshConfig(bin: string)
    requires !("cogz " <= bin)
    ensures Configure(map[], ServersPatch(bin), bin) == ServersPatch(bin)
  {
    hide IsCogzServerTable;
    MergeIntoNothing(ServersPatch(bin));
    var entry := Table(ServerEntry(bin));
    assert UpgradeItem(entry, bin).t == ServerEntry(bin);
    assert UpgradeItem(Table(map["cogz" := entry]), bin).t == map["cogz" := entry];
    assert UpgradeItem(Table(ServersPatch(bin)), bin).t == ServersPatch(bin);
  }

  /** A config whose only server was started by hand. */
  function HandWired(cmd: string): Fields {
    map["mcp_servers" := Table(map["cogz" := Table(OneCommand(cmd))])]
  }

  lemma ServersPatchHasServer(bin: string)
    ensures HasServer(Table(ServersPatch(bin))) <==> CommandNamesCogz(bin)
  {
    hide CommandNamesCogz, IsCogzServerTable;
    ServerIsRecognised(bin);
    var entry := ServerEntry(bin);
    assert !HasServer(entry["command"]) && !HasServer(entry["args"]);
    assert HasServer(Table(entry)) <==> CommandNamesCogz(bin);
    var servers: Fields := map["cogz" := Table(entry)];
    NoCommandNoServer(servers);
    NoCommandNoServer(ServersPatch(bin));
    assert HasServer(Table(servers)) <==> HasServer(servers["cogz"]);
    assert HasServer(Table(ServersPatch(bin))) <==> HasServer(ServersPatch(bin)["mcp_servers"]);
  }

  lemma NoCommandNoServer(t: Fields)
    requires "command" !in t
    ensures !IsCogzServerTable(t)
  {
  }

  /** Any repair that does not settle shows up beside the generated servers. */
  lemma GeneratedRewrites(s: string, bin: string)
    requires RerunsWith(ServersPatch(bin), bin)
    ensures Rewrite(Rewrite(s, bin), bin) == Rewrite(s, bin)
  {
    hide Rewrite, ServerEntry;
    var patch := ServersPatch(bin);
    NoCommandNoServer(patch);
    var once := Configure(OneCommand(s), patch, bin);
    CommandOfRun(OneCommand(s), patch, bin);
    CommandOfRun(once, patch, bin);
    assert Configure(once, patch, bin) == once;
  }

  lemma CommandOfRun(base: Fields, patch: Fields, bin: string)
    requires "command" in base && base["command"].Leaf? && base["command"].v.TString?
    requires "command" !in patch
    ensures var r := Configure(base, patch, bin);
            "command" in r && r["command"] == Leaf(TString(Rewrite(base["command"].v.s, bin)))
  {
    hide Rewrite, IsCogzServerTable;
  }

  /** One run on a hand-wired server: only its command is rewritten while it is recognised, otherwise the
      arguments of the entry are added. */
  lemma HandWiredRun(cmd: string, bin: string)
    ensures var r := Configure(HandWired(cmd), ServersPatch(bin), bin);
            && (CommandNamesCogz(cmd) && Contains(cmd, "mcp-stdio") && CommandNamesCogz(bin)
                ==> r == HandWired(Rewrite(cmd, bin)))
            && (!CommandNamesCogz(cmd) ==> r != HandWired(cmd))
  {
    hide Rewrite, Contains, IsCogzServerTable, CommandNamesCogz, OneCommand, ServerEntry;
    var e, p := Table(OneCommand(cmd)), Table(ServerEntry(bin));
    EntryRun(cmd, bin);
    OneKeyRun("cogz", e, p, bin);
    OneKeyRun("mcp_servers", Table(map["cogz" := e]), Table(map["cogz" := p]), bin);
    var r := Configure(HandWired(cmd), ServersPatch(bin), bin);
    assert r["mcp_servers"].t["cogz"] == UpgradeItem(MergeItem(e, p), bin);
  }

  /** A run on one key of a table that is no server is a run on what stands under it. */
  lemma OneKeyRun(k: string, base: Item, patch: Item, bin: string)
    requires k != "command"
    ensures UpgradeItem(MergeItem(Table(map[k := base]), Table(map[k := patch])), bin)
            == Table(map[k := UpgradeItem(MergeItem(base, patch), bin)])
  {
    hide IsCogzServerTable;
    var bt, pt := map[k := base], map[k := patch];
    NoCommandNoServer(bt);
    var m := MergeItem(Table(bt), Table(pt));
    assert m.t == map[k := MergeItem(base, patch)];
    assert UpgradeItem(m, bin).t == map[k := UpgradeItem(MergeItem(base, patch), bin)];
  }

  lemma EntryRun(cmd: string, bin: string)
    ensures var r := UpgradeItem(MergeItem(Table(OneCommand(cmd)), Table(ServerEntry(bin))), bin);
            && (CommandNamesCogz(cmd) && Contains(cmd, "mcp-stdio") && CommandNamesCogz(bin)
                ==> r == Table(OneCommand(Rewrite(cmd, bin))))
            && (!CommandNamesCogz(cmd) ==> r.Table? && "args" in r.t && "args" !in OneCommand(cmd))
  {
    hide Rewrite, Contains, Argv0Base, SplitArgv0;
    ServerIsRecognised(bin);
    assert IsCogzServerTable(OneCommand(cmd)) <==> CommandNamesCogz(cmd) && Contains(cmd, "mcp-stdio");
    assert UpgradeItem(Table(OneCommand(cmd)), bin).t == OneCommand(Rewrite(cmd, bin));
  }

  /** For the patch the configurator generates, re-running is a no-op on every TOML config exactly when the
      binary, if recognised alone, is recognised in the probe, and is no bare-cogz command line. */
  lemma GeneratedRerunExactly(bin: string)
    ensures RerunsWith(ServersPatch(bin), bin) <==> StaysRecognised(bin) && !("cogz " <= bin)
  {
    hide CommandNamesCogz, Configure, Rewrite, ServersPatch, HandWired;
    NameSurvivesIffRecognised(bin);
    RewriteSettlesExactly(bin);
    ServersPatchHasServer(bin);
    var patch := ServersPatch(bin);
    if RerunsWith(patch, bin) {
      forall s ensures Rewrite(Rewrite(s, bin), bin) == Rewrite(s, bin) { GeneratedRewrites(s, bin); }
      BareIsNamed(NAME_PROBE);
      ProbeMentionsServer("cogz");
      RewriteSpaced(NAME_PROBE, bin);
      HandWiredRun(WithArgs("cogz", NAME_PROBE), bin);
      HandWiredRun(ProbeCommand(bin), bin);
      assert Configure(Configure(HandWired(WithArgs("cogz", NAME_PROBE)), patch, bin), patch, bin)
             == Configure(HandWired(WithArgs("cogz", NAME_PROBE)), patch, bin);
    }
    if StaysRecognised(bin) && !("cogz " <= bin) {
      forall base ensures Configure(Configure(base, patch, bin), patch, bin) == Configure(base, patch, bin) {
        NoOpWhenKept(base, patch, bin);
      }
    }
  }
}
