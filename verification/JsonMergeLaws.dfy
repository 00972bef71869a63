/** Re-running the configurator is a no-op: for which binaries, and why. */
module JsonMergeLaws {
  import opened Text
  import opened CommandKeys
  import opened CommandKeyLaws
  import opened JsonMerge
  import opened Sorting

  // ─── When a patch is installed ──────────────────────────────────

  /** Everything the patch asks for is there already. */
  ghost predicate Installed(patch: Value, m: Value)
    decreases patch
  {
    match (patch, m)
    case (Object(p), Object(f)) =>
      || (IsCogzServer(f) && IsCogzServer(p))
      || forall k | k in p :: k in f && Installed(p[k], f[k])
    case (Array(p), Array(items)) => forall item | item in p :: CoveredBy(items, item)
    case _ => m == patch
  }

  lemma CoverageGrows(items: seq<Value>, more: seq<Value>, item: Value)
    requires items <= more && CoveredBy(items, item)
    ensures CoveredBy(more, item)
  {
    var x :| x in items && Covers(x, item);
    assert x in more;
  }

  lemma CoversItself(items: seq<Value>, item: Value)
    requires item in items
    ensures CoveredBy(items, item)
  {
    assert Covers(item, item);
  }

  /** Appending keeps the base as a prefix and leaves every patch item covered. */
  lemma {:induction false} AppendCovers(base: seq<Value>, patch: seq<Value>)
    ensures base <= AppendUncovered(base, patch)
    ensures forall item | item in patch :: CoveredBy(AppendUncovered(base, patch), item)
    decreases |patch|
  {
    if patch != [] {
      var item := patch[0];
      var next := if CoveredBy(base, item) then base else base + [item];
      AppendCovers(next, patch[1..]);
      if next != base { CoversItself(next, item); }
      CoverageGrows(next, AppendUncovered(next, patch[1..]), item);
    }
  }

  /** What is appended comes from the patch and was not covered by anything before it. */
  lemma {:induction false} AppendsOnlyUncovered(base: seq<Value>, patch: seq<Value>, i: nat)
    requires |base| <= i < |AppendUncovered(base, patch)|
    ensures var r := AppendUncovered(base, patch); r[i] in patch && !CoveredBy(r[..i], r[i])
    decreases |patch|
  {
    var item := patch[0];
    var next := if CoveredBy(base, item) then base else base + [item];
    AppendCovers(next, patch[1..]);
    if i < |next| {
      var r := AppendUncovered(next, patch[1..]);
      assert r[..i] == next[..i] == base && r[i] == item;
    } else {
      AppendsOnlyUncovered(next, patch[1..], i);
    }
  }

  /** What is appended keeps the patch's order, and what is not is covered. */
  lemma {:induction false} AppendsInOrder(base: seq<Value>, patch: seq<Value>) returns (skipped: seq<Value>)
    ensures var r := AppendUncovered(base, patch);
            base <= r && IsMerge(patch, r[|base|..], skipped) && forall s | s in skipped :: CoveredBy(r, s)
    decreases |patch|
  {
    hide CoveredBy;
    AppendCovers(base, patch);
    var r := AppendUncovered(base, patch);
    if patch == [] {
      skipped := [];
      assert r[|base|..] == [];
    } else if CoveredBy(base, patch[0]) {
      var rest := AppendsInOrder(base, patch[1..]);
      skipped := [patch[0]] + rest;
      CoverageGrows(base, r, patch[0]);
      assert skipped[1..] == rest;
    } else {
      skipped := AppendsInOrder(base + [patch[0]], patch[1..]);
      assert r[|base|..] == [patch[0]] + r[|base| + 1..];
    }
  }

  lemma {:induction false} AppendNothingIffCovered(base: seq<Value>, patch: seq<Value>)
    ensures AppendUncovered(base, patch) == base <==> forall item | item in patch :: CoveredBy(base, item)
    decreases |patch|
  {
    if patch != [] {
      AppendNothingIffCovered(base, patch[1..]);
      if !CoveredBy(base, patch[0]) { AppendCovers(base + [patch[0]], patch[1..]); }
    }
  }

  lemma {:induction false} InstalledInItself(v: Value)
    ensures Installed(v, v)
    decreases v
  {
    match v
    case Object(f) =>
      forall k | k in f ensures Installed(f[k], f[k]) { InstalledInItself(f[k]); }
    case Array(items) =>
      forall item | item in items ensures CoveredBy(items, item) { assert Covers(item, item); }
    case _ =>
  }

  /** Merging installs the patch. */
  lemma {:induction false} MergeInstalls(base: Value, patch: Value)
    ensures Installed(patch, Merge(base, patch))
    decreases patch
  {
    hide IsCogzServer;
    match (base, patch)
    case (Object(b), Object(p)) =>
      if !(IsCogzServer(b) && IsCogzServer(p)) {
        var m := Merge(base, patch).fields;
        forall k | k in p ensures k in m && Installed(p[k], m[k]) {
          if k in b { MergeInstalls(b[k], p[k]); } else { InstalledInItself(p[k]); }
        }
      }
    case (Array(b), Array(p)) => AppendCovers(b, p);
    case _ => InstalledInItself(patch);
  }

  /** Merging a patch changes nothing exactly when the patch is installed. */
  lemma {:induction false} MergeIsNoOpIffInstalled(m: Value, patch: Value)
    ensures Merge(m, patch) == m <==> Installed(patch, m)
    decreases patch
  {
    hide IsCogzServer;
    match (m, patch)
    case (Object(f), Object(p)) =>
      if !(IsCogzServer(f) && IsCogzServer(p)) {
        var r := Merge(m, patch).fields;
        forall k | k in p && k in f ensures Merge(f[k], p[k]) == f[k] <==> Installed(p[k], f[k]) {
          MergeIsNoOpIffInstalled(f[k], p[k]);
        }
        if Installed(patch, m) {
          assert r.Keys == f.Keys;
          assert forall k | k in f :: r[k] == f[k];
          assert r == f;
        }
        if r == f {
          forall k | k in p ensures k in f && Installed(p[k], f[k]) { assert k in r; }
        }
      }
    case (Array(items), Array(p)) => AppendNothingIffCovered(items, p);
    case _ =>
  }

  // ─── Repair respects what is installed ──────────────────────────

  /** A rewritten command still names `cogz`. */
  lemma RewriteNamesCogz(s: string, bin: string)
    requires Usable(bin) && Argv0Base(SplitArgv0(s).0) == "cogz"
    ensures Argv0Base(SplitArgv0(Rewrite(s, bin)).0) == "cogz"
  {
    if s == "cogz" {
      KeyIsCogz(Argv0Base(SplitArgv0(bin).0), SplitWhitespace(SplitArgv0(bin).1));
    } else if "cogz " <= s {
      UsableNamesCogz(bin);
      assert SplitsAsCogz(ShellArgv0(bin), s[5..]);
    }
  }

  /** Field by field: the command is rewritten, strings and arrays elsewhere stay strings and arrays. */
  lemma UpgradeFields(f: Fields, bin: string)
    ensures var g := Upgrade(Object(f), bin).fields;
            && g.Keys == f.Keys
            && (StringAt(f, "command").Some? ==> StringAt(g, "command") == Some(Rewrite(f["command"].s, bin)))
            && (StringAt(f, "command").None? ==> StringAt(g, "command").None?)
            && StringAt(g, "matcher") == StringAt(f, "matcher")
            && (forall k | k in f && k != "command" :: g[k] == Upgrade(f[k], bin) && g[k].Array? == f[k].Array?)
  {
    assert forall v: Value :: Upgrade(v, bin).String? == v.String? && (v.String? ==> Upgrade(v, bin) == v);
  }

  lemma ServerStaysNamed(f: Fields, bin: string)
    requires Usable(bin) && IsCogzServer(f)
    ensures Argv0Base(SplitArgv0(Rewrite(f["command"].s, bin)).0) == "cogz"
  {
    hide Contains, Argv0Base, SplitArgv0, Rewrite, Usable;
    RewriteNamesCogz(f["command"].s, bin);
  }

  lemma UpgradeKeepsServer(f: Fields, g: Fields, bin: string)
    requires IsCogzServer(f) && Upgrade(Object(f), bin) == Object(g)
    requires Argv0Base(SplitArgv0(Rewrite(f["command"].s, bin)).0) == "cogz"
    ensures IsCogzServer(g)
  {
    hide Contains, Argv0Base, SplitArgv0, Rewrite;
    UpgradeFields(f, bin);
    var cmd := f["command"].s;
    RewriteKeepsNeedle(cmd, bin);
    if !Contains(cmd, "mcp-stdio") {
      var args := f["args"].items;
      var i :| 0 <= i < |args| && args[i] == String("mcp-stdio");
      assert g["args"].items[i] == Upgrade(args[i], bin);
      assert g["args"].items[i] in g["args"].items;
    }
  }

  lemma UpgradeKeepsHookCommand(h: Value, bin: string)
    requires Usable(bin)
    ensures HookCommand(h).Some? == HookCommand(Upgrade(h, bin)).Some?
    ensures HookCommand(h).Some? ==> CommandKey(HookCommand(Upgrade(h, bin)).value) == CommandKey(HookCommand(h).value)
  {
    if h.Object? {
      UpgradeFields(h.fields, bin);
      if HookCommand(h).Some? { UsableKeepsKey(bin, HookCommand(h).value); }
    }
  }

  lemma UpgradeKeepsGroup(hooks: seq<Value>, bin: string)
    requires Usable(bin)
    ensures var upgraded := Upgrade(Array(hooks), bin).items;
            && |upgraded| == |hooks|
            && ((exists h | h in upgraded :: HookCommand(h).None?) <==> (exists h | h in hooks :: HookCommand(h).None?))
            && forall i | 0 <= i < |hooks| && HookCommand(hooks[i]).Some? ::
                 && HookCommand(upgraded[i]).Some?
                 && CommandKey(HookCommand(upgraded[i]).value) == CommandKey(HookCommand(hooks[i]).value)
  {
    var upgraded := Upgrade(Array(hooks), bin).items;
    forall i | 0 <= i < |hooks|
      ensures HookCommand(upgraded[i]).Some? == HookCommand(hooks[i]).Some?
      ensures HookCommand(hooks[i]).Some? ==>
                CommandKey(HookCommand(upgraded[i]).value) == CommandKey(HookCommand(hooks[i]).value)
    {
      UpgradeKeepsHookCommand(hooks[i], bin);
    }
    if h :| h in hooks && HookCommand(h).None? {
      var i :| 0 <= i < |hooks| && hooks[i] == h;
      assert upgraded[i] in upgraded;
    }
    if h :| h in upgraded && HookCommand(h).None? {
      var i :| 0 <= i < |hooks| && upgraded[i] == h;
      assert hooks[i] in hooks;
    }
  }

  /** Repair never changes what a hook element is to the dedup. */
  lemma UpgradeKeepsHookKey(v: Value, bin: string)
    requires Usable(bin)
    ensures HookKeyOf(Upgrade(v, bin)) == HookKeyOf(v)
  {
    hide CommandKey, Usable;
    if v.Object? {
      UpgradeFields(v.fields, bin);
      UpgradeKeepsHookCommand(v, bin);
      if "hooks" in v.fields && v.fields["hooks"].Array? {
        UpgradeKeepsGroup(v.fields["hooks"].items, bin);
        if HookKeyOf(v).Some? {
          assert HookKeyOf(Upgrade(v, bin)).value.commands == HookKeyOf(v).value.commands;
        }
      }
    }
  }

  lemma UpgradeKeepsCoverage(items: seq<Value>, item: Value, bin: string)
    requires Usable(bin) && Upgrade(item, bin) == item && CoveredBy(items, item)
    ensures CoveredBy(Upgrade(Array(items), bin).items, item)
  {
    hide HookKeyOf;
    var x :| x in items && Covers(x, item);
    var i :| 0 <= i < |items| && items[i] == x;
    var upgraded := Upgrade(Array(items), bin).items;
    assert upgraded[i] == Upgrade(x, bin) && upgraded[i] in upgraded;
    UpgradeKeepsHookKey(x, bin);
  }

  /** What is installed stays installed through the repair. */
  lemma {:induction false} UpgradeKeepsInstalled(patch: Value, m: Value, bin: string)
    requires Usable(bin) && Upgrade(patch, bin) == patch && Installed(patch, m)
    ensures Installed(patch, Upgrade(m, bin))
    decreases patch
  {
    hide IsCogzServer, Usable;
    match (patch, m)
    case (Object(p), Object(f)) =>
      if IsCogzServer(f) && IsCogzServer(p) {
        ServerStaysNamed(f, bin);
        UpgradeKeepsServer(f, Upgrade(m, bin).fields, bin);
      } else {
        var g := Upgrade(m, bin).fields;
        forall k | k in p ensures k in g && Installed(p[k], g[k]) {
          assert Upgrade(patch, bin).fields[k] == p[k];
          if k == "command" {
            if f[k].String? { assert f[k] == p[k]; }
          } else {
            UpgradeKeepsInstalled(p[k], f[k], bin);
          }
        }
      }
    case (Array(p), Array(items)) =>
      forall item | item in p ensures CoveredBy(Upgrade(m, bin).items, item) {
        var i :| 0 <= i < |p| && p[i] == item;
        assert Upgrade(patch, bin).items[i] == item;
        UpgradeKeepsCoverage(items, item, bin);
      }
    case _ =>
  }

  /** A second repair changes nothing. */
  lemma {:induction false} UpgradeSettles(v: Value, bin: string)
    requires RewriteSettles(bin)
    ensures Upgrade(Upgrade(v, bin), bin) == Upgrade(v, bin)
    decreases v
  {
    match v
    case Object(f) =>
      var g := Upgrade(v, bin).fields;
      var h := Upgrade(Upgrade(v, bin), bin).fields;
      forall k | k in f ensures h[k] == g[k] {
        if k == "command" {
          if f[k].String? { assert Rewrite(Rewrite(f[k].s, bin), bin) == Rewrite(f[k].s, bin); }
        } else {
          UpgradeSettles(f[k], bin);
        }
      }
      assert h == g;
    case Array(items) =>
      var g := Upgrade(v, bin).items;
      forall i | 0 <= i < |items| ensures Upgrade(g[i], bin) == g[i] { UpgradeSettles(items[i], bin); }
      assert Upgrade(Upgrade(v, bin), bin).items == g;
    case _ =>
  }

  // ─── Main results ───────────────────────────────────────────────

  ghost predicate RerunIsNoOp(bin: string) {
    forall base, patch | Upgrade(patch, bin) == patch ::
      Configure(Configure(base, patch, bin), patch, bin) == Configure(base, patch, bin)
  }

  lemma UsableRerunIsNoOp(base: Value, patch: Value, bin: string)
    requires Usable(bin) && Upgrade(patch, bin) == patch
    ensures Configure(Configure(base, patch, bin), patch, bin) == Configure(base, patch, bin)
  {
    var m := Merge(base, patch);
    MergeInstalls(base, patch);
    UpgradeKeepsInstalled(patch, m, bin);
    MergeIsNoOpIffInstalled(Upgrade(m, bin), patch);
    if "cogz " <= bin { SpacedBinaryIsUnusable(bin); }
    RewriteSettlesExactly(bin);
    UpgradeSettles(m, bin);
  }

  /** A flat hook entry. */
  function Entry(cmd: string): Value {
    Object(map["command" := String(cmd)])
  }

  lemma EntryFacts(cmd: string, bin: string)
    ensures HookKeyOf(Entry(cmd)) == Some(HookKey("", [CommandKey(cmd)]))
    ensures Upgrade(Entry(cmd), bin) == Entry(Rewrite(cmd, bin))
  {
    hide CommandKey, Rewrite;
    assert Upgrade(Entry(cmd), bin).fields == Entry(Rewrite(cmd, bin)).fields;
  }

  lemma EntryCovers(a: string, b: string)
    ensures Covers(Entry(a), Entry(b)) <==> CommandKey(a) == CommandKey(b)
  {
    EntryFacts(a, "");
    EntryFacts(b, "");
    hide HookKeyOf, CommandKey;
    assert Entry(a) == Entry(b) ==> Entry(a).fields["command"] == Entry(b).fields["command"];
    assert CommandKey(b) in [CommandKey(b)] && CommandKey(a) in [CommandKey(a)];
  }

  function OneEntry(cmd: string): Value {
    Array([Entry(cmd)])
  }

  lemma UpgradeOneEntry(cmd: string, bin: string)
    ensures Upgrade(OneEntry(cmd), bin) == OneEntry(Rewrite(cmd, bin))
  {
    hide Rewrite;
    EntryFacts(cmd, bin);
  }

  lemma MergeOneEntry(a: string, b: string)
    ensures Merge(OneEntry(a), OneEntry(b)) == OneEntry(a) <==> CommandKey(a) == CommandKey(b)
  {
    hide CommandKey, Covers;
    EntryCovers(a, b);
    AppendNothingIffCovered([Entry(a)], [Entry(b)]);
    assert CoveredBy([Entry(a)], Entry(b)) <==> Covers(Entry(a), Entry(b));
  }

  /** A config holding `s`, and a patch holding the same command with a path: the second run appends the
      patch unless rewriting kept the key. */
  lemma RerunKeepsKey(s: string, pathed: string, bin: string)
    requires RerunIsNoOp(bin) && CommandKey(pathed) == CommandKey(s) && Rewrite(pathed, bin) == pathed
    ensures CommandKey(Rewrite(s, bin)) == CommandKey(s)
  {
    hide CommandKey, Rewrite, Merge, Upgrade;
    UpgradeOneEntry(pathed, bin);
    UpgradeOneEntry(s, bin);
    MergeOneEntry(s, pathed);
    var r := OneEntry(Rewrite(s, bin));
    assert Configure(OneEntry(s), OneEntry(pathed), bin) == r;
    assert Configure(r, OneEntry(pathed), bin) == r;
    MergeOfEntries(Rewrite(s, bin), pathed);
    UpgradeKeepsLength(Merge(r, OneEntry(pathed)), bin);
    MergeOneEntry(Rewrite(s, bin), pathed);
  }

  lemma UpgradeKeepsLength(v: Value, bin: string)
    requires v.Array?
    ensures Upgrade(v, bin).Array? && |Upgrade(v, bin).items| == |v.items|
  {
  }

  lemma MergeOfEntries(a: string, b: string)
    ensures var m := Merge(OneEntry(a), OneEntry(b)); m.Array? && (|m.items| == 1 ==> m == OneEntry(a))
  {
    hide Covers;
    AppendCovers([Entry(a)], [Entry(b)]);
  }

  lemma PathIsNotBare(cmd: string, bin: string)
    requires cmd != [] && cmd[0] == '/'
    ensures Rewrite(cmd, bin) == cmd
  {
    assert "cogz "[0] == 'c' && "cogz"[0] == 'c';
  }

  lemma PathedKey(x: string, bin: string)
    ensures CommandKey("/cogz") == CommandKey("cogz")
    ensures CommandKey(WithArgs("/cogz", x)) == CommandKey(WithArgs("cogz", x))
    ensures Rewrite("/cogz", bin) == "/cogz" && Rewrite(WithArgs("/cogz", x), bin) == WithArgs("/cogz", x)
  {
    hide CommandKey, NamesCogz, Rewrite;
    PathIsNotBare("/cogz", bin);
    PathIsNotBare(WithArgs("/cogz", x), bin);
    BareNamesCogz();
    PathNamesCogz();
    SameNameSameKey("/cogz", "cogz", x);
  }

  lemma SameNameSameKey(p: string, q: string, x: string)
    requires NamesCogz(p) && NamesCogz(q)
    ensures CommandKey(WithArgs(p, x)) == CommandKey(WithArgs(q, x))
  {
    hide SplitsAsCogz, CommandKey;
    NamesCogzKey(p, x);
    NamesCogzKey(q, x);
  }

  lemma PathNamesCogz()
    ensures NamesCogz("/cogz") && CommandKey("/cogz") == "cogz"
  {
    hide Argv0Base, CommandKey, NamesCogz;
    PathedBase();
    PlainNamesCogz("/cogz");
  }

  lemma PathedBase()
    ensures Argv0Base("/cogz") == "cogz"
  {
    assert "/cogz"[..4] == "/cog" && "/cog"[..3] == "/co" && "/co"[..2] == "/c" && "/c"[..1] == "/";
    assert AfterLastSeparator("/") == "";
    assert AfterLastSeparator("/c") == "c";
    assert AfterLastSeparator("/co") == "co";
    assert AfterLastSeparator("/cog") == "cog";
    assert "cogz"[0] != ".exe"[0];
  }

  /** Re-running the configurator is a no-op, for every existing config and every patch the repair leaves
      alone, exactly for the usable binaries. */
  lemma RerunIsNoOpIffUsable(bin: string)
    ensures RerunIsNoOp(bin) <==> Usable(bin)
  {
    if Usable(bin) {
      forall base, patch | Upgrade(patch, bin) == patch
        ensures Configure(Configure(base, patch, bin), patch, bin) == Configure(base, patch, bin)
      {
        UsableRerunIsNoOp(base, patch, bin);
      }
    }
    if RerunIsNoOp(bin) {
      forall s ensures CommandKey(Rewrite(s, bin)) == CommandKey(s) {
        RerunKeepsKeyOf(s, bin);
      }
      KeysSurviveIffUsable(bin);
    }
  }

  lemma RerunKeepsKeyOf(s: string, bin: string)
    requires RerunIsNoOp(bin)
    ensures CommandKey(Rewrite(s, bin)) == CommandKey(s)
  {
    hide CommandKey, RerunIsNoOp;
    if s == "cogz" {
      PathedKey("", bin);
      RerunKeepsKey(s, "/cogz", bin);
    } else if "cogz " <= s {
      SpacedShape(s);
      PathedKey(s[5..], bin);
      RerunKeepsKey(s, WithArgs("/cogz", s[5..]), bin);
    }
  }

  /** The binary with a space in its path that an ordinary install can have. */
  lemma SpacedPathIsUnusable(bin: string)
    requires bin == "/opt/my tools/cogz"
    ensures !Usable(bin)
  {
    hide SplitWhitespace, KeyOf, FindWhitespace;
    assert bin == WithArgs("/opt/my", "tools/cogz");
    var u := "/opt/my";
    assert forall c | c in u :: !IsWhitespace(c);
    NoWhitespace(u);
    assert u[..|u|] == u && u[|u|..] == "";
    assert ClosedHead(u) && HeadArgv0(u) == (u, "");
    SplitAfterHead(u, "tools/cogz");
    BlankPrefix("", "tools/cogz");
    KeyIsCogz(Argv0Base(u), SplitWhitespace(TrimStart("tools/cogz")));
    NoTokensIffBlank(TrimStart("tools/cogz"));
    assert TrimStart("tools/cogz") == "tools/cogz" && "tools/cogz"[0] == 't';
  }

  // ─── Equivalent hook shapes ─────────────────────────────────────

  /** A matcher group; no matcher is written as none at all. */
  function GroupOf(matcher: Option<string>, commands: seq<string>): Value {
    var hooks := Array(seq(|commands|, i requires 0 <= i < |commands| => Entry(commands[i])));
    Object(if matcher.Some? then map["matcher" := String(matcher.value), "hooks" := hooks] else map["hooks" := hooks])
  }

  function FlatOf(matcher: Option<string>, command: string): Value {
    Object(if matcher.Some? then map["matcher" := String(matcher.value), "command" := String(command)]
           else map["command" := String(command)])
  }

  function MatcherText(matcher: Option<string>): string {
    if matcher.Some? then matcher.value else ""
  }

  lemma GroupKey(matcher: Option<string>, commands: seq<string>)
    ensures HookKeyOf(GroupOf(matcher, commands))
            == Some(HookKey(MatcherText(matcher),
                            seq(|commands|, i requires 0 <= i < |commands| => CommandKey(commands[i]))))
  {
    hide CommandKey;
    var fields := GroupOf(matcher, commands).fields;
    var hooks := fields["hooks"].items;
    forall h | h in hooks ensures HookCommand(h).Some? {
      var i :| 0 <= i < |hooks| && hooks[i] == h;
      assert h == Entry(commands[i]);
    }
    assert fields.Keys <= {"matcher", "hooks"};
    assert HookKeyOf(GroupOf(matcher, commands)).value.commands
           == seq(|commands|, i requires 0 <= i < |commands| => CommandKey(commands[i]));
  }

  lemma FlatKey(matcher: Option<string>, command: string)
    ensures HookKeyOf(FlatOf(matcher, command)) == Some(HookKey(MatcherText(matcher), [CommandKey(command)]))
  {
    hide CommandKey;
    assert "hooks" !in FlatOf(matcher, command).fields;
  }

  /** Grouping and the spelling of an empty matcher do not matter: a group covers a flat entry exactly when
      the matchers mean the same and one of its commands has the entry's key. */
  lemma GroupCoversFlatIff(m: Option<string>, commands: seq<string>, n: Option<string>, command: string)
    ensures Covers(GroupOf(m, commands), FlatOf(n, command))
            <==> && MatcherText(m) == MatcherText(n)
                 && exists i :: 0 <= i < |commands| && CommandKey(commands[i]) == CommandKey(command)
  {
    hide CommandKey, HookKeyOf;
    GroupKey(m, commands);
    FlatKey(n, command);
    assert "hooks" in GroupOf(m, commands).fields && "hooks" !in FlatOf(n, command).fields;
    var keys := HookKeyOf(GroupOf(m, commands)).value.commands;
    assert |keys| == |commands| && forall i | 0 <= i < |keys| :: keys[i] == CommandKey(commands[i]);
    assert CommandKey(command) in [CommandKey(command)];
  }

  // ─── Nothing is clobbered ───────────────────────────────────────

  /** A wired server is untouched when the patch is one too. Otherwise, where base and patch agree in shape,
      everything of the base is still there, in its order, and everything else is the patch's. */
  ghost predicate Kept(base: Value, patch: Value, m: Value)
    decreases patch
  {
    match (base, patch, m)
    case (Object(b), Object(p), Object(f)) =>
      if IsCogzServer(b) && IsCogzServer(p) then m == base
      else
        && f.Keys == b.Keys + p.Keys
        && (forall k | k in b && k !in p :: f[k] == b[k])
        && (forall k | k in p && k !in b :: f[k] == p[k])
        && (forall k | k in b && k in p :: Kept(b[k], p[k], f[k]))
    case (Array(b), Array(p), Array(items)) =>
      && b <= items
      && (forall i | |b| <= i < |items| :: items[i] in p && !CoveredBy(items[..i], items[i]))
    case _ => m == patch
  }

  lemma {:induction false} MergeKeepsBase(base: Value, patch: Value)
    ensures Kept(base, patch, Merge(base, patch))
    decreases patch
  {
    hide IsCogzServer, CoveredBy;
    match (base, patch)
    case (Object(b), Object(p)) =>
      if !(IsCogzServer(b) && IsCogzServer(p)) {
        var m := Merge(base, patch).fields;
        forall k | k in b && k in p ensures Kept(b[k], p[k], m[k]) { MergeKeepsBase(b[k], p[k]); }
      }
    case (Array(b), Array(p)) =>
      var items := AppendUncovered(b, p);
      AppendCovers(b, p);
      forall i | |b| <= i < |items| ensures items[i] in p && !CoveredBy(items[..i], items[i]) {
        AppendsOnlyUncovered(b, p, i);
      }
    case _ =>
  }
}
