/** Configuring a harness a second time: for which binaries it is a no-op on every config, and an input at
    which it is not. */
module GeneratedRerunLaws {
  import opened Text
  import opened CommandKeys
  import opened CommandKeyLaws
  import opened CommandNames
  import opened HookKeys
  import opened HookKeyLaws
  import opened JsonMerge
  import opened JsonMergeLaws
  import opened JsonRerunLaws
  import opened GeneratedPatches

  // ─── Server entries ─────────────────────────────────────────────

  /** A server entry for the binary whose other settings rerun. */
  ghost predicate IsServerEntry(p: Fields, bin: string) {
    && "command" in p && p["command"] == String(bin)
    && "args" in p && p["args"] == Array([String("mcp-stdio")])
    && forall k | k in p && k != "command" :: RerunsWith(p[k], bin)
  }

  lemma EntryIsServer(p: Fields, bin: string)
    requires "command" in p && p["command"] == String(bin)
    requires "args" in p && p["args"] == Array([String("mcp-stdio")])
    ensures IsCogzServer(p) <==> CommandNamesCogz(bin)
  {
    hide Contains, Argv0Base, SplitArgv0;
    assert String("mcp-stdio") in [String("mcp-stdio")];
  }

  lemma HandWiredIsServer(cmd: string)
    ensures Contains(cmd, "mcp-stdio") ==> (IsCogzServer(Entry(cmd).fields) <==> CommandNamesCogz(cmd))
    ensures !CommandNamesCogz(cmd) ==> !IsCogzServer(Entry(cmd).fields)
  {
    hide Contains, Argv0Base, SplitArgv0;
  }

  /** One run on a hand-wired server entry. */
  lemma HandWiredRun(cmd: string, p: Fields, bin: string)
    requires IsServerEntry(p, bin)
    ensures var r := Configure(Entry(cmd), Object(p), bin);
            && (CommandNamesCogz(cmd) && Contains(cmd, "mcp-stdio") && CommandNamesCogz(bin) ==>
                  r == Entry(Rewrite(cmd, bin)))
            && (!CommandNamesCogz(cmd) ==> r != Entry(cmd))
  {
    hide Rewrite, Contains, IsCogzServer, CommandNamesCogz, Upgrade, RerunsWith;
    EntryIsServer(p, bin);
    HandWiredIsServer(cmd);
    EntryFacts(cmd, bin);
    if !CommandNamesCogz(cmd) {
      FieldsOfRun(Entry(cmd).fields, p, bin);
      assert "args" in Configure(Entry(cmd), Object(p), bin).fields && "args" !in Entry(cmd).fields;
    }
  }

  lemma EntryRunTwice(b: Fields, p: Fields, bin: string)
    requires IsServerEntry(p, bin) && RewriteSettles(bin) && !(IsCogzServer(b) && IsCogzServer(p))
    ensures var r := Configure(Object(b), Object(p), bin); Configure(r, Object(p), bin) == r
  {
    hide IsCogzServer, UpgradeField, RerunsWith, RewriteSettles, Configure;
    FieldsOfRun(b, p, bin);
    var m, r := Merge(Object(b), Object(p)), Configure(Object(b), Object(p), bin).fields;
    if IsCogzServer(r) && IsCogzServer(p) {
      KeptRun(r, p, bin);
      UpgradeSettlesRun(Object(b), Object(p), bin);
    } else {
      FieldsOfRun(r, p, bin);
      var again := Configure(Object(r), Object(p), bin).fields;
      forall k | k in r ensures again[k] == r[k] {
        if k !in p {
          FieldSettles(k, b[k], bin);
        } else if k == "command" {
          StringWins(r[k], bin);
          if k in b { StringWins(b[k], bin); }
        } else if k in b {
          RerunOfField(k, b[k], p[k], bin);
        } else {
          FreshField(k, p[k], bin);
        }
      }
      assert again == r;
    }
  }

  lemma StringWins(v: Value, s: string)
    ensures Merge(v, String(s)) == String(s)
  {
  }

  lemma KeptRun(b: Fields, p: Fields, bin: string)
    requires IsCogzServer(b) && IsCogzServer(p)
    ensures Configure(Object(b), Object(p), bin) == Upgrade(Object(b), bin)
  {
    hide IsCogzServer, Upgrade;
  }

  lemma UpgradeSettlesRun(base: Value, patch: Value, bin: string)
    requires RewriteSettles(bin)
    ensures Upgrade(Configure(base, patch, bin), bin) == Configure(base, patch, bin)
  {
    UpgradeSettles(Merge(base, patch), bin);
  }

  lemma ServerRunTwice(b: Fields, p: Fields, bin: string)
    requires IsServerEntry(p, bin) && RewriteSettles(bin) && IsCogzServer(b) && IsCogzServer(p) && Recognised(bin)
    ensures var r := Configure(Object(b), Object(p), bin); Configure(r, Object(p), bin) == r
  {
    hide IsCogzServer, RerunsWith, RewriteSettles, Configure, Recognised, Rewrite;
    NameSurvivesIffRecognised(bin);
    ServerCommandNamed(b);
    KeptRun(b, p, bin);
    var g := Upgrade(Object(b), bin).fields;
    UpgradeKeepsServer(b, g, bin);
    KeptRun(g, p, bin);
    UpgradeSettlesRun(Object(b), Object(p), bin);
  }

  lemma ServerCommandNamed(b: Fields)
    requires IsCogzServer(b)
    ensures "command" in b && b["command"].String? && CommandNamesCogz(b["command"].s)
  {
  }

  /** Where the rewrite settles, a server entry reruns as a no-op on every config exactly when the binary,
      if recognised alone, is recognised in the probe. */
  lemma EntryRerunsExactly(p: Fields, bin: string)
    requires IsServerEntry(p, bin) && RewriteSettles(bin)
    ensures RerunsWith(Object(p), bin) <==> StaysRecognised(bin)
  {
    hide Configure, IsServerEntry, RewriteSettles, CommandNamesCogz, IsCogzServer;
    if RerunsWith(Object(p), bin) {
      var wired := WithArgs("cogz", NAME_PROBE);
      BareIsNamed(NAME_PROBE);
      ProbeMentionsServer("cogz");
      RewriteSpaced(NAME_PROBE, bin);
      HandWiredRun(wired, p, bin);
      HandWiredRun(ProbeCommand(bin), p, bin);
      assert Configure(Configure(Entry(wired), Object(p), bin), Object(p), bin)
             == Configure(Entry(wired), Object(p), bin);
    }
    if StaysRecognised(bin) {
      ServerOfEntry(p, bin);
      forall base
        ensures Configure(Configure(base, Object(p), bin), Object(p), bin) == Configure(base, Object(p), bin)
      {
        if !base.Object? {
          NonObjectRun(base, p, bin);
          NoCommandNoServer(map[]);
          EntryRunTwice(map[], p, bin);
        } else if IsCogzServer(base.fields) && IsCogzServer(p) {
          ServerRunTwice(base.fields, p, bin);
        } else {
          EntryRunTwice(base.fields, p, bin);
        }
      }
    }
  }

  lemma ServerOfEntry(p: Fields, bin: string)
    requires IsServerEntry(p, bin)
    ensures IsCogzServer(p) <==> CommandNamesCogz(bin)
  {
    EntryIsServer(p, bin);
  }

  lemma SettingsRerun(h: Harness, bin: string)
    requires RewriteSettles(bin)
    ensures var e := ServerEntry(bin, ServerSettings(h)); e.Object? && IsServerEntry(e.fields, bin)
  {
    hide RewriteSettles, RerunsWith;
    var p := ServerEntry(bin, ServerSettings(h)).fields;
    forall k | k in p && k != "command" ensures RerunsWith(p[k], bin) {
      if p[k].Array? {
        StringListReruns(p[k].items[0].s, bin);
      } else {
        ScalarReruns(p[k], bin);
      }
    }
  }

  lemma StringListReruns(s: string, bin: string)
    requires RewriteSettles(bin)
    ensures RerunsWith(Array([String(s)]), bin)
  {
    hide RewriteSettles, RerunsWith, IsStableItem;
    FixedItemIsStable(String(s), bin);
    StableArrayReruns([String(s)], bin);
  }

  lemma ServersRerunExactly(h: Harness, bin: string)
    ensures RerunsWith(ServersField(h, bin), bin) <==> RewriteSettles(bin) && StaysRecognised(bin)
  {
    hide RewriteSettles, RerunsWith, ServerEntry, StaysRecognised;
    var p := map["cogz" := ServerEntry(bin, ServerSettings(h))];
    ObjectRerunsExactly(p, bin);
    OneField("cogz", ServerEntry(bin, ServerSettings(h)), bin);
    if RewriteSettles(bin) {
      SettingsRerun(h, bin);
      EntryRerunsExactly(ServerEntry(bin, ServerSettings(h)).fields, bin);
    }
  }

  lemma OneField(k: string, v: Value, bin: string)
    ensures (forall j | j in map[k := v] :: RerunsWith(map[k := v][j], bin)) <==> RerunsWith(v, bin)
  {
    hide RerunsWith;
    assert map[k := v][k] == v && k in map[k := v];
  }

  // ─── Hook tables ────────────────────────────────────────────────

  /** No two hooks of one event share a matcher, and every verb and flag is an ordinary word. */
  ghost predicate IsTable(hooks: seq<Hook>) {
    (forall h | h in hooks :: AreEventArgs(h.verb, h.flags) && h.event != "command") && DistinctPlaces(hooks)
  }

  ghost predicate DistinctPlaces(hooks: seq<Hook>) {
    forall i, j | 0 <= i < j < |hooks| :: hooks[i].event != hooks[j].event || hooks[i].matcher != hooks[j].matcher
  }

  ghost predicate IsPlainStyle(style: Style) {
    style.timeoutKey !in {"command", "hooks", "matcher"}
    && forall k | k in style.settings :: k !in {"command", "hooks", "matcher"}
  }

  function KeysOf(bin: string, hooks: seq<Hook>): (r: seq<Keyed>)
    ensures |r| == |hooks|
  {
    seq(|hooks|, i requires 0 <= i < |hooks| => Keyed(hooks[i].matcher, EventKey(bin, hooks[i].verb, hooks[i].flags)))
  }

  lemma {:induction false} OfEventExact(hooks: seq<Hook>, e: string)
    ensures forall h :: h in OfEvent(hooks, e) <==> h in hooks && h.event == e
  {
    if hooks != [] {
      OfEventExact(hooks[1..], e);
      assert hooks == [hooks[0]] + hooks[1..];
    }
  }

  ghost predicate DistinctMatchers(hooks: seq<Hook>) {
    forall i, j | 0 <= i < j < |hooks| :: hooks[i].matcher != hooks[j].matcher
  }

  lemma {:induction false} OfEventMatchers(hooks: seq<Hook>, e: string)
    requires DistinctPlaces(hooks)
    ensures DistinctMatchers(OfEvent(hooks, e))
  {
    hide DistinctMatchers;
    if hooks == [] {
      NoMatchers();
    } else {
      var rest := hooks[1..];
      OfEventMatchers(rest, e);
      OfEventExact(rest, e);
      var later := OfEvent(rest, e);
      forall h | h in later && hooks[0].event == e ensures h.matcher != hooks[0].matcher {
        var k :| 0 <= k < |rest| && rest[k] == h;
        assert hooks[k + 1] == h;
      }
      if hooks[0].event == e {
        PrependMatcher(hooks[0], later);
      } else {
        assert [] + later == later;
      }
    }
  }

  lemma NoMatchers()
    ensures DistinctMatchers([])
  {
  }

  lemma PrependMatcher(h: Hook, rest: seq<Hook>)
    requires DistinctMatchers(rest) && forall g | g in rest :: g.matcher != h.matcher
    ensures DistinctMatchers([h] + rest)
  {
    assert forall i | 0 <= i < |rest| :: rest[i] in rest;
  }

  lemma HookEntryCommand(bin: string, style: Style, h: Hook)
    requires IsPlainStyle(style)
    ensures HookEntry(bin, style, h).Object?
    ensures var f := HookEntry(bin, style, h).fields;
            "command" in f && f["command"] == String(HookLine(bin, h)) && "hooks" !in f && "matcher" !in f
  {
    hide HookLine;
  }

  lemma HookItemKey(bin: string, style: Style, h: Hook)
    requires IsPlainStyle(style) && (!style.grouped ==> h.matcher == "")
    ensures HookKeyOf(HookItem(bin, style, h)) == JsonMerge.Some(HookKey(h.matcher, [EventKey(bin, h.verb, h.flags)]))
  {
    hide HookLine, HookEntry, CommandKey;
    var entry := HookEntry(bin, style, h);
    HookEntryCommand(bin, style, h);
    assert CommandKey(HookLine(bin, h)) == EventKey(bin, h.verb, h.flags) by { LineKey(bin, h); }
    if style.grouped {
      var item := HookItem(bin, style, h);
      assert item.fields["hooks"] == Array([entry]) && item.fields.Keys <= {"matcher", "hooks"};
      assert forall x | x in [entry] :: x == entry;
      assert HookCommand(entry) == JsonMerge.Some(HookLine(bin, h));
      assert HookKeyOf(item).value.commands == [CommandKey(HookLine(bin, h))];
    }
  }

  lemma LineKey(bin: string, h: Hook)
    ensures CommandKey(HookLine(bin, h)) == EventKey(bin, h.verb, h.flags)
  {
    hide CommandKey, EventArgs;
  }

  lemma EventListRerunsExactly(bin: string, style: Style, hooks: seq<Hook>)
    requires IsPlainStyle(style) && forall h | h in hooks :: AreEventArgs(h.verb, h.flags)
    requires forall h | h in hooks :: !style.grouped ==> h.matcher == ""
    requires DistinctMatchers(hooks)
    ensures RerunsWith(Array(HookItems(bin, style, hooks)), bin)
            <==> RewriteSettles(bin) && forall h | h in hooks :: HookStays(bin, h.verb, h.flags)
  {
    hide RerunsWith, RewriteSettles, HookStays, AreEventArgs, IsStableKey, EventKey, HookItem, HookKeyOf;
    var items, keys := HookItems(bin, style, hooks), KeysOf(bin, hooks);
    forall i | 0 <= i < |items| ensures HookKeyOf(items[i]) == JsonMerge.Some(HookKey(keys[i].matcher, [keys[i].key])) {
      assert hooks[i] in hooks;
      HookItemKey(bin, style, hooks[i]);
    }
    HookListRerunsExactly(items, keys, bin);
    forall i | 0 <= i < |hooks|
      ensures IsStableKey(keys[i].key, bin) <==> HookStays(bin, hooks[i].verb, hooks[i].flags)
    {
      assert hooks[i] in hooks;
      StableExactly(bin, hooks[i].verb, hooks[i].flags);
    }
  }

  /** A table of hooks reruns as a no-op on every config exactly when the rewrite settles and every hook
      passes its probes. */
  lemma HooksRerunExactly(bin: string, style: Style, hooks: seq<Hook>)
    requires IsTable(hooks) && IsPlainStyle(style) && forall h | h in hooks :: !style.grouped ==> h.matcher == ""
    ensures RerunsWith(HooksField(bin, style, hooks), bin)
            <==> RewriteSettles(bin) && forall h | h in hooks :: HookStays(bin, h.verb, h.flags)
  {
    hide RerunsWith, RewriteSettles, HookStays, AreEventArgs, HookItems, OfEvent, IsPlainStyle;
    var p := HooksField(bin, style, hooks).fields;
    assert "command" !in p;
    ObjectRerunsExactly(p, bin);
    forall e | e in p
      ensures RerunsWith(p[e], bin)
              <==> RewriteSettles(bin) && forall h | h in hooks && h.event == e :: HookStays(bin, h.verb, h.flags)
    {
      OfEventExact(hooks, e);
      OfEventMatchers(hooks, e);
      EventListRerunsExactly(bin, style, OfEvent(hooks, e));
    }
    assert forall h | h in hooks :: h.event in p;
  }
}
