/** What one run of the configurator leaves in a harness's files, whatever they held: every hook runs and the server
    is wired (src/configure/harnesses.rs, src/configure/hook_payloads.rs). */
module InstallLaws {
  import opened Text
  import opened CommandKeys
  import opened CommandKeyLaws
  import opened CommandNames
  import opened HookKeys
  import opened HookKeyLaws
  import opened JsonMerge
  import opened JsonMergeLaws
  import opened JsonRerunLaws
  import opened GeneratedPatches
  import opened GeneratedRerunLaws
  import opened ConfigureLaws

  // ─── Hooks ──────────────────────────────────────────────────────

  /** Under its event stands an element with the hook's matcher that reports its verb to cogz. */
  ghost predicate RunsHook(hooks: Value, h: Hook) {
    && hooks.Object? && h.event in hooks.fields && hooks.fields[h.event].Array?
    && exists x | x in hooks.fields[h.event].items && HookKeyOf(x).Some? ::
         HookKeyOf(x).value.matcher == h.matcher && ("cogz-event:" + h.verb) in HookKeyOf(x).value.commands
  }

  lemma EventArgsShape(verb: string, flags: seq<string>) returns (more: string)
    ensures EventArgs(verb, flags) == WithArgs("capture-event", verb + more)
    ensures more == "" || IsWhitespace(more[0])
  {
    var c := "capture-event";
    var words := [c, verb] + flags;
    assert words[1..] == [verb] + flags && words[1..][1..] == flags;
    more := if flags == [] then "" else " " + Join(flags, " ");
    assert Join(words[1..], " ") == verb + more;
  }

  lemma NamedEventKey(bin: string, verb: string, flags: seq<string>)
    requires NamesCogz(ShellArgv0(bin)) && IsToken(verb)
    ensures EventKey(bin, verb, flags) == "cogz-event:" + verb
  {
    hide NamesCogz, EventArgs, CommandKey;
    var more := EventArgsShape(verb, flags);
    EventReducesToVerb(ShellArgv0(bin), verb, more);
  }

  lemma HookInTable(h: Harness, k: Hook)
    requires k in Hooks(h)
    ensures AreEventArgs(k.verb, k.flags) && IsToken(k.verb) && k.event != "command"
    ensures IsPlainStyle(StyleOf(h)) && (!StyleOf(h).grouped ==> k.matcher == "")
  {
    hide Hooks, IsToken, IsPlainStyle;
    HarnessTable(h);
    assert k.verb in [k.verb] + k.flags;
  }

  /** A list that holds the item keeps something that covers it through the repair. */
  lemma ItemSurvives(h: Harness, bin: string, k: Hook, base: Value, items: seq<Value>)
    requires k in Hooks(h) && NamesCogz(ShellArgv0(bin)) && HookItem(bin, StyleOf(h), k) in items
    ensures var r := Configure(base, Array(items), bin);
            r.Array? && exists x | x in r.items && HookKeyOf(x).Some? ::
              HookKeyOf(x).value.matcher == k.matcher && ("cogz-event:" + k.verb) in HookKeyOf(x).value.commands
  {
    hide NamesCogz, Hooks, HookKeyOf, Covers, HookItem, EventKey, AreEventArgs, IsPlainStyle, IsStableItem, HookStays;
    var item := HookItem(bin, StyleOf(h), k);
    HookInTable(h, k);
    HookItemKey(bin, StyleOf(h), k);
    NamedEventKey(bin, k.verb, k.flags);
    NamedHooksStay(bin, k.verb, k.flags);
    StableExactly(bin, k.verb, k.flags);
    StableKeyIsStableItem(item, k.matcher, EventKey(bin, k.verb, k.flags), bin);
    var m := Merge(base, Array(items));
    MergeInstalls(base, Array(items));
    CoverageSurvives(m.items, item, bin);
    var x :| x in Upgrade(m, bin).items && Covers(x, item);
    CoversKeyed(x, item, k.matcher, EventKey(bin, k.verb, k.flags));
  }

  /** After a run on any config each hook of the harness is there and reports to cogz. */
  lemma EveryHookRuns(h: Harness, bin: string, base: Value, k: Hook)
    requires NamesCogz(ShellArgv0(bin)) && k in Hooks(h)
    ensures RunsHook(Configure(base, HarnessHooks(h, bin), bin), k)
  {
    hide NamesCogz, Hooks, HookKeyOf, HookItem, Configure, IsPlainStyle, AreEventArgs;
    var p := HarnessHooks(h, bin).fields;
    HookInTable(h, k);
    OfEventExact(Hooks(h), k.event);
    var here := OfEvent(Hooks(h), k.event);
    var items := HookItems(bin, StyleOf(h), here);
    var i :| 0 <= i < |here| && here[i] == k;
    assert items[i] == HookItem(bin, StyleOf(h), k) && items[i] in items;
    assert p[k.event] == Array(items);
    NoCommandEvent(h, bin);
    var before := FieldOf(base, k.event);
    ItemSurvives(h, bin, k, before, items);
    RunOfField(base, p, k.event, bin);
  }

  lemma NoCommandEvent(h: Harness, bin: string)
    ensures "command" !in HarnessHooks(h, bin).fields
  {
    hide Hooks, HookItem, IsToken, IsPlainStyle;
    forall k | k in Hooks(h) ensures k.event != "command" { HookInTable(h, k); }
  }

  /** What stands under a key before the run; nothing reads like null. */
  function FieldOf(base: Value, k: string): Value {
    if base.Object? && k in base.fields then base.fields[k] else Null
  }

  /** A run on a config is a run on each field of the patch. */
  lemma RunOfField(base: Value, p: Fields, k: string, bin: string)
    requires k in p && k != "command" && "command" !in p && (p[k].Object? || p[k].Array?)
    ensures var r := Configure(base, Object(p), bin);
            && r.Object? && k in r.fields && r.fields[k] == Configure(FieldOf(base, k), p[k], bin)
  {
    hide Upgrade, Merge;
    NoCommandNoServer(p);
    NullRun(p[k], bin);
    if base.Object? {
      FieldsOfRun(base.fields, p, bin);
    } else {
      FieldsOfRun(map[], p, bin);
      NonObjectRun(base, p, bin);
    }
  }

  lemma NullRun(v: Value, bin: string)
    ensures Configure(Null, v, bin) == Upgrade(v, bin)
  {
  }

  /** The same inside the file, for the harnesses that keep hooks under a field of their own. */
  lemma EveryHookRunsInFile(h: Harness, bin: string, base: Value, k: Hook)
    requires NamesCogz(ShellArgv0(bin)) && k in Hooks(h)
    ensures var r := Configure(base, HooksFile(h, bin), bin);
            r.Object? && "hooks" in r.fields && RunsHook(r.fields["hooks"], k)
    ensures var r := Configure(base, VersionedHooksFile(h, bin), bin);
            r.Object? && "hooks" in r.fields && RunsHook(r.fields["hooks"], k)
  {
    hide NamesCogz, Hooks, Configure, RunsHook;
    EveryHookRuns(h, bin, FieldOf(base, "hooks"), k);
    RunOfField(base, HooksFile(h, bin).fields, "hooks", bin);
    RunOfField(base, VersionedHooksFile(h, bin).fields, "hooks", bin);
  }

  /** Where a harness keeps its hooks in the file that has them: under a field, but for Devin's project file. */
  function HooksIn(h: Harness, scope: Scope, file: Value): Value {
    if h.Devin? && scope.Project? then file else FieldOf(file, "hooks")
  }

  ghost predicate InstallsHook(h: Harness, scope: Scope, bin: string, patch: Value, k: Hook) {
    forall base :: RunsHook(HooksIn(h, scope, Configure(base, patch, bin)), k)
  }

  /** Every harness, in every scope, has a patch that wires each of its hooks into any config. */
  lemma EveryHarnessIsWired(h: Harness, scope: Scope, bin: string, k: Hook)
    requires NamesCogz(ShellArgv0(bin)) && k in Hooks(h)
    ensures exists patch | patch in Patches(h, scope, bin) :: InstallsHook(h, scope, bin, patch, k)
  {
    hide NamesCogz, Hooks, Configure, RunsHook, HarnessHooks, ServersField;
    var patches := Patches(h, scope, bin);
    var patch := patches[|patches| - 1];
    assert patch in patches;
    forall base ensures RunsHook(HooksIn(h, scope, Configure(base, patch, bin)), k) {
      EveryHookRuns(h, bin, base, k);
      EveryHookRunsInFile(h, bin, base, k);
      if h.Gemini? {
        EveryHookRuns(h, bin, FieldOf(base, "hooks"), k);
        SharedFile(h, bin, base);
      }
    }
    assert InstallsHook(h, scope, bin, patch, k);
  }

  lemma SharedFile(h: Harness, bin: string, base: Value)
    ensures var p := map["mcpServers" := ServersField(h, bin), "hooks" := HarnessHooks(h, bin)];
            var r := Configure(base, Object(p), bin);
            FieldOf(r, "hooks") == Configure(FieldOf(base, "hooks"), HarnessHooks(h, bin), bin)
  {
    hide Configure, Hooks;
    RunOfField(base, map["mcpServers" := ServersField(h, bin), "hooks" := HarnessHooks(h, bin)], "hooks", bin);
  }

  // ─── What a hook says ───────────────────────────────────────────

  function Verbs(hooks: seq<Hook>): seq<string> {
    seq(|hooks|, i requires 0 <= i < |hooks| => hooks[i].verb)
  }

  /** What each harness reports, event by event: all of them session starts, prompts, tool uses, session ends and
      stops, all but Copilot saved files, and all but Copilot a session start after compaction. */
  lemma ReportedVerbs(h: Harness)
    ensures Verbs(Hooks(h)) ==
            ["session_start", "prompt_submit", "post_tool_use"] + (if h.Copilot? then [] else ["file_save"])
            + ["session_end", "stop"] + (if h.Copilot? then [] else ["session_start"])
  {
  }

  /** An entry runs the hook's command, with its timeout under the harness's name for it and the fields the harness
      asks for, and says nothing else. */
  lemma EntrySays(h: Harness, bin: string, k: Hook)
    ensures HookEntry(bin, StyleOf(h), k) == Object(
              match h
              case Cursor => map["command" := String(HookLine(bin, k)), "timeout" := Number(k.timeout)]
              case Copilot => map["type" := String("command"), "command" := String(HookLine(bin, k)),
                                  "timeoutSec" := Number(k.timeout)]
              case Gemini => map["name" := String("cogz"), "type" := String("command"),
                                 "command" := String(HookLine(bin, k)), "timeout" := Number(k.timeout)]
              case _ => map["type" := String("command"), "command" := String(HookLine(bin, k)),
                            "timeout" := Number(k.timeout)])
  {
    hide HookLine;
  }

  // ─── Servers ────────────────────────────────────────────────────

  /** The entry runs the server: recognised as one, or with the binary itself and the server's argument. */
  predicate RunsServer(entry: Value, bin: string) {
    entry.Object? &&
    (|| IsCogzServer(entry.fields)
     || (&& "command" in entry.fields && entry.fields["command"] == String(bin)
         && "args" in entry.fields && entry.fields["args"].Array?
         && String("mcp-stdio") in entry.fields["args"].items))
  }

  lemma ServerEntryRuns(h: Harness, bin: string, base: Value)
    requires StaysRecognised(bin) && !("cogz " <= bin)
    ensures RunsServer(Configure(base, ServerEntry(bin, ServerSettings(h)), bin), bin)
  {
    hide Rewrite, IsCogzServer, CommandNamesCogz;
    var p := ServerEntry(bin, ServerSettings(h)).fields;
    var b := if base.Object? then base.fields else map[];
    if base.Object? && IsCogzServer(b) && IsCogzServer(p) {
      RecognisedServerStays(h, b, bin);
    } else {
      assert Rewrite(bin, bin) == bin by { OwnCommandStays(bin); }
      if !base.Object? {
        NoCommandNoServer(b);
        NonObjectRun(base, p, bin);
      }
      FieldsOfRun(b, p, bin);
      var r := Configure(Object(b), Object(p), bin).fields;
      assert "command" in p && p["command"] == String(bin);
      assert r["command"] == String(bin);
      ArgsOfRun(if "args" in b then b["args"] else Null, bin);
      NullRun(p["args"], bin);
      assert p["args"] == Array([String("mcp-stdio")]);
    }
  }

  lemma OwnCommandStays(bin: string)
    requires !("cogz " <= bin)
    ensures Rewrite(bin, bin) == bin
  {
  }

  lemma ArgsOfRun(args: Value, bin: string)
    ensures var r := Configure(args, Array([String("mcp-stdio")]), bin);
            r.Array? && String("mcp-stdio") in r.items
  {
    hide HookKeyOf;
    var item := String("mcp-stdio");
    var m := Merge(args, Array([item]));
    MergeInstalls(args, Array([item]));
    assert item in [item];
    assert CoveredBy(m.items, item);
    var x :| x in m.items && Covers(x, item);
    assert x == item by { StringIsNoHook("mcp-stdio"); }
    var i :| 0 <= i < |m.items| && m.items[i] == item;
    assert Upgrade(m, bin).items[i] == item;
  }

  lemma StringIsNoHook(s: string)
    ensures HookKeyOf(String(s)).None?
  {
  }

  lemma RecognisedServerStays(h: Harness, b: Fields, bin: string)
    requires StaysRecognised(bin) && IsCogzServer(b) && IsCogzServer(ServerEntry(bin, ServerSettings(h)).fields)
    ensures RunsServer(Configure(Object(b), ServerEntry(bin, ServerSettings(h)), bin), bin)
  {
    hide Rewrite, Contains, Argv0Base, SplitArgv0;
    var p := ServerEntry(bin, ServerSettings(h)).fields;
    assert p["command"] == String(bin) && CommandNamesCogz(bin);
    NameSurvivesIffRecognised(bin);
    ServerCommandNamed(b);
    UpgradeKeepsServer(b, Upgrade(Object(b), bin).fields, bin);
  }

  /** After a run on any config the harness's servers hold one that runs cogz. */
  lemma ServerRuns(h: Harness, bin: string, base: Value)
    requires StaysRecognised(bin) && !("cogz " <= bin)
    ensures var r := Configure(base, ServersFile(h, bin), bin);
            && r.Object? && "mcpServers" in r.fields && r.fields["mcpServers"].Object?
            && "cogz" in r.fields["mcpServers"].fields
            && RunsServer(r.fields["mcpServers"].fields["cogz"], bin)
  {
    hide Configure, RunsServer, StaysRecognised;
    var servers := FieldOf(base, "mcpServers");
    ServerEntryRuns(h, bin, FieldOf(servers, "cogz"));
    RunOfField(servers, ServersField(h, bin).fields, "cogz", bin);
    RunOfField(base, ServersFile(h, bin).fields, "mcpServers", bin);
  }
}
