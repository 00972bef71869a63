/** "Re-running is a no-op" (src/configure/mod.rs): the promise for each harness, and where it breaks. */
module ConfigureLaws {
  import opened Text
  import opened CommandKeys
  import opened CommandKeyLaws
  import opened CommandNames
  import opened HookKeys
  import opened HookKeyLaws
  import opened JsonMerge
  import opened JsonMergeLaws
  import opened JsonRerunLaws
  import opened GeneratedPatches
  import opened GeneratedRerunLaws
  import opened ProgramNames
  import Toml = TomlMerge

  // ─── The hook tables ────────────────────────────────────────────

  const VERBS := {"session_start", "prompt_submit", "post_tool_use", "file_save", "session_end", "stop"}
  const FLAGS := {JSON, FTS, RECORD, "--hook-format", "cursor", "copilot"}

  predicate IsOrdinary(w: string) {
    w != "" && w != "cogz" && '"' !in w && forall c | c in w :: !IsWhitespace(c)
  }

  lemma SessionVerbsAreOrdinary()
    ensures IsOrdinary("session_start") && IsOrdinary("session_end") && IsOrdinary("stop")
  {
  }

  lemma OtherVerbsAreOrdinary()
    ensures IsOrdinary("prompt_submit") && IsOrdinary("post_tool_use") && IsOrdinary("file_save")
  {
  }

  lemma VerbsAreOrdinary(w: string)
    requires w in VERBS
    ensures IsOrdinary(w)
  {
    hide IsOrdinary;
    SessionVerbsAreOrdinary();
    OtherVerbsAreOrdinary();
  }

  lemma OptionsAreOrdinary()
    ensures IsOrdinary(JSON) && IsOrdinary(FTS) && IsOrdinary(RECORD)
  {
  }

  lemma FormatsAreOrdinary()
    ensures IsOrdinary("--hook-format") && IsOrdinary("cursor") && IsOrdinary("copilot")
  {
  }

  lemma FlagsAreOrdinary(w: string)
    requires w in FLAGS
    ensures IsOrdinary(w)
  {
    hide IsOrdinary;
    OptionsAreOrdinary();
    FormatsAreOrdinary();
  }

  lemma KnownWordsAreArgs(verb: string, flags: seq<string>)
    requires verb in VERBS && forall f | f in flags :: f in FLAGS
    ensures AreEventArgs(verb, flags)
  {
    hide IsOrdinary;
    forall w | w in [verb] + flags ensures IsOrdinary(w) {
      if w == verb { VerbsAreOrdinary(w); } else { FlagsAreOrdinary(w); }
    }
    OrdinaryWordsAreArgs(verb, flags);
  }

  lemma OrdinaryWordsAreArgs(verb: string, flags: seq<string>)
    requires forall w | w in [verb] + flags :: IsOrdinary(w)
    ensures AreEventArgs(verb, flags)
  {
  }

  /** A hook of known words whose place is known. */
  predicate IsKnown(h: Hook) {
    h.verb in VERBS && (forall f | f in h.flags :: f in FLAGS) && h.event != "command"
  }

  lemma KnownTable(hooks: seq<Hook>)
    requires (forall h | h in hooks :: IsKnown(h)) && DistinctPlaces(hooks)
    ensures IsTable(hooks)
  {
    hide AreEventArgs;
    forall h | h in hooks ensures AreEventArgs(h.verb, h.flags) && h.event != "command" {
      KnownWordsAreArgs(h.verb, h.flags);
    }
  }

  lemma CanonicalKnown(edit: string, timeout: string)
    ensures forall h | h in CanonicalHooks(edit, timeout) :: IsKnown(h)
  {
  }

  lemma HooksKnown(h: Harness)
    ensures forall k | k in Hooks(h) :: IsKnown(k)
  {
    hide IsKnown;
    match h
    case ClaudeCode => CanonicalKnown("Edit|Write|MultiEdit|NotebookEdit", "30"); LastKnown();
    case Codex => CanonicalKnown("Edit|Write|NotebookEdit|apply_patch|edit|write", "3"); LastKnown();
    case Devin => CanonicalKnown("edit|write|notebook_edit", "30"); LastKnown();
    case Cursor => FlatKnown();
    case Copilot => FlatKnown();
    case Gemini => GeminiKnown();
  }

  lemma LastKnown()
    ensures IsKnown(COMPACTED) && IsKnown(Hook("PostCompaction", "", "session_start", [FTS, JSON], "15"))
  {
  }

  lemma FlatKnown()
    ensures forall k | k in Hooks(Cursor) + Hooks(Copilot) :: IsKnown(k)
  {
  }

  lemma GeminiKnown()
    ensures forall k | k in Hooks(Gemini) :: IsKnown(k)
  {
  }

  lemma GroupedDistinct(h: Harness)
    requires h.ClaudeCode? || h.Codex? || h.Devin?
    ensures DistinctPlaces(Hooks(h))
  {
  }

  lemma FlatDistinct(h: Harness)
    requires h.Cursor? || h.Copilot?
    ensures DistinctPlaces(Hooks(h))
  {
  }

  lemma GeminiDistinct()
    ensures DistinctPlaces(Hooks(Gemini))
  {
  }

  lemma HarnessTable(h: Harness)
    ensures IsTable(Hooks(h)) && IsPlainStyle(StyleOf(h))
    ensures forall k | k in Hooks(h) :: !StyleOf(h).grouped ==> k.matcher == ""
  {
    hide IsTable, Hooks, IsKnown, DistinctPlaces;
    HooksKnown(h);
    if h.Gemini? {
      GeminiDistinct();
    } else if h.Cursor? || h.Copilot? {
      FlatDistinct(h);
    } else {
      GroupedDistinct(h);
    }
    KnownTable(Hooks(h));
    FlatHooksHaveNoMatcher(h);
  }

  lemma FlatHooksHaveNoMatcher(h: Harness)
    ensures forall k | k in Hooks(h) :: !StyleOf(h).grouped ==> k.matcher == ""
  {
  }

  // ─── Every harness ──────────────────────────────────────────────

  /** Every hook passes its probes. */
  predicate HooksStay(h: Harness, bin: string) {
    forall k | k in Hooks(h) :: HookStays(bin, k.verb, k.flags)
  }

  lemma HarnessHooksRerun(h: Harness, bin: string)
    ensures RerunsWith(HarnessHooks(h, bin), bin) <==> RewriteSettles(bin) && HooksStay(h, bin)
  {
    hide RerunsWith, RewriteSettles, HookStays, HooksField, Hooks, IsTable, IsPlainStyle;
    HarnessTable(h);
    HooksRerunExactly(bin, StyleOf(h), Hooks(h));
  }

  /** Commands a caller can key and name before touching any file. */
  predicate PassesProbes(h: Harness, bin: string) {
    !("cogz " <= bin) && (h.Codex? || StaysRecognised(bin)) && HooksStay(h, bin)
  }

  lemma FileReruns(fields: Fields, bin: string)
    requires "command" !in fields && RewriteSettles(bin)
    ensures RerunsWith(Object(fields), bin) <==> forall k | k in fields :: RerunsWith(fields[k], bin)
  {
    hide RerunsWith, RewriteSettles;
    ObjectRerunsExactly(fields, bin);
  }

  lemma FilesSettle(h: Harness, scope: Scope, bin: string)
    requires RerunsWith(Patches(h, scope, bin)[0], bin)
    ensures RewriteSettles(bin)
  {
    hide RerunsWith, RewriteSettles, ServersField, HarnessHooks;
    var p := Patches(h, scope, bin)[0];
    assert "command" !in p.fields;
    RerunSettles(p.fields, bin);
  }

  lemma FilesRerun(h: Harness, scope: Scope, bin: string)
    requires RewriteSettles(bin)
    ensures RerunsWith(ServersFile(h, bin), bin) <==> StaysRecognised(bin)
    ensures RerunsWith(HooksFile(h, bin), bin) <==> HooksStay(h, bin)
    ensures RerunsWith(VersionedHooksFile(h, bin), bin) <==> HooksStay(h, bin)
    ensures RerunsWith(Object(map["mcpServers" := ServersField(h, bin), "hooks" := HarnessHooks(h, bin)]), bin)
            <==> StaysRecognised(bin) && HooksStay(h, bin)
  {
    hide RerunsWith, RewriteSettles, ServersField, HarnessHooks, StaysRecognised, HooksStay;
    ServersRerunExactly(h, bin);
    HarnessHooksRerun(h, bin);
    ScalarReruns(Number("1"), bin);
    TwoFields("mcpServers", ServersField(h, bin), "mcpServers", ServersField(h, bin), bin);
    TwoFields("hooks", HarnessHooks(h, bin), "hooks", HarnessHooks(h, bin), bin);
    TwoFields("version", Number("1"), "hooks", HarnessHooks(h, bin), bin);
    TwoFields("mcpServers", ServersField(h, bin), "hooks", HarnessHooks(h, bin), bin);
    SameFieldTwice("mcpServers", ServersField(h, bin));
    SameFieldTwice("hooks", HarnessHooks(h, bin));
  }

  lemma SameFieldTwice(k: string, v: Value)
    ensures map[k := v, k := v] == map[k := v]
  {
  }

  lemma TwoFields(k: string, v: Value, l: string, w: Value, bin: string)
    requires RewriteSettles(bin) && k != "command" && l != "command" && (k == l ==> v == w)
    ensures RerunsWith(Object(map[k := v, l := w]), bin) <==> RerunsWith(v, bin) && RerunsWith(w, bin)
  {
    hide RerunsWith, RewriteSettles;
    var fields := map[k := v, l := w];
    FileReruns(fields, bin);
    assert k in fields && l in fields && fields[k] == v && fields[l] == w;
  }

  /** For every harness and scope: configuring a second time changes none of its JSON files, whatever they
      held before, exactly when the binary passes the harness's probes. */
  lemma HarnessRerunsExactly(h: Harness, scope: Scope, bin: string)
    ensures (forall patch | patch in Patches(h, scope, bin) :: RerunsWith(patch, bin)) <==> PassesProbes(h, bin)
  {
    hide RerunsWith, RewriteSettles, ServersFile, HooksFile, VersionedHooksFile, HarnessHooks, ServersField,
      HooksStay, StaysRecognised;
    RewriteSettlesExactly(bin);
    var patches := Patches(h, scope, bin);
    assert patches[0] in patches;
    if RerunsWith(patches[0], bin) { FilesSettle(h, scope, bin); }
    if RewriteSettles(bin) {
      FilesRerun(h, scope, bin);
      HarnessHooksRerun(h, bin);
      if |patches| > 1 { assert patches[1] in patches; }
      assert forall patch | patch in patches :: patch == patches[0] || (|patches| > 1 && patch == patches[1]);
    }
  }

  /** The promise holds wherever cogz is installed under its own name, with spaces in the path or not: on
      JSON and on TOML, for every harness and every existing config. */
  lemma OwnNameReruns(h: Harness, scope: Scope, bin: string)
    requires Argv0Base(bin) == "cogz" && '"' !in bin && !("cogz " <= bin)
    ensures forall patch | patch in Patches(h, scope, bin) :: RerunsWith(patch, bin)
    ensures Toml.RerunsWith(Toml.ServersPatch(bin), bin)
  {
    hide RerunsWith, HookStays, Patches, Hooks, NamesCogz, Argv0Base;
    QuotelessNamesCogz(bin);
    NamesCogzIsRecognised(bin, "");
    forall k | k in Hooks(h) ensures HookStays(bin, k.verb, k.flags) { NamedHooksStay(bin, k.verb, k.flags); }
    HarnessRerunsExactly(h, scope, bin);
    Toml.GeneratedRerunExactly(bin);
  }

  /** In particular for a path with a space that is not usable for arbitrary patches. */
  lemma SpacedPathReruns(h: Harness, scope: Scope, bin: string)
    requires bin == "/opt/my tools/cogz"
    ensures forall patch | patch in Patches(h, scope, bin) :: RerunsWith(patch, bin)
  {
    hide RerunsWith, Patches, Argv0Base;
    SpacedPathName(bin);
    OwnNameReruns(h, scope, bin);
  }

  lemma SpacedPathName(bin: string)
    requires bin == "/opt/my tools/cogz"
    ensures Argv0Base(bin) == "cogz" && '"' !in bin && !("cogz " <= bin)
  {
    hide Argv0Base;
    SpacedPathChars(bin);
    CogzIn("/opt/my tools");
    assert bin == "/opt/my tools" + "/" + "cogz";
  }

  lemma SpacedPathChars(bin: string)
    requires bin == "/opt/my tools/cogz"
    ensures '"' !in bin && !("cogz " <= bin)
  {
    assert bin[0] == '/' && "cogz "[0] == 'c';
  }

  lemma CogzIn(dir: string)
    ensures Argv0Base(dir + "/" + "cogz") == "cogz"
  {
    hide Argv0Base;
    assert "cogz"[0] != ".exe"[0];
    PathBase(dir, "cogz");
  }

  // ─── Where it breaks ────────────────────────────────────────────

  /** A binary renamed inside a directory whose name starts like cogz and has a space. */
  lemma RenamedBinaryNames(bin: string)
    requires bin == "/opt/cogz builds/nightly"
    ensures CommandNamesCogz(bin) && !CommandNamesCogz(WithArgs(ShellArgv0(bin), "mcp-stdio"))
  {
    hide ClosedHead, HeadArgv0, CommandNamesCogz;
    RawNames(bin);
    QuotedNames(bin);
  }

  lemma RawNames(bin: string)
    requires bin == "/opt/cogz builds/nightly"
    ensures CommandNamesCogz(bin)
  {
    hide ClosedHead, HeadArgv0, SplitArgv0, Argv0Base;
    var u := "/opt/cogz";
    assert bin == WithArgs(u, "builds/nightly");
    PathHead(u);
    SplitAfterHead(u, "builds/nightly");
    PathBase("/opt", "cogz");
    assert u == "/opt" + "/" + "cogz";
  }

  lemma PathHead(u: string)
    requires u != "" && u[0] != '"' && forall c | c in u :: !IsWhitespace(c)
    ensures ClosedHead(u) && HeadArgv0(u) == (u, "")
  {
    assert u[0] in u;
    NoWhitespace(u);
    assert u[..|u|] == u && u[|u|..] == "";
  }

  lemma PathBase(dir: string, name: string)
    requires IsFileName(name) && !EndsWith(name, ".exe")
    ensures Argv0Base(dir + "/" + name) == name
  {
    hide EndsWith, Argv0Base;
    assert dir + "/" + name == dir + ['/'] + name;
    NameInDirectory(dir, '/', name);
  }

  lemma QuotedNames(bin: string)
    requires bin == "/opt/cogz builds/nightly"
    ensures !CommandNamesCogz(WithArgs(ShellArgv0(bin), "mcp-stdio"))
  {
    hide ClosedHead, HeadArgv0, SplitArgv0, Argv0Base, ShellArgv0, IsWhitespace;
    RenamedPath(bin);
    SpacedProgram(bin, "mcp-stdio");
  }

  lemma RenamedPath(bin: string)
    requires bin == "/opt/cogz builds/nightly"
    ensures (exists c | c in bin :: IsWhitespace(c)) && '"' !in bin && Argv0Base(bin) == "nightly"
  {
    hide Argv0Base;
    RenamedPathChars(bin);
    PathBase("/opt/cogz builds", "nightly");
    assert bin == "/opt/cogz builds" + "/" + "nightly";
  }

  lemma RenamedPathChars(bin: string)
    requires bin == "/opt/cogz builds/nightly"
    ensures (exists c | c in bin :: IsWhitespace(c)) && '"' !in bin
  {
    assert bin[9] in bin && IsWhitespace(bin[9]);
  }

  /** A path with white space is named by its last part once it is quoted. */
  lemma SpacedProgram(bin: string, x: string)
    requires (exists c | c in bin :: IsWhitespace(c)) && '"' !in bin
    ensures CommandNamesCogz(WithArgs(ShellArgv0(bin), x)) <==> Argv0Base(bin) == "cogz"
  {
    hide ClosedHead, HeadArgv0, SplitArgv0, Argv0Base, IsWhitespace;
    QuotedHead(bin);
    SplitAfterHead("\"" + bin + "\"", x);
  }

  /** The config of a server started by hand with a bare command. */
  function HandWiredServers(cmd: string): Value {
    Nested(Entry(cmd))
  }

  function Nested(entry: Value): Value {
    Object(map["mcpServers" := Object(map["cogz" := entry])])
  }

  lemma OneFieldRun(k: string, base: Value, patch: Value, bin: string)
    requires k != "command"
    ensures Configure(Object(map[k := base]), Object(map[k := patch]), bin)
            == Object(map[k := Configure(base, patch, bin)])
  {
    hide IsCogzServer, Upgrade, Merge;
    NoCommandNoServer(map[k := patch]);
    FieldsOfRun(map[k := base], map[k := patch], bin);
    var r := Configure(Object(map[k := base]), Object(map[k := patch]), bin);
    assert r.fields == map[k := Configure(base, patch, bin)];
  }

  lemma ServersRun(h: Harness, cmd: string, bin: string)
    ensures Configure(HandWiredServers(cmd), ServersFile(h, bin), bin)
            == Nested(Configure(Entry(cmd), ServerEntry(bin, ServerSettings(h)), bin))
  {
    hide Configure, ServerEntry;
    var e := ServerEntry(bin, ServerSettings(h));
    OneFieldRun("cogz", Entry(cmd), e, bin);
    OneFieldRun("mcpServers", Object(map["cogz" := Entry(cmd)]), Object(map["cogz" := e]), bin);
  }

  /** The input: this binary, a server entry started by hand as `cogz mcp-stdio`, and the patch generated
      for any harness with a servers file. The first run keeps the entry and writes the binary into its
      command, quoted; the second no longer recognises it and writes its own entry over it. */
  lemma RenamedBinaryRerunChanges(h: Harness, bin: string)
    requires bin == "/opt/cogz builds/nightly"
    ensures var patch := ServersFile(h, bin);
            var first := Configure(HandWiredServers(WithArgs("cogz", "mcp-stdio")), patch, bin);
            && first == HandWiredServers(WithArgs(ShellArgv0(bin), "mcp-stdio"))
            && Configure(first, patch, bin) != first
  {
    hide Configure, CommandNamesCogz, Contains, IsServerEntry, RewriteSettles;
    var bare, quoted := WithArgs("cogz", "mcp-stdio"), WithArgs(ShellArgv0(bin), "mcp-stdio");
    RenamedBinaryNames(bin);
    BareIsNamed("mcp-stdio");
    MentionsServer("cogz");
    RewriteSpaced("mcp-stdio", bin);
    NotBareCogz(bin);
    RewriteSettlesExactly(bin);
    SettingsRerun(h, bin);
    var e := ServerEntry(bin, ServerSettings(h));
    GeneratedRerunLaws.HandWiredRun(bare, e.fields, bin);
    GeneratedRerunLaws.HandWiredRun(quoted, e.fields, bin);
    ServersRun(h, bare, bin);
    ServersRun(h, quoted, bin);
    NestedDiffer(Configure(Entry(quoted), e, bin), Entry(quoted));
  }

  /** The same on TOML, where the second run adds the arguments of its own entry. */
  lemma RenamedBinaryRerunChangesToml(bin: string)
    requires bin == "/opt/cogz builds/nightly"
    ensures var patch := Toml.ServersPatch(bin);
            var first := Toml.Configure(Toml.HandWired(WithArgs("cogz", "mcp-stdio")), patch, bin);
            && first == Toml.HandWired(WithArgs(ShellArgv0(bin), "mcp-stdio"))
            && Toml.Configure(first, patch, bin) != first
  {
    hide Toml.Configure, CommandNamesCogz, Contains;
    RenamedBinaryNames(bin);
    BareIsNamed("mcp-stdio");
    MentionsServer("cogz");
    RewriteSpaced("mcp-stdio", bin);
    Toml.HandWiredRun(WithArgs("cogz", "mcp-stdio"), bin);
    Toml.HandWiredRun(WithArgs(ShellArgv0(bin), "mcp-stdio"), bin);
  }

  lemma NestedDiffer(v: Value, w: Value)
    requires v != w
    ensures Nested(v) != Nested(w)
  {
    assert Nested(v).fields["mcpServers"].fields["cogz"] == v;
    assert Nested(w).fields["mcpServers"].fields["cogz"] == w;
  }

  lemma NotBareCogz(bin: string)
    requires bin == "/opt/cogz builds/nightly"
    ensures !("cogz " <= bin)
  {
    assert bin[0] == '/' && "cogz "[0] == 'c';
  }

  lemma MentionsServer(program: string)
    ensures Contains(WithArgs(program, "mcp-stdio"), "mcp-stdio")
  {
    var s, n := WithArgs(program, "mcp-stdio"), "mcp-stdio";
    var i := |program| + 1;
    assert s[i..i + |n|] == n;
    assert OccursAt(s, n, i);
  }
}
