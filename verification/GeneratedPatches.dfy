/** What the configurator merges into each harness's JSON files (src/configure/harnesses.rs,
    src/configure/hook_payloads.rs), as functions of the binary. */
module GeneratedPatches {
  import opened CommandKeys
  import opened HookKeys
  import opened JsonMerge

  datatype Harness = ClaudeCode | Cursor | Codex | Gemini | Copilot | Devin

  datatype Scope = Project | User

  // ─── Server entries ─────────────────────────────────────────────

  function ServerEntry(bin: string, settings: Fields): Value {
    Object(settings["command" := String(bin)]["args" := Array([String("mcp-stdio")])])
  }

  function ServerSettings(h: Harness): Fields {
    match h
    case Cursor => map["type" := String("stdio")]
    case Copilot => map["type" := String("local"), "tools" := Array([String("*")])]
    case _ => map[]
  }

  function ServersField(h: Harness, bin: string): Value {
    Object(map["cogz" := ServerEntry(bin, ServerSettings(h))])
  }

  // ─── Hooks ──────────────────────────────────────────────────────

  datatype Hook = Hook(event: string, matcher: string, verb: string, flags: seq<string>, timeout: string)

  /** How a harness spells a hook: in a matcher group or flat, with fixed settings and a name for the timeout. */
  datatype Style = Style(grouped: bool, settings: Fields, timeoutKey: string)

  function StyleOf(h: Harness): Style {
    match h
    case Cursor => Style(false, map[], "timeout")
    case Copilot => Style(false, map["type" := String("command")], "timeoutSec")
    case Gemini => Style(true, map["name" := String("cogz"), "type" := String("command")], "timeout")
    case _ => Style(true, map["type" := String("command")], "timeout")
  }

  function HookLine(bin: string, h: Hook): string {
    WithArgs(ShellArgv0(bin), EventArgs(h.verb, h.flags))
  }

  function HookEntry(bin: string, style: Style, h: Hook): Value {
    Object(style.settings[style.timeoutKey := Number(h.timeout)]["command" := String(HookLine(bin, h))])
  }

  function HookItem(bin: string, style: Style, h: Hook): Value {
    if !style.grouped then HookEntry(bin, style, h)
    else
      var hooks := Array([HookEntry(bin, style, h)]);
      Object(if h.matcher == "" then map["hooks" := hooks] else map["matcher" := String(h.matcher), "hooks" := hooks])
  }

  function OfEvent(hooks: seq<Hook>, event: string): seq<Hook> {
    if hooks == [] then [] else (if hooks[0].event == event then [hooks[0]] else []) + OfEvent(hooks[1..], event)
  }

  function HookItems(bin: string, style: Style, hooks: seq<Hook>): (r: seq<Value>)
    ensures |r| == |hooks|
  {
    seq(|hooks|, i requires 0 <= i < |hooks| => HookItem(bin, style, hooks[i]))
  }

  function Events(hooks: seq<Hook>): set<string> {
    set h | h in hooks :: h.event
  }

  /** The event map of a table of hooks. */
  function HooksField(bin: string, style: Style, hooks: seq<Hook>): Value {
    Object(map e | e in Events(hooks) :: Array(HookItems(bin, style, OfEvent(hooks, e))))
  }

  const JSON := "--hook-json"
  const FTS := "--fts-only"
  const RECORD := "--record-only"

  /** The map shared by the Claude-shaped harnesses, but for its last event. */
  function CanonicalHooks(editMatcher: string, sessionEnd: string): seq<Hook> {
    [Hook("SessionStart", "", "session_start", [JSON], "15"),
     Hook("UserPromptSubmit", "", "prompt_submit", [JSON], "15"),
     Hook("PostToolUse", "", "post_tool_use", [JSON, FTS], "10"),
     Hook("PostToolUse", editMatcher, "file_save", [JSON, FTS], "20"),
     Hook("SessionEnd", "", "session_end", [FTS, JSON], sessionEnd),
     Hook("Stop", "", "stop", [FTS, JSON], "5")]
  }

  const COMPACTED := Hook("PostCompact", "", "session_start", [FTS, RECORD, JSON], "15")

  function FlatHook(event: string, verb: string, flags: seq<string>, format: string, timeout: string): Hook {
    Hook(event, "", verb, flags + [JSON, "--hook-format", format], timeout)
  }

  function Hooks(h: Harness): seq<Hook> {
    match h
    case ClaudeCode => CanonicalHooks("Edit|Write|MultiEdit|NotebookEdit", "30") + [COMPACTED]
    case Codex => CanonicalHooks("Edit|Write|NotebookEdit|apply_patch|edit|write", "3") + [COMPACTED]
    case Devin =>
      CanonicalHooks("edit|write|notebook_edit", "30")
      + [Hook("PostCompaction", "", "session_start", [FTS, JSON], "15")]
    case Cursor =>
      [FlatHook("sessionStart", "session_start", [], "cursor", "15"),
       FlatHook("beforeSubmitPrompt", "prompt_submit", [FTS], "cursor", "15"),
       FlatHook("postToolUse", "post_tool_use", [FTS], "cursor", "10"),
       FlatHook("afterFileEdit", "file_save", [FTS], "cursor", "20"),
       FlatHook("sessionEnd", "session_end", [FTS], "cursor", "30"),
       FlatHook("stop", "stop", [FTS], "cursor", "5"),
       FlatHook("preCompact", "session_start", [FTS, RECORD], "cursor", "15")]
    case Copilot =>
      [FlatHook("SessionStart", "session_start", [], "copilot", "15"),
       FlatHook("UserPromptSubmit", "prompt_submit", [FTS], "copilot", "15"),
       FlatHook("PostToolUse", "post_tool_use", [FTS], "copilot", "10"),
       FlatHook("SessionEnd", "session_end", [FTS], "copilot", "30"),
       FlatHook("Stop", "stop", [FTS], "copilot", "5")]
    case Gemini =>
      [Hook("SessionStart", "", "session_start", [JSON], "15000"),
       Hook("BeforeAgent", "*", "prompt_submit", [JSON], "15000"),
       Hook("AfterTool", "", "post_tool_use", [FTS, JSON], "10000"),
       Hook("AfterTool", "write_file|replace|edit|notebook_edit", "file_save", [FTS, JSON], "20000"),
       Hook("SessionEnd", "", "session_end", [FTS, JSON], "30000"),
       Hook("AfterAgent", "*", "stop", [FTS, JSON], "5000"),
       Hook("PreCompress", "", "session_start", [FTS, RECORD, JSON], "15000")]
  }

  // ─── Patches ────────────────────────────────────────────────────

  function HarnessHooks(h: Harness, bin: string): Value {
    HooksField(bin, StyleOf(h), Hooks(h))
  }

  function ServersFile(h: Harness, bin: string): Value {
    Object(map["mcpServers" := ServersField(h, bin)])
  }

  function HooksFile(h: Harness, bin: string): Value {
    Object(map["hooks" := HarnessHooks(h, bin)])
  }

  function VersionedHooksFile(h: Harness, bin: string): Value {
    Object(map["version" := Number("1"), "hooks" := HarnessHooks(h, bin)])
  }

  /** One patch per JSON file of the harness, in the order they are applied. */
  function Patches(h: Harness, scope: Scope, bin: string): seq<Value> {
    match h
    case ClaudeCode => [ServersFile(h, bin), HooksFile(h, bin)]
    case Cursor => [ServersFile(h, bin), VersionedHooksFile(h, bin)]
    case Codex => [HooksFile(h, bin)]
    case Gemini => [Object(map["mcpServers" := ServersField(h, bin), "hooks" := HarnessHooks(h, bin)])]
    case Copilot => [ServersFile(h, bin), VersionedHooksFile(h, bin)]
    case Devin => [ServersFile(h, bin), if scope.Project? then HarnessHooks(h, bin) else HooksFile(h, bin)]
  }
}
