/** Merging generated settings into an existing JSON config (src/configure/mod.rs) and repairing bare
    commands afterwards (src/configure/apply.rs). */
module JsonMerge {
  import opened Text
  import opened CommandKeys

  /** A JSON value. A number is known by its text; an object's keys are unordered. */
  datatype Value =
    | Null
    | Bool(b: bool)
    | Number(repr: string)
    | String(s: string)
    | Array(items: seq<Value>)
    | Object(fields: map<string, Value>)

  type Fields = map<string, Value>

  datatype Option<T> = Some(value: T) | None

  function StringAt(fields: Fields, key: string): Option<string> {
    if key in fields && fields[key].String? then Some(fields[key].s) else None
  }

  // ─── Recognizing what is already wired ──────────────────────────

  /** An MCP server entry that runs `cogz mcp-stdio`. */
  predicate IsCogzServer(fields: Fields) {
    match StringAt(fields, "command")
    case None => false
    case Some(cmd) =>
      && Argv0Base(SplitArgv0(cmd).0) == "cogz"
      && (|| Contains(cmd, "mcp-stdio")
          || ("args" in fields && fields["args"].Array? && String("mcp-stdio") in fields["args"].items))
  }

  function HookCommand(h: Value): Option<string> {
    if h.Object? then StringAt(h.fields, "command") else None
  }

  datatype HookKey = HookKey(matcher: string, commands: seq<string>)

  /** Matcher and command keys of a hook element, in either of its two shapes. */
  function HookKeyOf(v: Value): Option<HookKey> {
    if !v.Object? then None
    else
      var matcher := if StringAt(v.fields, "matcher").Some? then StringAt(v.fields, "matcher").value else "";
      if "hooks" in v.fields && v.fields["hooks"].Array? then
        var hooks := v.fields["hooks"].items;
        if !(v.fields.Keys <= {"matcher", "hooks"}) then None
        else if exists h | h in hooks :: HookCommand(h).None? then None
        else Some(HookKey(matcher, seq(|hooks|, i requires 0 <= i < |hooks| =>
               assert hooks[i] in hooks; CommandKey(HookCommand(hooks[i]).value))))
      else
        match StringAt(v.fields, "command")
        case Some(cmd) => Some(HookKey(matcher, [CommandKey(cmd)]))
        case None => None
  }

  /** `existing` already installs `item`. */
  predicate Covers(existing: Value, item: Value) {
    existing == item ||
    match (HookKeyOf(existing), HookKeyOf(item))
    case (Some(e), Some(i)) => e.matcher == i.matcher && forall c | c in i.commands :: c in e.commands
    case _ => false
  }

  predicate CoveredBy(items: seq<Value>, item: Value) {
    exists x | x in items :: Covers(x, item)
  }

  // ─── Merge ──────────────────────────────────────────────────────

  function AppendUncovered(base: seq<Value>, patch: seq<Value>): seq<Value>
    decreases |patch|
  {
    if patch == [] then base
    else AppendUncovered(if CoveredBy(base, patch[0]) then base else base + [patch[0]], patch[1..])
  }

  function Merge(base: Value, patch: Value): Value
    decreases patch
  {
    match (base, patch)
    case (Object(b), Object(p)) =>
      if IsCogzServer(b) && IsCogzServer(p) then base
      else
        Object(map k | k in b.Keys + p.Keys ::
                 if k !in p then b[k] else if k !in b then p[k] else Merge(b[k], p[k]))
    case (Array(b), Array(p)) => Array(AppendUncovered(b, p))
    case _ => patch
  }

  // ─── Repair ─────────────────────────────────────────────────────

  function UpgradeCommand(v: Value, bin: string): Value {
    if v.String? then String(Rewrite(v.s, bin)) else v
  }

  function Upgrade(v: Value, bin: string): Value
    decreases v
  {
    match v
    case Object(f) =>
      Object(map k | k in f :: if k == "command" then UpgradeCommand(f[k], bin) else Upgrade(f[k], bin))
    case Array(items) => Array(seq(|items|, i requires 0 <= i < |items| => Upgrade(items[i], bin)))
    case _ => v
  }

  /** One configure run on a file: merge, then repair. */
  function Configure(base: Value, patch: Value, bin: string): Value {
    Upgrade(Merge(base, patch), bin)
  }

  // ─── In-place forms ─────────────────────────────────────────────

  method MergeJson(base: Value, patch: Value) returns (merged: Value)
    ensures merged == Merge(base, patch)
    decreases patch
  {
    hide IsCogzServer, CoveredBy;
    match (base, patch) {
      case (Object(b), Object(p)) =>
        if IsCogzServer(b) && IsCogzServer(p) {
          return base;
        }
        var fields, todo := b, p.Keys;
        while todo != {}
          invariant todo <= p.Keys
          invariant fields.Keys == b.Keys + (p.Keys - todo)
          invariant forall k | k in fields ::
            fields[k] == if k !in p || k in todo then b[k] else if k !in b then p[k] else Merge(b[k], p[k])
        {
          var k :| k in todo;
          if k in fields {
            var field := MergeJson(fields[k], p[k]);
            fields := fields[k := field];
          } else {
            fields := fields[k := p[k]];
          }
          todo := todo - {k};
        }
        merged := Object(fields);
      case (Array(b), Array(p)) =>
        var items, rest := b, p;
        while rest != []
          invariant AppendUncovered(items, rest) == AppendUncovered(b, p)
          decreases |rest|
        {
          if !CoveredBy(items, rest[0]) {
            items := items + [rest[0]];
          }
          rest := rest[1..];
        }
        merged := Array(items);
      case _ =>
        merged := patch;
    }
  }

  method UpgradeJson(v: Value, bin: string) returns (upgraded: Value)
    ensures upgraded == Upgrade(v, bin)
    decreases v
  {
    match v {
      case Object(f) =>
        var fields, todo := f, f.Keys;
        while todo != {}
          invariant todo <= f.Keys == fields.Keys
          invariant forall k | k in f ::
            fields[k] == if k in todo then f[k]
                         else if k == "command" then UpgradeCommand(f[k], bin) else Upgrade(f[k], bin)
        {
          var k :| k in todo;
          if k == "command" {
            fields := fields[k := UpgradeCommand(f[k], bin)];
          } else {
            var field := UpgradeJson(f[k], bin);
            fields := fields[k := field];
          }
          todo := todo - {k};
        }
        upgraded := Object(fields);
      case Array(items) =>
        var done := [];
        for i := 0 to |items|
          invariant |done| == i && forall j | 0 <= j < i :: done[j] == Upgrade(items[j], bin)
        {
          var item := UpgradeJson(items[i], bin);
          done := done + [item];
        }
        upgraded := Array(done);
      case _ =>
        upgraded := v;
    }
  }

  method ConfigureFile(base: Value, patch: Value, bin: string) returns (r: Value)
    ensures r == Configure(base, patch, bin)
  {
    r := MergeJson(base, patch);
    r := UpgradeJson(r, bin);
  }
}
