/** Command strings of agent hooks (src/configure/mod.rs, src/configure/apply.rs): how argv[0] is split
    off and named, the dedup key of a command, and the rewrite of a bare `cogz`. */
module CommandKeys {
  import opened Text
  import opened Sorting

  function FindWhitespace(s: string): (i: nat)
    ensures i <= |s|
    ensures i < |s| ==> IsWhitespace(s[i])
  {
    if s == [] || IsWhitespace(s[0]) then 0 else 1 + FindWhitespace(s[1..])
  }

  lemma {:induction false} TrimStartShrinks(s: string)
    ensures |TrimStart(s)| <= |s|
    ensures TrimStart(s) != [] ==> !IsWhitespace(TrimStart(s)[0])
  {
    if s != [] {
      TrimStartShrinks(s[1..]);
    }
  }

  /** `str::split_whitespace`. */
  function SplitWhitespace(s: string): seq<string>
    decreases |s|
  {
    TrimStartShrinks(s);
    var t := TrimStart(s);
    if t == [] then []
    else
      var n := FindWhitespace(t);
      [t[..n]] + SplitWhitespace(t[n..])
  }

  /** argv[0] and the remainder. A double-quoted argv[0] may span whitespace. */
  function SplitArgv0(cmd: string): (string, string) {
    var t := TrimStart(cmd);
    if t != [] && t[0] == '"' && '"' in t[1..] then
      var i := Find(t[1..], '"');
      CloseIsInside(t[1..], '"');
      (t[1..][..i], TrimStart(t[1..][i + 1..]))
    else
      var i := FindWhitespace(t);
      (t[..i], TrimStart(t[i..]))
  }

  lemma {:induction false} CloseIsInside(s: string, c: char)
    requires c in s
    ensures Find(s, c) < |s|
  {
    if s[0] != c {
      assert s == [s[0]] + s[1..];
      CloseIsInside(s[1..], c);
    }
  }

  predicate IsSeparator(c: char) {
    c == '/' || c == '\\'
  }

  function AfterLastSeparator(s: string): string {
    if s == [] || IsSeparator(s[|s| - 1]) then []
    else AfterLastSeparator(s[..|s| - 1]) + [s[|s| - 1]]
  }

  function Argv0Base(argv0: string): string {
    var base := AfterLastSeparator(argv0);
    if EndsWith(base, ".exe") then base[..|base| - 4] else base
  }

  /** The token after the first `capture-event`. */
  function EventVerb(tokens: seq<string>): seq<string> {
    if tokens == [] then []
    else if tokens[0] == "capture-event" then (if |tokens| > 1 then [tokens[1]] else [])
    else EventVerb(tokens[1..])
  }

  /** The key of a command with this argv[0] name and these arguments. */
  function KeyOf(base: string, tokens: seq<string>): string {
    if base == "cogz" && EventVerb(tokens) != [] then "cogz-event:" + EventVerb(tokens)[0]
    else Join(SortBy(StringLe, tokens + [base]), " ")
  }

  function CommandKey(cmd: string): string {
    var (argv0, rest) := SplitArgv0(cmd);
    KeyOf(Argv0Base(argv0), SplitWhitespace(rest))
  }

  function ShellArgv0(bin: string): string {
    if exists c | c in bin :: IsWhitespace(c) then "\"" + bin + "\"" else bin
  }

  function WithArgs(program: string, args: string): string {
    program + " " + args
  }

  /** A command whose argv[0] is the bare `cogz`, with `bin` in its place; any other command unchanged. */
  function Rewrite(s: string, bin: string): string {
    if s == "cogz" then bin
    else if "cogz " <= s then WithArgs(ShellArgv0(bin), s[5..])
    else s
  }

  // ─── Splitting a rewritten command ──────────────────────────────

  lemma {:induction false} FindWhitespaceConcat(s: string, t: string)
    ensures FindWhitespace(s) < |s| ==> FindWhitespace(s + t) == FindWhitespace(s)
    ensures FindWhitespace(s) == |s| ==> FindWhitespace(s + t) == |s| + FindWhitespace(t)
  {
    if s == [] {
      assert s + t == t;
    } else {
      assert (s + t)[1..] == s[1..] + t;
      FindWhitespaceConcat(s[1..], t);
    }
  }

  lemma {:induction false} FindConcat(s: string, t: string, c: char)
    requires c in s
    ensures Find(s + t, c) == Find(s, c)
  {
    if s[0] != c {
      assert s == [s[0]] + s[1..];
      assert (s + t)[1..] == s[1..] + t;
      FindConcat(s[1..], t, c);
    }
  }

  /** The head of a command, before any arguments: a program text with its opening quote closed. */
  predicate ClosedHead(u: string) {
    u != [] && !IsWhitespace(u[0]) && (u[0] == '"' ==> '"' in u[1..])
  }

  /** argv[0] of a closed head, and what of the head is left over. */
  function HeadArgv0(u: string): (string, string)
    requires ClosedHead(u)
  {
    if u[0] == '"' then
      CloseIsInside(u[1..], '"');
      (u[1..][..Find(u[1..], '"')], u[1..][Find(u[1..], '"') + 1..])
    else (u[..FindWhitespace(u)], u[FindWhitespace(u)..])
  }

  /** Arguments after a closed head never change its argv[0]. */
  lemma SplitAfterHead(u: string, x: string)
    requires ClosedHead(u)
    ensures SplitArgv0(WithArgs(u, x)) == (HeadArgv0(u).0, TrimStart(HeadArgv0(u).1 + (" " + x)))
  {
    var t := WithArgs(u, x);
    assert TrimStart(t) == t;
    var tail := " " + x;
    assert t == u + tail;
    assert t[1..] == u[1..] + tail;
    if u[0] == '"' {
      FindConcat(u[1..], tail, '"');
      CloseIsInside(u[1..], '"');
      var i := Find(u[1..], '"');
      assert (u[1..] + tail)[..i] == u[1..][..i];
      assert (u[1..] + tail)[i + 1..] == u[1..][i + 1..] + tail;
    } else {
      FindWhitespaceConcat(u, tail);
      var i := FindWhitespace(u);
      assert FindWhitespace(tail) == 0;
      assert t[..i] == u[..i] && t[i..] == u[i..] + tail;
    }
  }
}
