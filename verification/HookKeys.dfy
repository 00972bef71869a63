/** The dedup keys of generated hook commands (src/configure/hook_payloads.rs): for which binaries the
    rewrite of a bare `cogz` never changes one of them. */
module HookKeys {
  import opened Text
  import opened Sorting
  import opened CommandKeys
  import opened CommandKeyLaws

  // ─── Words of a joined text ─────────────────────────────────────

  lemma SplitTrimmed(s: string)
    ensures SplitWhitespace(TrimStart(s)) == SplitWhitespace(s)
  {
    TrimStartTwice(s);
  }

  /** Splitting text around a space splits both sides. */
  lemma {:induction false} SplitConcat(a: string, b: string)
    ensures SplitWhitespace(a + (" " + b)) == SplitWhitespace(a) + SplitWhitespace(b)
    decreases |a|
  {
    hide SplitWhitespace, TrimStart;
    TrimBlank(a);
    if Blank(a) {
      BlankPrefix(a, b);
      SplitTrimmed(a + (" " + b));
      SplitTrimmed(b);
      NoTokensIffBlank(a);
    } else {
      SplitConcatToken(a, b);
    }
  }

  lemma {:induction false} SplitConcatToken(a: string, b: string)
    requires TrimStart(a) != []
    ensures SplitWhitespace(a + (" " + b)) == SplitWhitespace(a) + SplitWhitespace(b)
    decreases |a|, 0
  {
    hide SplitWhitespace;
    var t, tail := TrimStart(a), " " + b;
    var n := FindWhitespace(t);
    TrimStartShrinks(a);
    TrimStartConcat(a, tail);
    FindWhitespaceConcat(t, tail);
    assert FindWhitespace(tail) == 0;
    FirstWord(a);
    FirstWord(a + tail);
    assert (t + tail)[..n] == t[..n] && (t + tail)[n..] == t[n..] + tail;
    if n < |t| {
      SplitConcat(t[n..], b);
    } else {
      assert t[n..] == "" && t[n..] + tail == tail;
      TokensAfterSpace(b);
      NoTokensIffBlank("");
    }
  }

  lemma FirstWord(s: string)
    requires TrimStart(s) != []
    ensures var t := TrimStart(s);
            SplitWhitespace(s) == [t[..FindWhitespace(t)]] + SplitWhitespace(t[FindWhitespace(t)..])
  {
  }

  ghost predicate AreTokens(ws: seq<string>) {
    forall w | w in ws :: IsToken(w)
  }

  lemma {:induction false} SplitGivesTokens(s: string)
    ensures AreTokens(SplitWhitespace(s))
    decreases |s|
  {
    hide SplitWhitespace;
    TrimStartShrinks(s);
    TrimBlank(s);
    var t := TrimStart(s);
    if t == [] {
      NoTokensIffBlank(s);
    } else {
      FirstWord(s);
      var n := FindWhitespace(t);
      NothingBeforeWhitespace(t);
      SplitGivesTokens(t[n..]);
    }
  }

  lemma {:induction false} NothingBeforeWhitespace(s: string)
    ensures forall c | c in s[..FindWhitespace(s)] :: !IsWhitespace(c)
  {
    if s != [] && !IsWhitespace(s[0]) {
      NothingBeforeWhitespace(s[1..]);
      assert s[..FindWhitespace(s)] == [s[0]] + s[1..][..FindWhitespace(s[1..])];
    }
  }

  lemma OneWord(t: string)
    requires IsToken(t)
    ensures SplitWhitespace(t) == [t]
  {
    hide SplitWhitespace;
    OneToken(t, "");
    NoTokensIffBlank("");
    assert t + "" == t;
  }

  function Words(parts: seq<string>): seq<string> {
    if parts == [] then [] else SplitWhitespace(parts[0]) + Words(parts[1..])
  }

  lemma {:induction false} SplitJoined(parts: seq<string>)
    ensures SplitWhitespace(Join(parts, " ")) == Words(parts)
  {
    hide SplitWhitespace;
    if parts == [] {
      NoTokensIffBlank("");
    } else if |parts| == 1 {
      assert Words(parts[1..]) == [];
    } else {
      var rest := Join(parts[1..], " ");
      assert Join(parts, " ") == parts[0] + (" " + rest);
      SplitConcat(parts[0], rest);
      SplitJoined(parts[1..]);
    }
  }

  lemma {:induction false} WordsOfTokens(parts: seq<string>)
    requires AreTokens(parts)
    ensures Words(parts) == parts
  {
    hide SplitWhitespace, IsToken;
    if parts != [] {
      assert parts[0] in parts;
      OneWord(parts[0]);
      WordsOfTokens(parts[1..]);
    }
  }

  lemma JoinedTokens(parts: seq<string>)
    requires AreTokens(parts)
    ensures SplitWhitespace(Join(parts, " ")) == parts
  {
    SplitJoined(parts);
    WordsOfTokens(parts);
  }

  lemma {:induction false} WordFromPart(parts: seq<string>, w: string)
    ensures w in Words(parts) ==> exists p | p in parts :: w in SplitWhitespace(p)
  {
    hide SplitWhitespace;
    if parts != [] {
      WordFromPart(parts[1..], w);
      assert parts == [parts[0]] + parts[1..];
    }
  }

  // ─── Plain keys ─────────────────────────────────────────────────

  function PlainKey(base: string, tokens: seq<string>): string {
    Join(SortBy(StringLe, tokens + [base]), " ")
  }

  lemma SortedSame(a: seq<string>, x: string)
    ensures x in SortBy(StringLe, a) <==> x in a
  {
    SortKeepsElements(StringLe, a);
    assert x in multiset(SortBy(StringLe, a)) <==> x in multiset(a);
  }

  lemma WordOfPlainKey(base: string, tokens: seq<string>, w: string)
    requires AreTokens(tokens) && w !in tokens && w !in SplitWhitespace(base)
    ensures w !in SplitWhitespace(PlainKey(base, tokens))
  {
    hide SplitWhitespace, SortBy, IsToken;
    var sorted := SortBy(StringLe, tokens + [base]);
    SplitJoined(sorted);
    WordFromPart(sorted, w);
    forall p | p in sorted ensures w !in SplitWhitespace(p) {
      SortedSame(tokens + [base], p);
      if p in tokens { OneWord(p); }
    }
  }

  lemma WordsOfTokenKey(base: string, tokens: seq<string>)
    requires AreTokens(tokens + [base])
    ensures SplitWhitespace(PlainKey(base, tokens)) == SortBy(StringLe, tokens + [base])
  {
    hide SplitWhitespace, SortBy, IsToken;
    var sorted := SortBy(StringLe, tokens + [base]);
    forall p | p in sorted ensures IsToken(p) { SortedSame(tokens + [base], p); }
    JoinedTokens(sorted);
  }

  lemma PlainKeyForgetsOrder(base: string, a: seq<string>, b: seq<string>)
    requires multiset(a) == multiset(b)
    ensures PlainKey(base, a) == PlainKey(base, b)
  {
    SortForgetsOrder(a + [base], b + [base]);
  }

  // ─── Keys of the two spellings ──────────────────────────────────

  lemma BareKey(x: string)
    ensures CommandKey(WithArgs("cogz", x)) == KeyOf("cogz", SplitWhitespace(x))
  {
    hide SplitWhitespace, KeyOf, CommandKey, SplitsAsCogz;
    BareNamesCogz();
    assert SplitsAsCogz("cogz", x);
    NamesCogzKey("cogz", x);
    SplitTrimmed(x);
  }

  /** After a closed head the key is that of its name, its left-over words and the arguments. */
  lemma HeadKey(u: string, x: string)
    requires ClosedHead(u)
    ensures CommandKey(WithArgs(u, x))
            == KeyOf(Argv0Base(HeadArgv0(u).0), SplitWhitespace(HeadArgv0(u).1) + SplitWhitespace(x))
  {
    hide SplitWhitespace, KeyOf, Argv0Base;
    SplitAfterHead(u, x);
    SplitTrimmed(HeadArgv0(u).1 + (" " + x));
    SplitConcat(HeadArgv0(u).1, x);
  }

  /** An unclosed quote without whitespace, and no quote after it, is argv[0] as it stands. */
  predicate IsUnclosed(u: string) {
    u != [] && u[0] == '"' && '"' !in u[1..] && forall c | c in u :: !IsWhitespace(c)
  }

  lemma UnclosedSplit(u: string, x: string)
    requires IsUnclosed(u) && '"' !in x
    ensures SplitArgv0(WithArgs(u, x)) == (u, TrimStart(" " + x))
  {
    hide FindWhitespace;
    var t, tail := WithArgs(u, x), " " + x;
    assert u[0] in u;
    assert t == u + tail && TrimStart(t) == t && t[1..] == u[1..] + tail;
    NoWhitespace(u);
    FindWhitespaceConcat(u, tail);
    assert FindWhitespace(tail) == 0 by { SpaceFirst(x); }
    assert t[..|u|] == u && t[|u|..] == tail;
  }

  lemma SpaceFirst(x: string)
    ensures FindWhitespace(" " + x) == 0
  {
  }

  lemma UnclosedKey(u: string, x: string)
    requires IsUnclosed(u) && '"' !in x
    ensures CommandKey(WithArgs(u, x)) == KeyOf(Argv0Base(u), SplitWhitespace(x))
  {
    hide SplitWhitespace, KeyOf, Argv0Base, SplitArgv0, IsUnclosed;
    UnclosedSplit(u, x);
    BlankPrefix("", x);
    assert "" + (" " + x) == " " + x;
    SplitTrimmed(x);
  }

  /** A binary written into a command is nothing, a closed head, or an unclosed quote. */
  lemma ProgramShapes(bin: string)
    ensures var q := ShellArgv0(bin); q == "" || ClosedHead(q) || IsUnclosed(q)
  {
    var q := ShellArgv0(bin);
    if c :| c in bin && IsWhitespace(c) {
      assert q[1..] == bin + "\"";
      assert '"' in "\"" && '"' in q[1..];
    } else if bin != "" {
      assert bin[0] in bin;
    }
  }

  lemma EmptyProgramKey(x: string)
    ensures CommandKey(WithArgs("", x)) == CommandKey(x)
  {
    hide SplitWhitespace, KeyOf, Argv0Base;
    BlankPrefix("", x);
    assert WithArgs("", x) == "" + (" " + x);
    TrimStartTwice(x);
  }

  // ─── Event reports ──────────────────────────────────────────────

  /** The arguments of a generated hook command. */
  function EventArgs(verb: string, flags: seq<string>): string {
    Join(["capture-event", verb] + flags, " ")
  }

  ghost predicate AreEventArgs(verb: string, flags: seq<string>) {
    AreTokens([verb] + flags) && forall w | w in [verb] + flags :: w != "cogz" && '"' !in w
  }

  /** The key of a generated hook command. */
  function EventKey(bin: string, verb: string, flags: seq<string>): string {
    CommandKey(WithArgs(ShellArgv0(bin), EventArgs(verb, flags)))
  }

  function WithoutFirst(ws: seq<string>, w: string): seq<string> {
    if ws == [] then [] else if ws[0] == w then ws[1..] else [ws[0]] + WithoutFirst(ws[1..], w)
  }

  /** The words of a key but for one `cogz`, with `capture-event` moved to the end. */
  function Rearranged(ws: seq<string>): seq<string> {
    var rest := WithoutFirst(ws, "cogz");
    if "capture-event" in rest then WithoutFirst(rest, "capture-event") + ["capture-event"] else rest
  }

  function KeyVerb(key: string): string {
    if |key| > 11 then key[11..] else ""
  }

  /** Arguments of three bare commands to look at: the verb after another word, the verb before a quote,
      and the words of the key themselves. */
  function Probes(key: string): seq<string> {
    [Join(["z", "capture-event", KeyVerb(key)], " "),
     Join(["capture-event", KeyVerb(key), "\""], " "),
     Join(Rearranged(SplitWhitespace(key)), " ")]
  }

  /** Each probe that a bare `cogz` keys like the generated command still does so with the binary. */
  predicate HookStays(bin: string, verb: string, flags: seq<string>) {
    var key := EventKey(bin, verb, flags);
    forall p | p in Probes(key) ::
      CommandKey(WithArgs("cogz", p)) == key ==> CommandKey(WithArgs(ShellArgv0(bin), p)) == key
  }

  /** No command with this key gets another one by the rewrite. */
  ghost predicate IsStableKey(key: string, bin: string) {
    forall s | CommandKey(s) == key :: CommandKey(Rewrite(s, bin)) == key
  }
}
