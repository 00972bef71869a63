/** When replacing a bare `cogz` by the running binary keeps the dedup key of every command. */
module CommandKeyLaws {
  import opened Text
  import opened Sorting
  import opened CommandKeys

  // ─── Keys determine their parts ─────────────────────────────────

  lemma {:induction false} JoinHasSpace(parts: seq<string>)
    requires |parts| >= 2
    ensures ' ' in Join(parts, " ")
  {
    assert Join(parts, " ")[|parts[0]|] == ' ';
  }

  lemma SortedLength(xs: seq<string>)
    ensures |SortBy(StringLe, xs)| == |xs|
  {
    SortKeepsElements(StringLe, xs);
    assert |multiset(SortBy(StringLe, xs))| == |multiset(xs)|;
  }

  /** A key without a space comes from a command without arguments, or from an event report. */
  lemma KeyWithoutSpace(base: string, tokens: seq<string>)
    ensures var k := KeyOf(base, tokens);
            && (tokens == [] ==> k == base)
            && (' ' in k || tokens == [] || (base == "cogz" && EventVerb(tokens) != []))
  {
    if tokens == [] {
      assert [] + [base] == [base];
      assert SortBy(StringLe, [base]) == [base] by { assert [base][..0] == []; }
    } else {
      SortedLength(tokens + [base]);
      JoinHasSpace(SortBy(StringLe, tokens + [base]));
    }
  }

  lemma KeyIsCogz(base: string, tokens: seq<string>)
    ensures KeyOf(base, tokens) == "cogz" <==> base == "cogz" && tokens == []
  {
    KeyWithoutSpace(base, tokens);
    assert ' ' !in "cogz" && |"cogz"| == 4;
    if base == "cogz" && EventVerb(tokens) != [] {
      assert KeyOf(base, tokens)[4] == '-';
    }
  }

  lemma {:induction false} NoTokensIffBlank(s: string)
    ensures SplitWhitespace(s) == [] <==> Blank(s)
  {
    TrimBlank(s);
  }

  lemma {:induction false} AfterLastSeparatorKeepsChars(s: string)
    ensures forall c | c in AfterLastSeparator(s) :: c in s
  {
    if s != [] && !IsSeparator(s[|s| - 1]) {
      AfterLastSeparatorKeepsChars(s[..|s| - 1]);
    }
  }

  lemma BaseKeepsChars(argv0: string)
    ensures forall c | c in Argv0Base(argv0) :: c in argv0
  {
    AfterLastSeparatorKeepsChars(argv0);
  }

  // ─── Usable binaries ────────────────────────────────────────────

  const EVENT_PROBE := "capture-event \""

  /** Three commands the configurator can build and key before touching any file: the binary alone, the
      binary with no arguments, and the binary reporting an event whose name is a quote. */
  predicate Usable(bin: string) {
    && CommandKey(bin) == "cogz"
    && CommandKey(WithArgs(ShellArgv0(bin), "")) == "cogz"
    && CommandKey(WithArgs(ShellArgv0(bin), EVENT_PROBE)) == "cogz-event:\""
  }

  ghost predicate KeysSurvive(bin: string) {
    forall s :: CommandKey(Rewrite(s, bin)) == CommandKey(s)
  }

  predicate SplitsAsCogz(program: string, x: string) {
    var (argv0, rest) := SplitArgv0(WithArgs(program, x));
    Argv0Base(argv0) == "cogz" && rest == TrimStart(x)
  }

  /** The text splits as a program named `cogz`, whatever arguments follow. */
  ghost predicate NamesCogz(program: string) {
    forall x :: SplitsAsCogz(program, x)
  }

  function CogzKey(x: string): string {
    KeyOf("cogz", SplitWhitespace(TrimStart(x)))
  }

  lemma NamesCogzKey(program: string, x: string)
    requires SplitsAsCogz(program, x)
    ensures CommandKey(WithArgs(program, x)) == CogzKey(x)
  {
  }

  lemma TrimStartTwice(s: string)
    ensures TrimStart(TrimStart(s)) == TrimStart(s)
  {
    var _ := TrimStartSplits(s);
  }

  lemma SplitIgnoresPadding(q: string, x: string)
    requires TrimStart(q) != []
    ensures SplitArgv0(WithArgs(q, x)) == SplitArgv0(WithArgs(TrimStart(q), x))
  {
    var tail := " " + x;
    assert WithArgs(q, x) == q + tail && WithArgs(TrimStart(q), x) == TrimStart(q) + tail;
    TrimStartConcat(q, tail);
    TrimStartTwice(q);
    TrimStartConcat(TrimStart(q), tail);
  }

  lemma SplitUnclosed(u: string, e: string)
    requires u != [] && u[0] == '"' && '"' !in u[1..] && '"' !in e
    ensures SplitArgv0(u + (e + "\"")) == (u[1..] + e, "")
  {
    var t := u + (e + "\"");
    assert TrimStart(t) == t;
    var a := u[1..] + e;
    CutAt(a, '"', "");
    assert t[1..] == a + ['"'] + "";
    assert a + ['"'] + "" == a + "\"";
    assert t[1..][|a|] == '"';
  }

  lemma NoQuoteNoQuoteEvent(argv0: string)
    requires '"' !in argv0
    ensures KeyOf(Argv0Base(argv0), []) != "cogz-event:\""
  {
    BaseKeepsChars(argv0);
    KeyWithoutSpace(Argv0Base(argv0), []);
    assert "cogz-event:\""[11] == '"';
  }

  /** An opening quote that the program text does not close swallows the event probe. */
  lemma UnclosedQuoteLosesEvent(u: string)
    requires u != [] && u[0] == '"' && '"' !in u[1..]
    ensures CommandKey(WithArgs(u, EVENT_PROBE)) != "cogz-event:\""
  {
    var e := " capture-event ";
    assert " " + EVENT_PROBE == e + "\"";
    assert WithArgs(u, EVENT_PROBE) == u + (e + "\"");
    SplitUnclosed(u, e);
    NoTokensIffBlank("");
    NoQuoteNoQuoteEvent(u[1..] + e);
  }

  lemma BlankHasNoKey(q: string)
    requires Blank(q)
    ensures CommandKey(WithArgs(q, "")) != "cogz"
  {
    assert Blank(WithArgs(q, ""));
    TrimBlank(WithArgs(q, ""));
    assert SplitArgv0(WithArgs(q, "")) == ("", "");
    KeyIsCogz(Argv0Base(""), SplitWhitespace(""));
  }

  lemma HeadNamesCogz(u: string)
    requires ClosedHead(u) && CommandKey(WithArgs(u, "")) == "cogz"
    ensures Argv0Base(HeadArgv0(u).0) == "cogz" && Blank(HeadArgv0(u).1)
  {
    var w := HeadArgv0(u).1;
    SplitAfterHead(u, "");
    assert w + (" " + "") == w + " ";
    KeyIsCogz(Argv0Base(HeadArgv0(u).0), SplitWhitespace(TrimStart(w + " ")));
    NoTokensIffBlank(TrimStart(w + " "));
    TrimBlank(TrimStart(w + " "));
    TrimStartTwice(w + " ");
    TrimBlank(w + " ");
    assert forall c | c in w :: c in w + " ";
  }

  lemma BlankPrefix(w: string, x: string)
    requires Blank(w)
    ensures TrimStart(w + (" " + x)) == TrimStart(x)
  {
    assert w + (" " + x) == (w + " ") + x;
    TrimBlank(w + " ");
    TrimStartConcat(w + " ", x);
  }

  lemma SplitHeadOfCogz(q: string, x: string)
    requires ClosedHead(TrimStart(q))
    requires Argv0Base(HeadArgv0(TrimStart(q)).0) == "cogz" && Blank(HeadArgv0(TrimStart(q)).1)
    ensures SplitsAsCogz(q, x)
  {
    SplitIgnoresPadding(q, x);
    SplitAfterHead(TrimStart(q), x);
    BlankPrefix(HeadArgv0(TrimStart(q)).1, x);
  }

  lemma UsableNamesCogz(bin: string)
    requires Usable(bin)
    ensures NamesCogz(ShellArgv0(bin))
  {
    var q := ShellArgv0(bin);
    TrimBlank(q);
    if Blank(q) { BlankHasNoKey(q); }
    var u := TrimStart(q);
    var _ := TrimStartSplits(q);
    SplitIgnoresPadding(q, "");
    SplitIgnoresPadding(q, EVENT_PROBE);
    if u[0] == '"' && '"' !in u[1..] { UnclosedQuoteLosesEvent(u); }
    HeadNamesCogz(u);
    forall x ensures SplitsAsCogz(q, x) {
      SplitHeadOfCogz(q, x);
    }
  }

  lemma {:induction false} AfterNoSeparator(s: string)
    requires forall c | c in s :: !IsSeparator(c)
    ensures AfterLastSeparator(s) == s
  {
    if s != [] {
      AfterNoSeparator(s[..|s| - 1]);
    }
  }

  lemma {:induction false} NoWhitespace(s: string)
    requires forall c | c in s :: !IsWhitespace(c)
    ensures FindWhitespace(s) == |s|
  {
    if s != [] {
      NoWhitespace(s[1..]);
    }
  }

  lemma CogzBase()
    ensures Argv0Base("cogz") == "cogz" && FindWhitespace("cogz") == 4
  {
    AfterNoSeparator("cogz");
    NoWhitespace("cogz");
    assert "cogz"[0] != ".exe"[0];
  }

  /** A program text without whitespace, named `cogz`. */
  lemma PlainNamesCogz(bin: string)
    requires bin != "" && Argv0Base(bin) == "cogz"
    requires forall c | c in bin :: !IsWhitespace(c) && c != '"'
    ensures NamesCogz(bin) && CommandKey(bin) == "cogz"
  {
    assert bin[0] in bin;
    NoWhitespace(bin);
    assert TrimStart(bin) == bin && bin[|bin|..] == "" && bin[..|bin|] == bin;
    NoTokensIffBlank("");
    KeyIsCogz("cogz", []);
    forall x ensures SplitsAsCogz(bin, x) {
      SplitHeadOfCogz(bin, x);
    }
  }

  lemma BareNamesCogz()
    ensures NamesCogz("cogz") && CommandKey("cogz") == "cogz"
  {
    hide NamesCogz, CommandKey, Argv0Base, FindWhitespace;
    CogzBase();
    PlainNamesCogz("cogz");
  }

  lemma OneToken(t: string, rest: string)
    requires t != "" && (forall c | c in t :: !IsWhitespace(c))
    requires rest == "" || IsWhitespace(rest[0])
    ensures SplitWhitespace(t + rest) == [t] + SplitWhitespace(rest)
  {
    assert (t + rest)[0] == t[0] && t[0] in t;
    NoWhitespace(t);
    FindWhitespaceConcat(t, rest);
    assert FindWhitespace(rest) == 0;
    assert (t + rest)[..|t|] == t && (t + rest)[|t|..] == rest;
  }

  lemma TokensAfterSpace(x: string)
    ensures SplitWhitespace(" " + x) == SplitWhitespace(x)
  {
    TrimStartConcat(" ", x);
    TrimBlank(" ");
  }

  predicate IsToken(t: string) {
    t != "" && forall c | c in t :: !IsWhitespace(c)
  }

  lemma WordIsProgram(c: string)
    requires IsToken(c) && '"' !in c && (forall d | d in c :: !IsSeparator(d)) && c[|c| - 1] != 'e'
    ensures ClosedHead(c) && HeadArgv0(c) == (c, "") && Argv0Base(c) == c
  {
    assert c[0] in c;
    NoWhitespace(c);
    AfterNoSeparator(c);
    assert c[..|c|] == c && c[|c|..] == "";
    assert ".exe"[3] == 'e' && (|c| >= 4 ==> c[|c| - 4..][3] == c[|c| - 1]);
  }

  lemma TwoTokens(t: string, u: string, rest: string)
    requires IsToken(t) && IsToken(u) && (rest == "" || IsWhitespace(rest[0]))
    ensures SplitWhitespace(TrimStart(WithArgs(t, u + rest))) == [t, u] + SplitWhitespace(rest)
  {
    hide SplitWhitespace;
    var x := WithArgs(t, u + rest);
    assert x == t + (" " + (u + rest));
    assert x[0] == t[0] && t[0] in t;
    OneToken(t, " " + (u + rest));
    TokensAfterSpace(u + rest);
    OneToken(u, rest);
  }

  /** A `capture-event` invocation reduces to its verb, whatever flags follow. */
  lemma EventReducesToVerb(program: string, verb: string, flags: string)
    requires NamesCogz(program) && IsToken(verb) && (flags == "" || IsWhitespace(flags[0]))
    ensures CommandKey(WithArgs(program, WithArgs("capture-event", verb + flags))) == "cogz-event:" + verb
  {
    var c := "capture-event";
    TwoTokens(c, verb, flags);
    var tokens := [c, verb] + SplitWhitespace(flags);
    assert EventVerb(tokens) == [verb];
    assert SplitsAsCogz(program, WithArgs(c, verb + flags));
    NamesCogzKey(program, WithArgs(c, verb + flags));
  }

  lemma {:induction false} EventVerbIsToken(tokens: seq<string>)
    ensures |EventVerb(tokens)| <= 1 && forall t | t in EventVerb(tokens) :: t in tokens
  {
    if tokens != [] && tokens[0] != "capture-event" {
      EventVerbIsToken(tokens[1..]);
    }
  }

  lemma EventKeyHasNoSpace(verb: string)
    requires IsToken(verb)
    ensures ' ' !in "cogz-event:" + verb
  {
    assert IsWhitespace(' ');
  }

  lemma EventIsNoPlainKey(a: seq<string>, b: seq<string>)
    requires EventVerb(a) != [] && IsToken(EventVerb(a)[0]) && EventVerb(b) == [] && b != []
    ensures KeyOf("cogz", a) != KeyOf("cogz", b)
  {
    EventKeyHasNoSpace(EventVerb(a)[0]);
    KeyWithoutSpace("cogz", b);
  }

  /** Of two orders of the same tokens the keys agree exactly when the program is not cogz or both orders
      report the same event, if any. */
  lemma KeyForgetsOrderExactly(base: string, a: seq<string>, b: seq<string>)
    requires multiset(a) == multiset(b) && forall t | t in a :: IsToken(t)
    ensures KeyOf(base, a) == KeyOf(base, b) <==> base != "cogz" || EventVerb(a) == EventVerb(b)
  {
    hide SortBy, IsToken;
    SortForgetsOrder(a + [base], b + [base]);
    assert |multiset(a)| == |a| && |multiset(b)| == |b|;
    assert forall t | t in b :: t in multiset(b) && t in multiset(a) && t in a;
    if base == "cogz" && EventVerb(a) != EventVerb(b) {
      KeysOfOtherEvents(a, b);
    }
  }

  lemma KeysOfOtherEvents(a: seq<string>, b: seq<string>)
    requires (forall t | t in a :: IsToken(t)) && (forall t | t in b :: IsToken(t)) && |a| == |b|
    requires EventVerb(a) != EventVerb(b)
    ensures KeyOf("cogz", a) != KeyOf("cogz", b)
  {
    hide SortBy, IsToken, KeyOf;
    EventVerbIsToken(a);
    EventVerbIsToken(b);
    if EventVerb(a) == [] {
      EventIsNoPlainKey(b, a);
    } else if EventVerb(b) == [] {
      EventIsNoPlainKey(a, b);
    } else {
      EventKeyIs(a);
      EventKeyIs(b);
      SamePrefix("cogz-event:", EventVerb(a)[0], EventVerb(b)[0]);
    }
  }

  lemma EventKeyIs(a: seq<string>)
    requires EventVerb(a) != []
    ensures KeyOf("cogz", a) == "cogz-event:" + EventVerb(a)[0]
  {
  }

  lemma SamePrefix(p: string, s: string, t: string)
    ensures p + s == p + t ==> s == t
  {
    assert (p + s)[|p|..] == s && (p + t)[|p|..] == t;
  }

  lemma ProbeKeys()
    ensures CogzKey("") == "cogz"
    ensures CogzKey(EVENT_PROBE) == "cogz-event:\""
  {
    hide SplitArgv0, KeyOf, SplitsAsCogz;
    NoTokensIffBlank("");
    KeyIsCogz("cogz", []);
    BareNamesCogz();
    var q := "\"";
    assert EVENT_PROBE == WithArgs("capture-event", q + "");
    EventReducesToVerb("cogz", q, "");
    assert SplitsAsCogz("cogz", EVENT_PROBE);
    NamesCogzKey("cogz", EVENT_PROBE);
    assert "cogz-event:" + q == "cogz-event:\"";
  }

  // ─── Exactly the usable binaries ────────────────────────────────

  lemma RewriteSpaced(x: string, bin: string)
    ensures Rewrite(WithArgs("cogz", x), bin) == WithArgs(ShellArgv0(bin), x)
  {
    var s := WithArgs("cogz", x);
    assert |s| >= 5 && s[..5] == "cogz " && s[5..] == x;
  }

  lemma SpacedShape(s: string)
    requires "cogz " <= s
    ensures s == WithArgs("cogz", s[5..])
  {
    assert s == "cogz " + s[5..];
  }

  lemma NamingKeepsKeys(bin: string, s: string)
    requires CommandKey(bin) == "cogz" && NamesCogz(ShellArgv0(bin))
    ensures CommandKey(Rewrite(s, bin)) == CommandKey(s)
  {
    BareNamesCogz();
    if s != "cogz" && "cogz " <= s {
      var x := s[5..];
      SpacedShape(s);
      RewriteSpaced(x, bin);
      assert SplitsAsCogz(ShellArgv0(bin), x) && SplitsAsCogz("cogz", x);
      NamesCogzKey(ShellArgv0(bin), x);
      NamesCogzKey("cogz", x);
    }
  }

  lemma UsableKeepsKey(bin: string, s: string)
    requires Usable(bin)
    ensures CommandKey(Rewrite(s, bin)) == CommandKey(s)
  {
    UsableNamesCogz(bin);
    NamingKeepsKeys(bin, s);
  }

  lemma SurvivingKey(bin: string, x: string)
    requires KeysSurvive(bin)
    ensures CommandKey(WithArgs(ShellArgv0(bin), x)) == CogzKey(x)
  {
    BareNamesCogz();
    RewriteSpaced(x, bin);
    assert SplitsAsCogz("cogz", x);
    NamesCogzKey("cogz", x);
    assert CommandKey(Rewrite(WithArgs("cogz", x), bin)) == CommandKey(WithArgs("cogz", x));
  }

  /** Rewriting keeps the dedup key of every command exactly when the three probes come out right. */
  lemma KeysSurviveIffUsable(bin: string)
    ensures KeysSurvive(bin) <==> Usable(bin)
  {
    if Usable(bin) {
      forall s ensures CommandKey(Rewrite(s, bin)) == CommandKey(s) {
        UsableKeepsKey(bin, s);
      }
    }
    if KeysSurvive(bin) {
      assert CommandKey(Rewrite("cogz", bin)) == CommandKey("cogz");
      BareNamesCogz();
      SurvivingKey(bin, "");
      SurvivingKey(bin, EVENT_PROBE);
      ProbeKeys();
    }
  }

  /** An ordinary path to a program named `cogz` is usable. */
  lemma PlainPathIsUsable(bin: string)
    requires bin != "" && Argv0Base(bin) == "cogz"
    requires forall c | c in bin :: !IsWhitespace(c) && c != '"'
    ensures Usable(bin)
  {
    PlainNamesCogz(bin);
    forall s ensures CommandKey(Rewrite(s, bin)) == CommandKey(s) {
      NamingKeepsKeys(bin, s);
    }
    KeysSurviveIffUsable(bin);
  }

  // ─── Rewriting twice ────────────────────────────────────────────

  ghost predicate RewriteSettles(bin: string) {
    forall s :: Rewrite(Rewrite(s, bin), bin) == Rewrite(s, bin)
  }

  lemma RewriteSpacedSettles(s: string, bin: string)
    requires !("cogz " <= bin) && "cogz " <= s
    ensures Rewrite(Rewrite(s, bin), bin) == Rewrite(s, bin)
  {
    var q, x := ShellArgv0(bin), s[5..];
    var r := WithArgs(q, x);
    assert r[|q|] == ' ';
    if q != bin { assert q[0] == '"' && "cogz "[0] == 'c'; }
    assert !("cogz " <= q);
    if "cogz " <= r {
      ProgramOfSpaced(q, x);
      assert r[5..] == x;
    }
  }

  lemma ProgramOfSpaced(q: string, x: string)
    requires "cogz " <= WithArgs(q, x)
    ensures q == "cogz" || "cogz " <= q
  {
    var r := WithArgs(q, x);
    if |q| >= 5 {
      assert r[..5] == q[..5];
    } else {
      assert r[|q|] == ' ' && r[..5] == "cogz " && r[..5][|q|] == "cogz "[|q|];
      assert |q| == 4 && q == r[..4];
    }
  }

  /** A second rewrite changes nothing exactly when the binary is not itself a bare-cogz command line. */
  lemma RewriteSettlesExactly(bin: string)
    ensures RewriteSettles(bin) <==> !("cogz " <= bin)
  {
    if !("cogz " <= bin) {
      forall s ensures Rewrite(Rewrite(s, bin), bin) == Rewrite(s, bin) {
        if s != "cogz" && "cogz " <= s { RewriteSpacedSettles(s, bin); }
      }
    } else {
      assert bin[4] == ' ' && bin[4] in bin && IsWhitespace(' ');
      assert Rewrite("cogz", bin) == bin;
      assert Rewrite(bin, bin)[0] == '"' && bin[0] == 'c';
      assert Rewrite(Rewrite("cogz", bin), bin) != Rewrite("cogz", bin);
    }
  }

  lemma SpacedBinaryIsUnusable(bin: string)
    requires "cogz " <= bin
    ensures !Usable(bin)
  {
    if CommandKey(bin) == "cogz" {
      SpacedShape(bin);
      BareNamesCogz();
      assert SplitsAsCogz("cogz", bin[5..]);
      NamesCogzKey("cogz", bin[5..]);
      KeyIsCogz("cogz", SplitWhitespace(TrimStart(bin[5..])));
      NoTokensIffBlank(TrimStart(bin[5..]));
      TrimBlank(TrimStart(bin[5..]));
      TrimStartTwice(bin[5..]);
      TrimBlank(bin[5..]);
      QuotedSpacedCogz(bin);
    }
  }

  lemma SpacedCogzShape(bin: string)
    requires "cogz " <= bin && Blank(bin[5..])
    ensures |bin| > 4 && '"' !in bin && (exists c | c in bin :: IsWhitespace(c)) && Argv0Base(bin) == bin
  {
    assert bin == "cogz " + bin[5..];
    assert bin[4] in bin && IsWhitespace(' ');
    AfterNoSeparator(bin);
    assert bin[|bin| - 1] == ' ' || bin[|bin| - 1] in bin[5..];
    assert bin[|bin| - 4..][3] == bin[|bin| - 1] && ".exe"[3] == 'e';
  }

  lemma QuotedHead(a: string)
    requires '"' !in a
    ensures ClosedHead("\"" + a + "\"") && HeadArgv0("\"" + a + "\"") == (a, "")
  {
    var q := "\"" + a + "\"";
    assert q[1..] == a + ['"'] + "";
    assert q[1..][|a|] == '"';
    CutAt(a, '"', "");
  }

  lemma QuotedSpacedCogz(bin: string)
    requires "cogz " <= bin && Blank(bin[5..])
    ensures CommandKey(WithArgs(ShellArgv0(bin), "")) != "cogz"
  {
    hide SplitWhitespace, TrimStart, KeyOf, FindWhitespace, Argv0Base, ClosedHead, HeadArgv0;
    SpacedCogzShape(bin);
    QuotedHead(bin);
    var q := "\"" + bin + "\"";
    SplitAfterHead(q, "");
    KeyIsCogz(bin, SplitWhitespace(TrimStart(HeadArgv0(q).1 + (" " + ""))));
  }

  // ─── The argument that marks a server ───────────────────────────

  lemma NeedleAfterBare(x: string, n: string)
    requires n == "mcp-stdio"
    ensures Contains(WithArgs("cogz", x), n) ==> Contains(x, n)
  {
    var s := WithArgs("cogz", x);
    if Contains(s, n) {
      var i :| 0 <= i <= |s| && OccursAt(s, n, i);
      assert s[i..i + |n|][0] == s[i] == 'm';
      assert s[0] == 'c' && s[1] == 'o' && s[2] == 'g' && s[3] == 'z' && s[4] == ' ';
      assert s[5..] == x;
      assert x[i - 5..i - 5 + |n|] == s[i..i + |n|];
      assert OccursAt(x, n, i - 5);
    }
  }

  lemma NeedleInArgs(program: string, x: string, n: string)
    requires Contains(x, n)
    ensures Contains(WithArgs(program, x), n)
  {
    var i :| 0 <= i <= |x| && OccursAt(x, n, i);
    var s := WithArgs(program, x);
    var j := |program| + 1 + i;
    assert s[|program| + 1..] == x;
    assert s[j..j + |n|] == x[i..i + |n|];
    assert OccursAt(s, n, j);
  }

  lemma NoNeedleInBare(n: string)
    requires n == "mcp-stdio"
    ensures !Contains("cogz", n)
  {
  }

  /** A rewritten command mentions `mcp-stdio` when it did before. */
  lemma RewriteKeepsNeedle(s: string, bin: string)
    ensures Contains(s, "mcp-stdio") ==> Contains(Rewrite(s, bin), "mcp-stdio")
  {
    NoNeedleInBare("mcp-stdio");
    if s != "cogz" && "cogz " <= s && Contains(s, "mcp-stdio") {
      SpacedShape(s);
      NeedleAfterBare(s[5..], "mcp-stdio");
      NeedleInArgs(ShellArgv0(bin), s[5..], "mcp-stdio");
    }
  }
}
