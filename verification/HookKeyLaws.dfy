/** The three probes decide, for every binary, whether the rewrite ever changes a generated hook's key. */
module HookKeyLaws {
  import opened Text
  import opened Sorting
  import opened CommandKeys
  import opened CommandKeyLaws
  import opened HookKeys

  // ─── Tokens of the generated arguments ──────────────────────────

  lemma EventTokens(verb: string, flags: seq<string>)
    requires AreEventArgs(verb, flags)
    ensures AreTokens(["capture-event", verb] + flags)
    ensures "cogz" !in ["capture-event", verb] + flags
    ensures SplitWhitespace(EventArgs(verb, flags)) == ["capture-event", verb] + flags
  {
    hide SplitWhitespace;
    var all := ["capture-event", verb] + flags;
    forall w | w in all ensures IsToken(w) && w != "cogz" {
      if w != "capture-event" { assert w in [verb] + flags; }
    }
    JoinedTokens(all);
  }

  lemma {:induction false} JoinHasNoQuote(parts: seq<string>)
    requires forall p | p in parts :: '"' !in p
    ensures '"' !in Join(parts, " ")
  {
    if parts != [] {
      assert parts[0] in parts;
      JoinHasNoQuote(parts[1..]);
    }
  }

  lemma EventArgsHaveNoQuote(verb: string, flags: seq<string>)
    requires AreEventArgs(verb, flags)
    ensures '"' !in EventArgs(verb, flags)
  {
    var all := ["capture-event", verb] + flags;
    forall w | w in all ensures '"' !in w {
      if w != "capture-event" { assert w in [verb] + flags; }
    }
    JoinHasNoQuote(all);
  }

  // ─── Which verb an argument list reports ────────────────────────

  lemma {:induction false} EventVerbConcat(r: seq<string>, x: seq<string>)
    ensures EventVerb(r + x) ==
            if EventVerb(r) != [] then EventVerb(r)
            else if "capture-event" !in r then EventVerb(x)
            else if x != [] then [x[0]] else []
  {
    if r == [] {
      assert r + x == x;
    } else {
      assert (r + x)[0] == r[0] && (r + x)[1..] == r[1..] + x;
      EventVerbConcat(r[1..], x);
      assert r == [r[0]] + r[1..];
    }
  }

  lemma EventKeyVerb(w: string)
    ensures KeyVerb("cogz-event:" + w) == w
  {
    assert ("cogz-event:" + w)[11..] == w;
  }

  lemma PlainKeyHasSpace(base: string, tokens: seq<string>)
    requires tokens != [] && (base != "cogz" || EventVerb(tokens) == [])
    ensures ' ' in KeyOf(base, tokens) && KeyOf(base, tokens) == PlainKey(base, tokens)
  {
    KeyWithoutSpace(base, tokens);
  }

  /** A bare command whose key is an event key reports that event. */
  lemma EventOfKey(x: string, w: string)
    requires CommandKey(WithArgs("cogz", x)) == "cogz-event:" + w && IsToken(w)
    ensures EventVerb(SplitWhitespace(x)) == [w]
  {
    hide SplitWhitespace, IsToken, SortBy;
    BareKey(x);
    var tokens := SplitWhitespace(x);
    EventKeyHasNoSpace(w);
    KeyWithoutSpace("cogz", tokens);
    assert tokens == [] ==> KeyOf("cogz", tokens) == "cogz" && |"cogz-event:" + w| > 4;
    EventVerbIsToken(tokens);
    if EventVerb(tokens) != [] {
      EventKeyIs(tokens);
      SamePrefix("cogz-event:", EventVerb(tokens)[0], w);
    }
  }

  // ─── A program named cogz ───────────────────────────────────────

  /** The arguments report an event whatever words come before them. */
  lemma AlwaysReports(r: seq<string>, verb: string, flags: seq<string>)
    requires AreTokens(r) && AreEventArgs(verb, flags)
    ensures var found := EventVerb(r + (["capture-event", verb] + flags));
            && |found| == 1 && IsToken(found[0])
            && found == if EventVerb(r) != [] then EventVerb(r)
                        else if "capture-event" !in r then [verb] else ["capture-event"]
  {
    hide IsToken;
    var args := ["capture-event", verb] + flags;
    EventVerbConcat(r, args);
    EventVerbIsToken(r);
    EventTokens(verb, flags);
    assert args[0] == "capture-event" && args[1] == verb && args[0] in args && args[1] in args;
  }

  lemma VerbProbe(w: string, key: string)
    requires IsToken(w) && key == "cogz-event:" + w
    ensures var p := Join(["z", "capture-event", w], " ");
            p in Probes(key) && SplitWhitespace(p) == ["z", "capture-event", w]
            && CommandKey(WithArgs("cogz", p)) == key
  {
    hide SplitWhitespace, CommandKey;
    EventKeyVerb(w);
    var tokens := ["z", "capture-event", w];
    JoinedTokens(tokens);
    BareKey(Join(tokens, " "));
    assert tokens[1..][0] == "capture-event" && EventVerb(tokens) == EventVerb(tokens[1..]) == [w];
    EventKeyIs(tokens);
  }

  /** When the program text ends in `capture-event`, any argument becomes the verb. */
  lemma LastEventIsRuledOut(bin: string, verb: string, flags: seq<string>)
    requires AreEventArgs(verb, flags) && ClosedHead(ShellArgv0(bin))
    requires Argv0Base(HeadArgv0(ShellArgv0(bin)).0) == "cogz"
    ensures var r := SplitWhitespace(HeadArgv0(ShellArgv0(bin)).1);
            HookStays(bin, verb, flags) ==> EventVerb(r) != [] || "capture-event" !in r
  {
    hide SplitWhitespace, CommandKey, IsToken, Probes, Argv0Base, ClosedHead, HeadArgv0;
    var q := ShellArgv0(bin);
    var r := SplitWhitespace(HeadArgv0(q).1);
    SplitGivesTokens(HeadArgv0(q).1);
    EventTokens(verb, flags);
    HeadKey(q, EventArgs(verb, flags));
    AlwaysReports(r, verb, flags);
    EventKeyIs(r + (["capture-event", verb] + flags));
    if EventVerb(r) == [] && "capture-event" in r {
      var w := "capture-event";
      VerbProbe(w, EventKey(bin, verb, flags));
      var p := Join(["z", "capture-event", w], " ");
      HeadKey(q, p);
      EventVerbConcat(r, ["z", "capture-event", w]);
      EventKeyIs(r + ["z", "capture-event", w]);
      SamePrefix("cogz-event:", "z", w);
      assert CommandKey(WithArgs(q, p)) != EventKey(bin, verb, flags);
    }
  }

  lemma CogzHeadStays(bin: string, verb: string, flags: seq<string>, x: string)
    requires AreEventArgs(verb, flags) && HookStays(bin, verb, flags) && ClosedHead(ShellArgv0(bin))
    requires Argv0Base(HeadArgv0(ShellArgv0(bin)).0) == "cogz"
    requires CommandKey(WithArgs("cogz", x)) == EventKey(bin, verb, flags)
    ensures CommandKey(WithArgs(ShellArgv0(bin), x)) == EventKey(bin, verb, flags)
  {
    hide SplitWhitespace, CommandKey, IsToken, HookStays, Argv0Base, ClosedHead, HeadArgv0;
    var q := ShellArgv0(bin);
    var r, args := SplitWhitespace(HeadArgv0(q).1), ["capture-event", verb] + flags;
    LastEventIsRuledOut(bin, verb, flags);
    SplitGivesTokens(HeadArgv0(q).1);
    EventTokens(verb, flags);
    HeadKey(q, EventArgs(verb, flags));
    HeadKey(q, x);
    AlwaysReports(r, verb, flags);
    EventKeyIs(r + args);
    var w := EventVerb(r + args)[0];
    EventOfKey(x, w);
    EventVerbConcat(r, SplitWhitespace(x));
    EventVerbConcat(r, args);
    EventKeyIs(r + SplitWhitespace(x));
  }

  // ─── Any other program ──────────────────────────────────────────

  /** No bare command has a plain key in whose parts the word `cogz` does not stand. */
  lemma NoBareLookalike(base: string, tokens: seq<string>, x: string)
    requires base != "cogz" && tokens != [] && AreTokens(tokens)
    requires "cogz" !in tokens && "cogz" !in SplitWhitespace(base)
    ensures CommandKey(WithArgs("cogz", x)) != KeyOf(base, tokens)
  {
    hide SplitWhitespace, CommandKey, IsToken, SortBy;
    PlainKeyHasSpace(base, tokens);
    WordOfPlainKey(base, tokens, "cogz");
    BareKey(x);
    SplitGivesTokens(x);
    var words := SplitWhitespace(x);
    BareWords(words);
  }

  /** A bare command's key has no space, or `cogz` among its words. */
  lemma BareWords(words: seq<string>)
    requires AreTokens(words)
    ensures EventVerb(words) != [] ==> ' ' !in KeyOf("cogz", words)
    ensures EventVerb(words) == [] ==>
              && KeyOf("cogz", words) == PlainKey("cogz", words)
              && SplitWhitespace(KeyOf("cogz", words)) == SortBy(StringLe, words + ["cogz"])
              && "cogz" in SplitWhitespace(KeyOf("cogz", words))
  {
    hide SplitWhitespace, SortBy;
    EventVerbIsToken(words);
    if EventVerb(words) != [] {
      EventKeyIs(words);
      EventKeyHasNoSpace(EventVerb(words)[0]);
    } else {
      WordsOfTokenKey("cogz", words);
      SortedSame(words + ["cogz"], "cogz");
    }
  }

  lemma {:induction false} WithoutFirstExact(ws: seq<string>, w: string)
    ensures w in ws ==> multiset(WithoutFirst(ws, w)) == multiset(ws) - multiset{w}
    ensures w !in ws ==> WithoutFirst(ws, w) == ws
    ensures forall v | v in WithoutFirst(ws, w) :: v in ws
  {
    if ws != [] {
      assert ws == [ws[0]] + ws[1..];
      if ws[0] != w {
        WithoutFirstExact(ws[1..], w);
      }
    }
  }

  /** A verbless argument list names `capture-event` at most once. */
  lemma {:induction false} VerblessNamesOnce(ws: seq<string>)
    requires EventVerb(ws) == []
    ensures multiset(ws)["capture-event"] <= 1
  {
    if ws != [] {
      assert ws == [ws[0]] + ws[1..];
      if ws[0] == "capture-event" {
        assert ws[1..] == [];
      } else {
        VerblessNamesOnce(ws[1..]);
      }
    }
  }

  lemma {:induction false} NoEventNoVerb(ws: seq<string>, last: seq<string>)
    requires "capture-event" !in ws && |last| <= 1
    ensures EventVerb(ws + last) == []
  {
    EventVerbConcat(ws, last);
    NoVerbWithout(ws);
  }

  lemma {:induction false} NoVerbWithout(ws: seq<string>)
    requires "capture-event" !in ws
    ensures EventVerb(ws) == []
  {
    if ws != [] {
      assert ws[0] in ws;
      NoVerbWithout(ws[1..]);
    }
  }

  /** The words of a verbless bare command, one `cogz` added and put in any order, rearrange to an equivalent
      verbless command. */
  lemma RearrangedIsSame(words: seq<string>, all: seq<string>)
    requires EventVerb(words) == [] && multiset(all) == multiset(words + ["cogz"])
    ensures multiset(Rearranged(all)) == multiset(words) && EventVerb(Rearranged(all)) == []
  {
    hide EventVerb, WithoutFirst;
    var rest := WithoutFirst(all, "cogz");
    assert "cogz" in multiset(all);
    WithoutFirstExact(all, "cogz");
    assert multiset(rest) == multiset(words);
    VerblessNamesOnce(words);
    EventToEnd(rest, "capture-event");
    if "capture-event" in rest {
      NoEventNoVerb(WithoutFirst(rest, "capture-event"), ["capture-event"]);
    } else {
      NoVerbWithout(rest);
    }
  }

  lemma EventToEnd(rest: seq<string>, c: string)
    requires multiset(rest)[c] <= 1
    ensures c in rest ==> c !in WithoutFirst(rest, c) && multiset(WithoutFirst(rest, c) + [c]) == multiset(rest)
  {
    hide WithoutFirst;
    WithoutFirstExact(rest, c);
    if c in rest {
      var less := WithoutFirst(rest, c);
      assert multiset(less)[c] == 0;
      assert c !in multiset(less);
      assert multiset(less + [c]) == multiset(less) + multiset{c};
    }
  }

  lemma OtherHeadStays(bin: string, verb: string, flags: seq<string>, x: string)
    requires AreEventArgs(verb, flags) && HookStays(bin, verb, flags) && ClosedHead(ShellArgv0(bin))
    requires Argv0Base(HeadArgv0(ShellArgv0(bin)).0) != "cogz"
    requires CommandKey(WithArgs("cogz", x)) == EventKey(bin, verb, flags)
    ensures CommandKey(WithArgs(ShellArgv0(bin), x)) == EventKey(bin, verb, flags)
  {
    hide SplitWhitespace, CommandKey, IsToken, Argv0Base, ClosedHead, HeadArgv0, SortBy, Rearranged;
    var q, key := ShellArgv0(bin), EventKey(bin, verb, flags);
    var base, r := Argv0Base(HeadArgv0(q).0), SplitWhitespace(HeadArgv0(q).1);
    EventTokens(verb, flags);
    HeadKey(q, EventArgs(verb, flags));
    PlainKeyHasSpace(base, r + (["capture-event", verb] + flags));
    BareKey(x);
    SplitGivesTokens(x);
    var words := SplitWhitespace(x);
    BareWords(words);
    var p := Join(Rearranged(SplitWhitespace(key)), " ");
    LookalikeProbe(words, key);
    assert p in Probes(key);
    HeadKey(q, p);
    HeadKey(q, x);
    SameWordsSameKey(base, r, SplitWhitespace(p), words);
  }

  /** The third probe has the words of any verbless bare command with this key. */
  lemma LookalikeProbe(words: seq<string>, key: string)
    requires AreTokens(words) && EventVerb(words) == [] && key == KeyOf("cogz", words)
    ensures var p := Join(Rearranged(SplitWhitespace(key)), " ");
            multiset(SplitWhitespace(p)) == multiset(words) && CommandKey(WithArgs("cogz", p)) == key
  {
    hide SplitWhitespace, CommandKey, IsToken, SortBy, Rearranged;
    BareWords(words);
    SortKeepsElements(StringLe, words + ["cogz"]);
    var all := SplitWhitespace(key);
    RearrangedIsSame(words, all);
    var again := Rearranged(all);
    forall w | w in again ensures IsToken(w) {
      assert w in multiset(again);
      assert w in multiset(words);
    }
    JoinedTokens(again);
    BareKey(Join(again, " "));
    PlainKeyForgetsOrder("cogz", again, words);
  }

  lemma SameWordsSameKey(base: string, r: seq<string>, a: seq<string>, b: seq<string>)
    requires base != "cogz" && multiset(a) == multiset(b)
    ensures KeyOf(base, r + a) == KeyOf(base, r + b)
  {
    hide SortBy;
    assert multiset(r + a) == multiset(r) + multiset(a) == multiset(r + b);
    PlainKeyForgetsOrder(base, r + a, r + b);
  }

  // ─── Programs that are no closed head ───────────────────────────

  lemma BaseKeepsLastSpace(a: string)
    requires a != "" && a[|a| - 1] == ' '
    ensures ' ' in Argv0Base(a)
  {
    var base := AfterLastSeparator(a);
    assert base[|base| - 1] == ' ' && ".exe"[3] == 'e';
    assert |base| >= 4 ==> base[|base| - 4..][3] == base[|base| - 1];
  }

  lemma QuoteProbe(w: string, key: string)
    requires IsToken(w) && '"' !in w && key == "cogz-event:" + w
    ensures var p := Join(["capture-event", w, "\""], " ");
            && p in Probes(key) && CommandKey(WithArgs("cogz", p)) == key
            && " " + p == (" capture-event " + w + " ") + "\""
  {
    hide SplitWhitespace, CommandKey, Join;
    EventKeyVerb(w);
    QuoteProbeTokens(w);
    var tokens := ["capture-event", w, "\""];
    JoinedTokens(tokens);
    BareKey(Join(tokens, " "));
    EventKeyIs(tokens);
    SpellQuoteProbe(w);
  }

  lemma QuoteProbeTokens(w: string)
    requires IsToken(w)
    ensures AreTokens(["capture-event", w, "\""]) && EventVerb(["capture-event", w, "\""]) == [w]
  {
    assert IsToken("\"");
  }

  lemma JoinThree(a: string, b: string, c: string)
    ensures Join([a, b, c], " ") == a + " " + (b + " " + c)
  {
    assert [a, b, c][1..] == [b, c] && [b, c][1..] == [c];
    assert Join([c], " ") == c;
    assert Join([b, c], " ") == b + " " + c;
  }

  lemma SpellQuoteProbe(w: string)
    ensures " " + Join(["capture-event", w, "\""], " ") == (" capture-event " + w + " ") + "\""
  {
    hide Join;
    var c, q := "capture-event", "\"";
    JoinThree(c, w, q);
    assert " capture-event " == " " + c + " ";
    SpellSpaced(" ", c, w, q);
  }

  lemma SpellSpaced(s: string, a: string, b: string, c: string)
    ensures s + (a + s + (b + s + c)) == (s + a + s + b + s) + c
  {
  }

  lemma UnclosedCogzBreaks(bin: string, verb: string, flags: seq<string>)
    requires AreEventArgs(verb, flags) && IsUnclosed(ShellArgv0(bin)) && Argv0Base(ShellArgv0(bin)) == "cogz"
    ensures !HookStays(bin, verb, flags)
  {
    hide SplitWhitespace, CommandKey, IsToken, Probes, Argv0Base, IsUnclosed;
    var q := ShellArgv0(bin);
    EventTokens(verb, flags);
    EventArgsHaveNoQuote(verb, flags);
    UnclosedKey(q, EventArgs(verb, flags));
    var args := ["capture-event", verb] + flags;
    assert args[1] in args && verb in [verb] + flags && EventVerb(args) == [verb];
    EventKeyIs(args);
    QuoteProbe(verb, EventKey(bin, verb, flags));
    EventKeyHasNoSpace(verb);
    var p := Join(["capture-event", verb, "\""], " ");
    UnclosedQuoteKey(q, verb, p);
    assert ' ' in CommandKey(WithArgs(q, p));
  }

  lemma UnclosedQuoteKey(u: string, w: string, p: string)
    requires IsUnclosed(u) && '"' !in w && " " + p == (" capture-event " + w + " ") + "\""
    ensures ' ' in CommandKey(WithArgs(u, p))
  {
    hide SplitWhitespace, SplitArgv0, Argv0Base;
    var e := " capture-event " + w + " ";
    assert WithArgs(u, p) == u + (e + "\"");
    SplitUnclosed(u, e);
    NoTokensIffBlank("");
    KeyWithoutSpace(Argv0Base(u[1..] + e), []);
    BaseKeepsLastSpace(u[1..] + e);
  }

  lemma WordsOfUnspaced(s: string)
    requires forall c | c in s :: !IsWhitespace(c)
    ensures forall w | w in SplitWhitespace(s) :: w == s
  {
    hide SplitWhitespace;
    if s == "" {
      NoTokensIffBlank("");
    } else {
      OneWord(s);
    }
  }

  /** Here no bare command shares the key at all, or the second probe fails. */
  lemma UnclosedHasNoLookalike(bin: string, verb: string, flags: seq<string>, x: string)
    requires AreEventArgs(verb, flags) && IsUnclosed(ShellArgv0(bin))
    ensures HookStays(bin, verb, flags) ==> CommandKey(WithArgs("cogz", x)) != EventKey(bin, verb, flags)
  {
    hide SplitWhitespace, CommandKey, IsToken, HookStays, Argv0Base, KeyOf;
    var q := ShellArgv0(bin);
    if Argv0Base(q) == "cogz" {
      UnclosedCogzBreaks(bin, verb, flags);
    } else {
      EventTokens(verb, flags);
      EventArgsHaveNoQuote(verb, flags);
      UnclosedKey(q, EventArgs(verb, flags));
      BaseKeepsChars(q);
      WordsOfUnspaced(Argv0Base(q));
      NoBareLookalike(Argv0Base(q), ["capture-event", verb] + flags, x);
    }
  }

  lemma EventProgram()
    ensures ClosedHead("capture-event") && HeadArgv0("capture-event") == ("capture-event", "")
    ensures Argv0Base("capture-event") == "capture-event" && IsToken("capture-event")
  {
    hide ClosedHead, HeadArgv0, Argv0Base;
    WordIsProgram("capture-event");
  }

  lemma EmptyHasNoLookalike(verb: string, flags: seq<string>, x: string)
    requires AreEventArgs(verb, flags)
    ensures CommandKey(WithArgs("cogz", x)) != CommandKey(WithArgs("", EventArgs(verb, flags)))
  {
    hide SplitWhitespace, CommandKey, IsToken, Argv0Base, KeyOf, ClosedHead, HeadArgv0;
    var c, rest := "capture-event", [verb] + flags;
    EmptyProgramKey(EventArgs(verb, flags));
    assert [c, verb] + flags == [c] + rest && ([c] + rest)[1..] == rest;
    assert EventArgs(verb, flags) == WithArgs(c, Join(rest, " "));
    EventProgram();
    HeadKey(c, Join(rest, " "));
    JoinedTokens(rest);
    NoTokensIffBlank("");
    assert [] + rest == rest;
    OneWord(c);
    NoBareLookalike(c, rest, x);
  }

  // ─── Main result ────────────────────────────────────────────────

  lemma BareStays(bin: string, verb: string, flags: seq<string>, x: string)
    requires AreEventArgs(verb, flags) && HookStays(bin, verb, flags)
    requires CommandKey(WithArgs("cogz", x)) == EventKey(bin, verb, flags)
    ensures CommandKey(WithArgs(ShellArgv0(bin), x)) == EventKey(bin, verb, flags)
  {
    hide CommandKey, HookStays, AreEventArgs, ClosedHead, IsUnclosed, ShellArgv0;
    var q := ShellArgv0(bin);
    ProgramShapes(bin);
    if q == "" { EmptyHasNoLookalike(verb, flags, x); }
    if IsUnclosed(q) { UnclosedHasNoLookalike(bin, verb, flags, x); }
    if Argv0Base(HeadArgv0(q).0) == "cogz" {
      CogzHeadStays(bin, verb, flags, x);
    } else {
      OtherHeadStays(bin, verb, flags, x);
    }
  }

  lemma EventKeyIsNotCogz(bin: string, verb: string, flags: seq<string>)
    requires AreEventArgs(verb, flags)
    ensures EventKey(bin, verb, flags) != "cogz"
  {
    hide SplitWhitespace, CommandKey, IsToken, Argv0Base, KeyOf, ClosedHead, HeadArgv0, IsUnclosed, ShellArgv0;
    var q, args := ShellArgv0(bin), EventArgs(verb, flags);
    ProgramShapes(bin);
    EventTokens(verb, flags);
    EventArgsHaveNoQuote(verb, flags);
    if q == "" {
      EmptyHasNoLookalike(verb, flags, "");
      BareKey("");
      NoTokensIffBlank("");
      KeyIsCogz("cogz", []);
    } else if IsUnclosed(q) {
      UnclosedKey(q, args);
      KeyIsCogz(Argv0Base(q), ["capture-event", verb] + flags);
    } else {
      HeadKey(q, args);
      KeyIsCogz(Argv0Base(HeadArgv0(q).0), SplitWhitespace(HeadArgv0(q).1) + (["capture-event", verb] + flags));
    }
  }

  /** For every binary and every generated hook: the rewrite changes no command with the hook's key exactly
      when the three probes say so. */
  lemma StableExactly(bin: string, verb: string, flags: seq<string>)
    requires AreEventArgs(verb, flags)
    ensures IsStableKey(EventKey(bin, verb, flags), bin) <==> HookStays(bin, verb, flags)
  {
    hide CommandKey, AreEventArgs, Probes;
    var key := EventKey(bin, verb, flags);
    if IsStableKey(key, bin) {
      forall p | p in Probes(key) && CommandKey(WithArgs("cogz", p)) == key
        ensures CommandKey(WithArgs(ShellArgv0(bin), p)) == key
      {
        RewriteSpaced(p, bin);
        assert CommandKey(Rewrite(WithArgs("cogz", p), bin)) == key;
      }
    }
    if HookStays(bin, verb, flags) {
      forall s | CommandKey(s) == key ensures CommandKey(Rewrite(s, bin)) == key {
        StaysFor(bin, verb, flags, s);
      }
    }
  }

  lemma StaysFor(bin: string, verb: string, flags: seq<string>, s: string)
    requires AreEventArgs(verb, flags) && HookStays(bin, verb, flags) && CommandKey(s) == EventKey(bin, verb, flags)
    ensures CommandKey(Rewrite(s, bin)) == EventKey(bin, verb, flags)
  {
    hide CommandKey, AreEventArgs, HookStays, EventKey;
    EventKeyIsNotCogz(bin, verb, flags);
    BareNamesCogz();
    if "cogz " <= s {
      SpacedShape(s);
      RewriteSpaced(s[5..], bin);
      BareStays(bin, verb, flags, s[5..]);
    }
  }

  /** A program text that names cogz whatever follows passes the probes of every hook. */
  lemma NamedHooksStay(bin: string, verb: string, flags: seq<string>)
    requires NamesCogz(ShellArgv0(bin))
    ensures HookStays(bin, verb, flags)
  {
    hide CommandKey, SplitsAsCogz, Probes;
    BareNamesCogz();
    forall p | p in Probes(EventKey(bin, verb, flags))
      ensures CommandKey(WithArgs("cogz", p)) == CommandKey(WithArgs(ShellArgv0(bin), p))
    {
      assert SplitsAsCogz("cogz", p) && SplitsAsCogz(ShellArgv0(bin), p);
      NamesCogzKey("cogz", p);
      NamesCogzKey(ShellArgv0(bin), p);
    }
  }
}
