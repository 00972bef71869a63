/** How the program of a command is named (src/configure/mod.rs): whatever directory, quotes and `.exe` are around
    it; and which hook elements stand for others. */
module ProgramNames {
  import opened Text
  import opened CommandKeys
  import opened CommandKeyLaws
  import opened JsonMerge
  import Sorting

  predicate IsFileName(name: string) {
    forall c | c in name :: !IsSeparator(c)
  }

  lemma {:induction false} BaseAfterSeparator(dir: string, sep: char, name: string)
    requires sep in {'/', '\\'} && IsFileName(name)
    ensures AfterLastSeparator(dir + [sep] + name) == name && AfterLastSeparator(name) == name
    decreases |name|
  {
    var s := dir + [sep] + name;
    if name == "" {
      assert s[|s| - 1] == sep;
    } else {
      var init, last := name[..|name| - 1], name[|name| - 1];
      assert last in name && forall c | c in init :: c in name;
      assert s[..|s| - 1] == dir + [sep] + init && s[|s| - 1] == last;
      BaseAfterSeparator(dir, sep, init);
    }
  }

  /** The directory of a program does not matter to its name, nor does one `.exe`. */
  lemma NameInDirectory(dir: string, sep: char, name: string)
    requires sep in {'/', '\\'} && IsFileName(name)
    ensures Argv0Base(dir + [sep] + name) == Argv0Base(name)
    ensures Argv0Base(name + ".exe") == name
    ensures !EndsWith(name, ".exe") ==> Argv0Base(name) == name
  {
    BaseAfterSeparator(dir, sep, name);
    var exe := name + ".exe";
    assert IsFileName(exe) by {
      assert ".exe"[0] == '.' && ".exe"[1] == 'e' && ".exe"[2] == 'x' && ".exe"[3] == 'e';
    }
    BaseAfterSeparator(dir, sep, exe);
    assert exe[|name|..] == ".exe" && exe[..|name|] == name;
  }

  /** A quoted program with any spaces in its path, as Windows writes it, is keyed like the bare name. */
  lemma QuotedExeKey(dir: string, sep: char, args: string)
    requires '"' !in dir && sep in {'/', '\\'}
    ensures CommandKey(WithArgs("\"" + dir + [sep] + "cogz.exe\"", args)) == CommandKey(WithArgs("cogz", args))
  {
    hide SplitsAsCogz, ClosedHead, HeadArgv0, Argv0Base, CommandKey;
    var path := dir + [sep] + "cogz.exe";
    var q := "\"" + path + "\"";
    assert "\"" + dir + [sep] + "cogz.exe\"" == q by { assert "cogz.exe\"" == "cogz.exe" + "\""; }
    CogzFileName();
    NameInDirectory(dir, sep, "cogz.exe");
    NameInDirectory("", sep, "cogz");
    assert "cogz" + ".exe" == "cogz.exe";
    assert '"' !in path;
    QuotedHead(path);
    assert TrimStart(q) == q;
    SplitHeadOfCogz(q, args);
    NamesCogzKey(q, args);
    BareNamesCogz();
    assert SplitsAsCogz("cogz", args);
    NamesCogzKey("cogz", args);
  }

  lemma CogzFileName()
    ensures IsFileName("cogz") && IsFileName("cogz.exe") && '"' !in "cogz.exe"
  {
  }

  /** The key of a command that reports no event is its words and the program's name, sorted and joined by spaces,
      whatever the program. */
  lemma KeyHasEveryWord(base: string, tokens: seq<string>) returns (words: seq<string>)
    requires base != "cogz" || EventVerb(tokens) == []
    ensures multiset(words) == multiset(tokens) + multiset{base} && Sorting.IsSorted(Sorting.StringLe, words)
    ensures KeyOf(base, tokens) == Join(words, " ")
  {
    words := Sorting.SortBy(Sorting.StringLe, tokens + [base]);
    Sorting.StringLeIsPreorder();
    Sorting.SortKeepsElements(Sorting.StringLe, tokens + [base]);
    Sorting.SortSorts(Sorting.StringLe, tokens + [base]);
  }

  // ─── Hook elements ──────────────────────────────────────────────

  /** A matcher group nobody else stands for: it says more than a matcher and commands. */
  predicate SaysMore(g: Fields) {
    && "hooks" in g && g["hooks"].Array?
    && (|| (exists k | k in g :: k !in {"matcher", "hooks"})
        || exists h | h in g["hooks"].items :: HookCommand(h).None?)
  }

  lemma OnlyPlainGroupsCover(g: Fields, x: Value)
    requires SaysMore(g)
    ensures Covers(Object(g), x) <==> x == Object(g)
    ensures Covers(x, Object(g)) <==> x == Object(g)
  {
    assert HookKeyOf(Object(g)).None?;
  }

  predicate IsFlat(f: Fields) {
    !("hooks" in f && f["hooks"].Array?) && StringAt(f, "command").Some?
  }

  function MatcherOf(f: Fields): string {
    match StringAt(f, "matcher")
    case Some(m) => m
    case None => ""
  }

  /** A flat entry stands for another one exactly when matcher and key agree: its timeout and other settings do not
      matter, and no matcher is an empty one. */
  lemma FlatCoversExactly(f: Fields, g: Fields)
    requires IsFlat(f) && IsFlat(g)
    ensures Covers(Object(f), Object(g)) <==>
            && MatcherOf(f) == MatcherOf(g)
            && CommandKey(StringAt(f, "command").value) == CommandKey(StringAt(g, "command").value)
  {
    hide CommandKey;
    var k, l := CommandKey(StringAt(f, "command").value), CommandKey(StringAt(g, "command").value);
    assert HookKeyOf(Object(f)) == Some(HookKey(MatcherOf(f), [k]));
    assert HookKeyOf(Object(g)) == Some(HookKey(MatcherOf(g), [l]));
    assert l in [l];
  }
}
