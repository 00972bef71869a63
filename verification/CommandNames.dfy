/** When a command named `cogz` is still named so after its bare program is replaced by the binary. */
module CommandNames {
  import opened Text
  import opened CommandKeys
  import opened CommandKeyLaws

  predicate CommandNamesCogz(cmd: string) {
    Argv0Base(SplitArgv0(cmd).0) == "cogz"
  }

  const NAME_PROBE := "mcp-stdio \""

  /** The command of a server started by hand, with a quote after it, once the binary is written in. */
  function ProbeCommand(bin: string): string {
    WithArgs(ShellArgv0(bin), NAME_PROBE)
  }

  /** Two commands to look at before a run: the binary alone and the probe. */
  predicate Recognised(bin: string) {
    CommandNamesCogz(bin) && CommandNamesCogz(ProbeCommand(bin))
  }

  /** A binary recognised alone is recognised in a command too. */
  predicate StaysRecognised(bin: string) {
    CommandNamesCogz(bin) ==> CommandNamesCogz(ProbeCommand(bin))
  }

  ghost predicate NameSurvives(bin: string) {
    forall s | CommandNamesCogz(s) :: CommandNamesCogz(Rewrite(s, bin))
  }

  lemma BareIsNamed(x: string)
    ensures CommandNamesCogz("cogz") && CommandNamesCogz(WithArgs("cogz", x))
  {
    hide CommandKey, Argv0Base;
    BareNamesCogz();
    assert SplitsAsCogz("cogz", x);
    CogzBase();
    assert TrimStart("cogz") == "cogz" && "cogz"[..4] == "cogz";
  }

  lemma BaseOfSpaceEnd(a: string)
    requires a != "" && a[|a| - 1] == ' '
    ensures Argv0Base(a) != "cogz"
  {
    var base := AfterLastSeparator(a);
    assert base[|base| - 1] == ' ' && "cogz"[3] == 'z' && ".exe"[3] == 'e';
    assert |base| >= 4 ==> base[|base| - 4..][3] == base[|base| - 1];
  }

  lemma ProbeProgram()
    ensures SplitArgv0(NAME_PROBE).0 == "mcp-stdio" && Argv0Base("mcp-stdio") != "cogz"
  {
    hide ClosedHead, HeadArgv0, Argv0Base, SplitArgv0;
    var m := "mcp-stdio";
    WordIsProgram(m);
    SplitAfterHead(m, "\"");
    assert NAME_PROBE == WithArgs(m, "\"");
  }

  lemma BlankIsNamedNothing(q: string)
    requires Blank(q)
    ensures !CommandNamesCogz(WithArgs(q, NAME_PROBE))
  {
    hide Argv0Base;
    assert WithArgs(q, NAME_PROBE) == (q + " ") + NAME_PROBE;
    assert Blank(q + " ");
    TrimBlank(q + " ");
    TrimStartConcat(q + " ", NAME_PROBE);
    ProbeProgram();
    TrimStartTwice(WithArgs(q, NAME_PROBE));
    TrimStartTwice(NAME_PROBE);
  }

  lemma UnclosedLosesName(u: string)
    requires u != [] && u[0] == '"' && '"' !in u[1..]
    ensures !CommandNamesCogz(WithArgs(u, NAME_PROBE))
  {
    hide Argv0Base;
    var e := " mcp-stdio ";
    assert NAME_PROBE == "mcp-stdio " + "\"";
    assert WithArgs(u, NAME_PROBE) == u + (e + "\"");
    SplitUnclosed(u, e);
    BaseOfSpaceEnd(u[1..] + e);
  }

  /** A probe command named cogz is named so with any arguments. */
  lemma ProgramStaysNamed(q: string, x: string)
    requires CommandNamesCogz(WithArgs(q, NAME_PROBE))
    ensures CommandNamesCogz(WithArgs(q, x))
  {
    hide Argv0Base, SplitArgv0;
    TrimBlank(q);
    if Blank(q) { BlankIsNamedNothing(q); }
    var u := TrimStart(q);
    var _ := TrimStartSplits(q);
    SplitIgnoresPadding(q, NAME_PROBE);
    SplitIgnoresPadding(q, x);
    if u[0] == '"' && '"' !in u[1..] { UnclosedLosesName(u); }
    SplitAfterHead(u, NAME_PROBE);
    SplitAfterHead(u, x);
  }

  lemma NameSurvivesIffRecognised(bin: string)
    ensures NameSurvives(bin) <==> Recognised(bin)
  {
    hide CommandNamesCogz;
    BareIsNamed(NAME_PROBE);
    if NameSurvives(bin) {
      RewriteSpaced(NAME_PROBE, bin);
      assert CommandNamesCogz(Rewrite("cogz", bin));
      assert CommandNamesCogz(Rewrite(WithArgs("cogz", NAME_PROBE), bin));
    }
    if Recognised(bin) {
      forall s | CommandNamesCogz(s) ensures CommandNamesCogz(Rewrite(s, bin)) {
        if s != "cogz" && "cogz " <= s { ProgramStaysNamed(ShellArgv0(bin), s[5..]); }
      }
    }
  }

  lemma NamesCogzIsRecognised(bin: string, x: string)
    requires NamesCogz(ShellArgv0(bin))
    ensures CommandNamesCogz(WithArgs(ShellArgv0(bin), x)) && StaysRecognised(bin)
  {
    assert SplitsAsCogz(ShellArgv0(bin), x) && SplitsAsCogz(ShellArgv0(bin), NAME_PROBE);
  }

  /** Any path to a file named cogz without quotes names it wherever it is written, spaces or not. */
  lemma QuotelessNamesCogz(bin: string)
    requires '"' !in bin && Argv0Base(bin) == "cogz"
    ensures NamesCogz(ShellArgv0(bin))
  {
    hide SplitsAsCogz, ClosedHead, HeadArgv0, Argv0Base;
    EmptyBase();
    if exists c | c in bin :: IsWhitespace(c) {
      QuotedHead(bin);
      var q := "\"" + bin + "\"";
      assert TrimStart(q) == q;
      forall x ensures SplitsAsCogz(q, x) {
        SplitHeadOfCogz(q, x);
      }
    } else {
      PlainNamesCogz(bin);
    }
  }

  lemma EmptyBase()
    ensures Argv0Base("") != "cogz"
  {
  }

  lemma ProbeMentionsServer(program: string)
    ensures Contains(WithArgs(program, NAME_PROBE), "mcp-stdio")
  {
    var s, n := WithArgs(program, NAME_PROBE), "mcp-stdio";
    var i := |program| + 1;
    assert s[i..] == NAME_PROBE && NAME_PROBE[..|n|] == n;
    assert s[i..i + |n|] == s[i..][..|n|];
    assert OccursAt(s, n, i);
  }
}
