/** Parsing and printing of frontmatter undo each other: exactly when, and up to what. */
module FrontmatterLaws {
  import opened Text
  import opened Scalars
  import opened FrontmatterFormat

  // ─── Inline arrays ──────────────────────────────────────────────

  /** Inside double quotes the scanner consumes escaped text whole and leaves the quoted state exactly
      at the closing quote, whatever follows. */
  lemma {:induction false} ScannerLeavesAtClosingQuote(s: string, rest: string, current: string)
    ensures ScanItems(EscapeOnePass(s) + "\"" + rest, current, Some('"'))
         == ScanItems(rest, current + EscapeOnePass(s) + "\"", None)
  {
    if s == [] {
      assert EscapeOnePass(s) + "\"" + rest == ['"'] + rest;
      assert current + EscapeOnePass(s) + "\"" == current + ['"'];
    } else {
      var e, tail := EscapeChar(s[0]), EscapeOnePass(s[1..]);
      var text := tail + "\"" + rest;
      assert EscapeOnePass(s) + "\"" + rest == e + text;
      ScanEscapedChar(s[0], text, current);
      ScannerLeavesAtClosingQuote(s[1..], rest, current + e);
      assert current + EscapeOnePass(s) + "\"" == current + e + tail + "\"";
    }
  }

  lemma ScanEscapedChar(c: char, rest: string, current: string)
    ensures ScanItems(EscapeChar(c) + rest, current, Some('"')) == ScanItems(rest, current + EscapeChar(c), Some('"'))
  {
    var e := EscapeChar(c);
    var text := e + rest;
    assert text[|e|..] == rest;
    if c == '\n' || c == '\r' || c == '\t' {
      assert text[1..] == [e[1]] + rest;
      assert text[1..][1..] == rest;
      assert (current + ['\\']) + [e[1]] == current + e;
    }
  }

  lemma ScanQuoted(s: string, rest: string, pad: string)
    requires Blank(pad)
    ensures ScanItems(Quoted(s) + rest, pad, None) == ScanItems(rest, pad + Quoted(s), None)
    ensures Trim(pad + Quoted(s)) == Quoted(s)
  {
    EscapeIsOnePass(s);
    var body := EscapeOnePass(s) + "\"" + rest;
    assert Quoted(s) + rest == ['"'] + body;
    assert (Quoted(s) + rest)[1..] == body;
    ScannerLeavesAtClosingQuote(s, rest, pad + ['"']);
    assert pad + ['"'] + EscapeOnePass(s) + "\"" == pad + Quoted(s);
    TrimIgnoresPadding(pad, Quoted(s), "");
    assert pad + Quoted(s) + "" == pad + Quoted(s);
    TrimFixedIffTrimmed(Quoted(s));
  }

  lemma {:induction false} ScanPrintedItems(items: seq<string>, pad: string)
    requires items != [] && Blank(pad)
    ensures ScanItems(Join(QuotedAll(items), ", "), pad, None) == QuotedAll(items)
    decreases |items|
  {
    var q := QuotedAll(items);
    assert q[1..] == QuotedAll(items[1..]);
    if |items| == 1 {
      assert q[0] + "" == q[0];
      ScanQuoted(items[0], "", pad);
    } else {
      var rest := ", " + Join(q[1..], ", ");
      assert Join(q, ", ") == q[0] + rest;
      ScanQuoted(items[0], rest, pad);
      assert rest[1..] == " " + Join(q[1..], ", ");
      assert rest[1..][1..] == Join(q[1..], ", ");
      assert [] + [' '] == " ";
      ScanPrintedItems(items[1..], " ");
      assert [q[0]] + q[1..] == q;
    }
  }

  lemma StripQuoted(s: string)
    ensures StripItem(Quoted(s)) == s
  {
    TrimFixedIffTrimmed(Quoted(s));
    assert Quoted(s)[1..|Quoted(s)| - 1] == EscapeString(s);
    UnescapeEscape(s);
  }

  /** Every list of strings survives printing as an inline array and scanning back. */
  lemma InlineArrayRoundTrip(items: seq<string>)
    requires items != []
    ensures InlineArray(Join(QuotedAll(items), ", ")) == items
  {
    var q := QuotedAll(items);
    var text := Join(q, ", ");
    assert text[0] == q[0][0] == '"';
    TrimKeepsHead(text);
    ScanPrintedItems(items, "");
    forall i | 0 <= i < |items| ensures StripAll(q)[i] == items[i] {
      StripQuoted(items[i]);
    }
  }

  // ─── Values ─────────────────────────────────────────────────────

  /** What printing a value and reading the line back gives. */
  function Reread(canon: Canonical, v: FmValue): FmValue {
    ParseValue(canon, Trim(PrintValue(v)))
  }

  /** A string the serializer leaves bare must have nothing to trim: `needs_quotes` looks for a space or
      a control character at the ends, while the parser trims every Unicode space. */
  predicate Printable(v: FmValue) {
    v.String? ==> NeedsQuotes(v.s) || Trimmed(v.s)
  }

  lemma RereadQuoted(canon: Canonical, s: string)
    ensures Trim(Quoted(s)) == Quoted(s) && ParseValue(canon, Quoted(s)) == String(s)
  {
    var q := Quoted(s);
    TrimFixedIffTrimmed(q);
    assert q[0] == '"' && q[1..|q| - 1] == EscapeString(s);
    UnescapeEscape(s);
    if IsFloatText(q) { FloatTextChars(q); }
  }

  predicate Plain(s: string) {
    forall c | c in s :: !IsSpecial(c) && !IsControl(c)
  }

  lemma ReadPlain(canon: Canonical, t: string)
    requires Plain(t) && Trimmed(t)
    ensures !ParseValue(canon, t).Array?
    ensures ParseValue(canon, t).String? ==>
              var u := ParseValue(canon, t).s; (u == "" || u == t) && !NeedsQuotes(u)
    ensures !NeedsQuotes(t) ==> ParseValue(canon, t) == String(t)
  {
    if t != "" {
      assert t[0] in t && t[|t| - 1] in t;
    }
  }

  /** An unquoted string is never read back as another kind: what comes back is the string itself, or,
      when there was something to trim, whatever the trimmed text says. */
  lemma RereadBare(canon: Canonical, s: string)
    requires !NeedsQuotes(s)
    ensures ParseValue(canon, Trim(s)) == String(s) <==> Trimmed(s)
    ensures !ParseValue(canon, Trim(s)).Array?
    ensures ParseValue(canon, Trim(s)).String? ==>
              var t := ParseValue(canon, Trim(s)).s; Trimmed(t) && !NeedsQuotes(t)
  {
    TrimFixedIffTrimmed(s);
    var lo, hi := TrimSplits(s);
    assert Plain(s) && Plain(Trim(s));
    ReadPlain(canon, Trim(s));
  }

  lemma RereadFloat(canon: Canonical, f: FloatText)
    requires canon(f) == f
    ensures Reread(canon, Float(f)) == Float(f)
  {
    FloatTextChars(f);
    TrimFixedIffTrimmed(f);
  }

  lemma PrintedIntShape(n: i64)
    ensures Trimmed(PrintInt(n)) && PrintInt(n) != ""
    ensures PrintInt(n)[0] == '-' || IsDigit(PrintInt(n)[0])
    ensures forall c | c in PrintInt(n) :: c == '-' || IsDigit(c)
  {
    var s := PrintInt(n);
    assert s[0] in s && s[|s| - 1] in s;
    if n < 0 {
      assert s == "-" + PrintNat(-(n as int));
    }
  }

  lemma RereadInt(canon: Canonical, n: i64)
    ensures Reread(canon, Int(n)) == Int(n)
  {
    PrintedIntShape(n);
    TrimFixedIffTrimmed(PrintInt(n));
    ParsePrintedInt(n);
  }

  lemma RereadArray(canon: Canonical, items: seq<string>)
    ensures Reread(canon, Array(items)) == Array(items)
  {
    var s := PrintValue(Array(items));
    TrimFixedIffTrimmed(s);
    assert s[0] == '[' && s[|s| - 1] == ']';
    if items == [] {
      assert s[1..|s| - 1] == "";
    } else {
      assert s[1..|s| - 1] == Join(QuotedAll(items), ", ");
      InlineArrayRoundTrip(items);
    }
  }

  /** A float entry holds a text `{:?}` really prints. */
  predicate IsStored(canon: Canonical, v: FmValue) {
    v.Float? ==> canon(v.printed) == v.printed
  }

  /** A value survives printing and reading exactly when it is printable. */
  lemma RereadIffPrintable(canon: Canonical, v: FmValue)
    requires IsStored(canon, v)
    ensures Reread(canon, v) == v <==> Printable(v)
  {
    match v
    case String(s) => if NeedsQuotes(s) { RereadQuoted(canon, s); } else { RereadBare(canon, s); }
    case Float(f) => RereadFloat(canon, f);
    case Int(n) => RereadInt(canon, n);
    case Bool(b) =>
      TrimFixedIffTrimmed(PrintValue(v));
      assert Unsigned("true") == "true" && Unsigned("false") == "false";
      if IsFloatText(PrintValue(v)) { FloatTextChars(PrintValue(v)); }
    case Array(items) => RereadArray(canon, items);
  }

  lemma ParsedIsStored(canon: Canonical, s: string)
    requires Lawful(canon)
    ensures IsStored(canon, ParseValue(canon, s))
  {
  }

  /** One reread is enough: whatever comes back survives from then on. */
  lemma RereadIsPrintable(canon: Canonical, v: FmValue)
    requires Lawful(canon) && IsStored(canon, v)
    ensures Printable(Reread(canon, v)) && IsStored(canon, Reread(canon, v))
  {
    ParsedIsStored(canon, Trim(PrintValue(v)));
    RereadIffPrintable(canon, v);
    if !Printable(v) {
      RereadBare(canon, v.s);
    }
  }

  // ─── Documents ──────────────────────────────────────────────────

  predicate WellFormedKey(k: string) {
    k != "" && Trimmed(k) && ':' !in k && '\n' !in k && k[0] != '#'
  }

  ghost predicate WellFormedKeys(entries: seq<Entry>) {
    (forall e | e in entries :: WellFormedKey(e.0)) && DistinctKeys(entries)
  }

  ghost predicate AllStored(canon: Canonical, entries: seq<Entry>) {
    forall e | e in entries :: IsStored(canon, e.1)
  }

  ghost predicate AllPrintable(entries: seq<Entry>) {
    forall e | e in entries :: Printable(e.1)
  }

  function RereadAll(canon: Canonical, entries: seq<Entry>): (r: seq<Entry>)
    ensures |r| == |entries|
  {
    seq(|entries|, i requires 0 <= i < |entries| => (entries[i].0, Reread(canon, entries[i].1)))
  }

  lemma {:induction false} JoinStaysOnOneLine(items: seq<string>)
    ensures '\n' !in Join(QuotedAll(items), ", ")
    decreases |items|
  {
    if items != [] {
      EscapeIsOnePass(items[0]);
      EscapedHasNoLineBreak(items[0]);
      assert QuotedAll(items)[1..] == QuotedAll(items[1..]);
      JoinStaysOnOneLine(items[1..]);
    }
  }

  lemma PrintedOnOneLine(v: FmValue)
    ensures '\n' !in PrintValue(v)
  {
    match v
    case String(s) =>
      EscapeIsOnePass(s);
      EscapedHasNoLineBreak(s);
    case Float(f) => FloatTextChars(f);
    case Int(n) => PrintedIntShape(n);
    case Bool(_) =>
    case Array(items) => JoinStaysOnOneLine(items);
  }

  lemma TrimStripCr(s: string)
    ensures Trim(StripCr(s)) == Trim(s)
  {
    if StripCr(s) != s {
      assert s == "" + StripCr(s) + "\r";
      TrimIgnoresPadding("", StripCr(s), "\r");
    }
  }

  lemma TrimPrintedLine(k: string, p: string)
    requires k != "" && Trimmed(k)
    ensures Trim((k + ":") + (" " + p)) == k + [':'] + TrimEnd(" " + p)
  {
    TrimEndConcat(k + ":", " " + p);
    assert TrimStart((k + ":") + (" " + p)) == (k + ":") + (" " + p);
  }

  lemma TrimPrintedValue(p: string)
    ensures Trim(TrimEnd(" " + p)) == Trim(p)
  {
    var n := TrimEndSplits(" " + p);
    var v := TrimEnd(" " + p);
    assert " " + p == "" + v + (" " + p)[n..];
    TrimIgnoresPadding("", v, (" " + p)[n..]);
    assert " " + p == " " + p + "";
    TrimIgnoresPadding(" ", p, "");
  }

  /** The parser finds key and value of a printed line where the serializer put them. */
  lemma ReadEntryLine(e: Entry)
    requires WellFormedKey(e.0)
    ensures var t := Trim(StripCr(EntryLine(e)));
            && t != "" && t[0] != '#'
            && Find(t, ':') == |e.0| < |t|
            && Trim(t[..|e.0|]) == e.0
            && Trim(t[|e.0| + 1..]) == Trim(PrintValue(e.1))
  {
    var k, p := e.0, PrintValue(e.1);
    assert EntryLine(e) == (k + ":") + (" " + p);
    TrimStripCr(EntryLine(e));
    TrimPrintedLine(k, p);
    TrimPrintedValue(p);
    CutAt(k, ':', TrimEnd(" " + p));
    TrimFixedIffTrimmed(k);
  }

  lemma ParseEntryLine(canon: Canonical, e: Entry, rest: seq<string>, lineNo: nat, before: seq<Entry>)
    requires WellFormedKey(e.0)
    ensures ParseLines(canon, [StripCr(EntryLine(e))] + rest, lineNo, before)
         == ParseLines(canon, rest, lineNo + 1, Put(before, e.0, Reread(canon, e.1)))
  {
    hide Trim, StripCr, EntryLine, Find, Put, ParseValue, PrintValue;
    ReadEntryLine(e);
    assert ([StripCr(EntryLine(e))] + rest)[1..] == rest;
  }

  lemma {:induction false} ParsePrintedLines(canon: Canonical, entries: seq<Entry>, lineNo: nat, before: seq<Entry>)
    requires forall e | e in entries :: WellFormedKey(e.0)
    ensures ParseLines(canon, Lines(Serialize(entries)), lineNo, before)
         == Ok(PutAll(before, RereadAll(canon, entries)))
    decreases |entries|
  {
    if entries != [] {
      var e, rest := entries[0], entries[1..];
      PrintedOnOneLine(e.1);
      LinesHead(EntryLine(e), Serialize(rest));
      ParseEntryLine(canon, e, Lines(Serialize(rest)), lineNo, before);
      ParsePrintedLines(canon, rest, lineNo + 1, Put(before, e.0, Reread(canon, e.1)));
      assert RereadAll(canon, entries)[1..] == RereadAll(canon, rest);
    }
  }

  lemma {:induction false} PutFresh(entries: seq<Entry>, key: string, value: FmValue)
    requires forall e | e in entries :: e.0 != key
    ensures Put(entries, key, value) == entries + [(key, value)]
  {
    if entries != [] {
      PutFresh(entries[1..], key, value);
      assert entries == [entries[0]] + entries[1..];
    }
  }

  lemma {:induction false} PutAllFresh(entries: seq<Entry>, more: seq<Entry>)
    requires DistinctKeys(entries + more)
    ensures PutAll(entries, more) == entries + more
    decreases |more|
  {
    if more == [] {
      assert entries + more == entries;
    } else {
      var all := entries + more;
      forall e | e in entries ensures e.0 != more[0].0 {
        var i :| 0 <= i < |entries| && entries[i] == e;
        assert all[i] == e && all[|entries|] == more[0];
      }
      PutFresh(entries, more[0].0, more[0].1);
      assert entries + [(more[0].0, more[0].1)] + more[1..] == all;
      PutAllFresh(entries + [more[0]], more[1..]);
    }
  }

  /** Reading back a printed frontmatter gives the same keys in the same order, each with its reread value. */
  lemma ParseSerialized(canon: Canonical, entries: seq<Entry>)
    requires WellFormedKeys(entries)
    ensures Parse(canon, Serialize(entries)) == Ok(RereadAll(canon, entries))
  {
    ParsePrintedLines(canon, entries, 1, []);
    var r := RereadAll(canon, entries);
    forall i, j | 0 <= i < j < |r| ensures r[i].0 != r[j].0 {
      assert entries[i].0 != entries[j].0;
    }
    assert [] + r == r;
    PutAllFresh([], r);
  }

  // ─── What the parser can produce ────────────────────────────────

  lemma {:induction false} PutKeepsWellFormed(canon: Canonical, entries: seq<Entry>, key: string, value: FmValue)
    requires WellFormedKeys(entries) && AllStored(canon, entries)
    requires WellFormedKey(key) && IsStored(canon, value)
    ensures WellFormedKeys(Put(entries, key, value)) && AllStored(canon, Put(entries, key, value))
    ensures forall e | e in Put(entries, key, value) :: e.0 == key || HasKey(entries, e.0)
  {
    if entries != [] && entries[0].0 != key {
      var rest := entries[1..];
      PutKeepsWellFormed(canon, rest, key, value);
      var r := Put(rest, key, value);
      forall e | e in r ensures e.0 != entries[0].0 && (e.0 == key || HasKey(entries, e.0)) {
        if e.0 != key {
          var f :| f in rest && f.0 == e.0;
          assert f in entries;
        }
      }
      assert entries[0] in entries;
    }
  }

  lemma TrimmedKeyIsWellFormed(line: string, colon: nat)
    requires '\n' !in line
    requires var t := Trim(line); t != "" && t[0] != '#' && colon == Find(t, ':') < |t| && Trim(t[..colon]) != ""
    ensures WellFormedKey(Trim(Trim(line)[..colon]))
  {
    var lo, hi := TrimSplits(line);
    var t := Trim(line);
    var before := t[..colon];
    var a, b := TrimSplits(before);
    assert forall c | c in t :: c in line;
    assert before[0] == t[0];
    if before != [] { TrimKeepsHead(before); }
  }

  lemma {:induction false} ParseLinesWellFormed(canon: Canonical, lines: seq<string>, lineNo: nat, before: seq<Entry>)
    requires Lawful(canon) && WellFormedKeys(before) && AllStored(canon, before)
    requires forall l | l in lines :: '\n' !in l
    ensures var r := ParseLines(canon, lines, lineNo, before);
            r.Ok? ==> WellFormedKeys(r.value) && AllStored(canon, r.value)
    decreases |lines|
  {
    if lines != [] {
      var t := Trim(lines[0]);
      assert lines[0] in lines;
      if t == "" || t[0] == '#' {
        ParseLinesWellFormed(canon, lines[1..], lineNo + 1, before);
      } else {
        var colon := Find(t, ':');
        if colon < |t| && Trim(t[..colon]) != "" {
          TrimmedKeyIsWellFormed(lines[0], colon);
          var key, value := Trim(t[..colon]), ParseValue(canon, Trim(t[colon + 1..]));
          PutKeepsWellFormed(canon, before, key, value);
          ParseLinesWellFormed(canon, lines[1..], lineNo + 1, Put(before, key, value));
        }
      }
    }
  }

  /** Every text that parses yields distinct, well-formed keys. */
  lemma ParsedIsWellFormed(canon: Canonical, text: string)
    requires Lawful(canon)
    ensures var r := Parse(canon, text); r.Ok? ==> WellFormedKeys(r.value) && AllStored(canon, r.value)
  {
    LinesHaveNoNewline(text);
    ParseLinesWellFormed(canon, Lines(text), 1, []);
  }

  // ─── The whole file ─────────────────────────────────────────────

  lemma EntryLineIsNoDelimiter(e: Entry)
    requires WellFormedKey(e.0)
    ensures '\n' !in EntryLine(e) && !IsDelimiterLine(EntryLine(e))
  {
    PrintedOnOneLine(e.1);
    var line := EntryLine(e);
    assert line == (e.0 + ":") + (" " + PrintValue(e.1));
    TrimEndCrKeeps(e.0 + ":", " " + PrintValue(e.1));
  }

  lemma {:induction false} TrimEndCrKeeps(s: string, t: string)
    requires s != "" && s[|s| - 1] != '\r'
    ensures s <= TrimEndCr(s + t)
    decreases |t|
  {
    if t == "" {
      assert s + t == s;
    } else if t[|t| - 1] == '\r' {
      assert (s + t)[..|s + t| - 1] == s + t[..|t| - 1];
      TrimEndCrKeeps(s, t[..|t| - 1]);
    }
  }

  lemma DelimiterAfterLine(line: string, rest: string, close: nat)
    requires '\n' !in line && !IsDelimiterLine(line)
    requires ClosingDelimiter(rest) == Some(close)
    ensures ClosingDelimiter(line + "\n" + rest) == Some(|line| + 1 + close)
  {
    CutAt(line, '\n', rest);
    var s := line + "\n" + rest;
    assert s[..Find(s, '\n')] == line;
  }

  lemma DelimiterFirst(after: string)
    ensures ClosingDelimiter("---\n" + after) == Some(0)
  {
    CutAt("---", '\n', after);
    assert "---" + ['\n'] + after == "---\n" + after;
    assert TrimEndCr("---") == "---";
  }

  lemma DelimiterBeyondLine(line: string, rest: string, tail: string)
    requires '\n' !in line && !IsDelimiterLine(line)
    requires ClosingDelimiter(rest + tail) == Some(|rest|)
    ensures ClosingDelimiter((line + "\n" + rest) + tail) == Some(|line + "\n" + rest|)
  {
    DelimiterAfterLine(line, rest + tail, |rest|);
    Regroup(line, "\n", rest, tail);
  }

  /** Printed entries hide no delimiter: the search reaches the one written after them. */
  lemma {:induction false} DelimiterAfterEntries(entries: seq<Entry>, tail: string)
    requires forall e | e in entries :: WellFormedKey(e.0)
    requires ClosingDelimiter(tail) == Some(0)
    ensures ClosingDelimiter(Serialize(entries) + tail) == Some(|Serialize(entries)|)
    decreases |entries|
  {
    if entries == [] {
      assert Serialize(entries) + tail == tail;
    } else {
      var e, rest := entries[0], entries[1..];
      assert WellFormedKey(e.0);
      DelimiterAfterEntries(rest, tail);
      EntryLineIsNoDelimiter(e);
      DelimiterBeyondLine(EntryLine(e), Serialize(rest), tail);
      assert Serialize(entries) == EntryLine(e) + "\n" + Serialize(rest);
    }
  }

  lemma SplitFramed(text: string, body: string)
    requires ClosingDelimiter(text + ("---\n" + ("\n" + body))) == Some(|text|)
    ensures Split(Framed(text, body)) == Ok((StripLastNewline(text), body))
  {
    var afterClose := "\n" + body;
    var closing := "---\n" + afterClose;
    var afterOpen := text + closing;
    assert Framed(text, body) == "---\n" + afterOpen;
    assert Framed(text, body)[4..] == afterOpen;
    assert AfterDelimiter(Framed(text, body)) == Some(afterOpen);
    assert afterOpen[..|text|] == text && afterOpen[|text|..] == closing;
    assert closing[4..] == afterClose && AfterDelimiter(closing) == Some(afterClose);
    assert afterClose[1..] == body;
  }

  /** Splitting a written file gives back the printed entries, without the last newline, and the exact
      body, whatever the body holds. */
  lemma SplitWritten(entries: seq<Entry>, body: string)
    requires forall e | e in entries :: WellFormedKey(e.0)
    ensures Split(Framed(Serialize(entries), body)) == Ok((StripLastNewline(Serialize(entries)), body))
  {
    DelimiterFirst("\n" + body);
    DelimiterAfterEntries(entries, "---\n" + ("\n" + body));
    SplitFramed(Serialize(entries), body);
  }

  lemma {:induction false} ParseLinesTrims(canon: Canonical, a: seq<string>, b: seq<string>, n: nat, before: seq<Entry>)
    requires SameTrimmed(a, b)
    ensures ParseLines(canon, a, n, before) == ParseLines(canon, b, n, before)
    decreases |a|
  {
    if a != [] {
      var t := Trim(a[0]);
      if t == "" || t[0] == '#' {
        ParseLinesTrims(canon, a[1..], b[1..], n + 1, before);
      } else {
        var colon := Find(t, ':');
        if colon < |t| && Trim(t[..colon]) != "" {
          ParseLinesTrims(canon, a[1..], b[1..], n + 1,
                          Put(before, Trim(t[..colon]), ParseValue(canon, Trim(t[colon + 1..]))));
        }
      }
    }
  }

  predicate SameTrimmed(a: seq<string>, b: seq<string>) {
    |a| == |b| && forall i | 0 <= i < |a| :: Trim(a[i]) == Trim(b[i])
  }

  lemma LastNewlineOfOne(line: string)
    requires '\n' !in line && line != ""
    ensures SameTrimmed(Lines(StripLastNewline(line + "\n")), Lines(line + "\n"))
  {
    assert line + "\n" + "" == line + "\n";
    LinesHead(line, "");
    assert StripLastNewline(line + "\n") == line;
    LinesLast(line);
    TrimStripCr(line);
  }

  lemma StripLastNewlineConcat(s: string, t: string)
    requires t != "" && t[|t| - 1] == '\n'
    ensures StripLastNewline(s + t) == s + StripLastNewline(t)
  {
  }

  lemma LastNewlineOfMore(line: string, rest: string)
    requires '\n' !in line && rest != "" && rest[|rest| - 1] == '\n'
    requires SameTrimmed(Lines(StripLastNewline(rest)), Lines(rest))
    ensures SameTrimmed(Lines(StripLastNewline(line + "\n" + rest)), Lines(line + "\n" + rest))
  {
    StripLastNewlineConcat(line + "\n", rest);
    LinesHead(line, rest);
    LinesHead(line, StripLastNewline(rest));
    SameTrimmedCons(StripCr(line), Lines(StripLastNewline(rest)), Lines(rest));
  }

  lemma SameTrimmedCons(l: string, a: seq<string>, b: seq<string>)
    requires SameTrimmed(a, b)
    ensures SameTrimmed([l] + a, [l] + b)
  {
  }

  lemma {:induction false} LinesWithoutLastNewline(entries: seq<Entry>)
    requires forall e | e in entries :: WellFormedKey(e.0)
    ensures SameTrimmed(Lines(StripLastNewline(Serialize(entries))), Lines(Serialize(entries)))
    decreases |entries|
  {
    if entries != [] {
      PrintedOnOneLine(entries[0].1);
      LinesWithoutLastNewline(entries[1..]);
      var line, rest := EntryLine(entries[0]), Serialize(entries[1..]);
      if rest == "" {
        assert line + "\n" + rest == line + "\n";
        LastNewlineOfOne(line);
      } else {
        SerializeEndsWithNewline(entries[1..]);
        LastNewlineOfMore(line, rest);
      }
    }
  }

  lemma {:induction false} SerializeEndsWithNewline(entries: seq<Entry>)
    requires Serialize(entries) != ""
    ensures Serialize(entries)[|Serialize(entries)| - 1] == '\n'
    decreases |entries|
  {
    if Serialize(entries[1..]) != "" {
      SerializeEndsWithNewline(entries[1..]);
    }
  }

  /** A written file splits and parses to the reread entries and the exact body. */
  lemma ReadWritten(canon: Canonical, entries: seq<Entry>, body: string)
    requires WellFormedKeys(entries)
    ensures var parts := Split(Framed(Serialize(entries), body));
            && parts.Ok? && parts.value.1 == body
            && Parse(canon, parts.value.0) == Ok(RereadAll(canon, entries))
  {
    SplitWritten(entries, body);
    LinesWithoutLastNewline(entries);
    ParseLinesTrims(canon, Lines(StripLastNewline(Serialize(entries))), Lines(Serialize(entries)), 1, []);
    ParseSerialized(canon, entries);
  }

  // ─── Main results ───────────────────────────────────────────────

  /** Printing then parsing gives back the very same frontmatter exactly when its keys are distinct and
      well formed and its bare strings have nothing to trim. */
  lemma RoundTripExactly(canon: Canonical, entries: seq<Entry>)
    requires Lawful(canon) && AllStored(canon, entries)
    ensures Parse(canon, Serialize(entries)) == Ok(entries) <==> WellFormedKeys(entries) && AllPrintable(entries)
  {
    if Parse(canon, Serialize(entries)) == Ok(entries) {
      ParsedIsWellFormed(canon, Serialize(entries));
    }
    if WellFormedKeys(entries) {
      ParseSerialized(canon, entries);
      var r := RereadAll(canon, entries);
      forall i | 0 <= i < |entries| ensures r[i] == entries[i] <==> Printable(entries[i].1) {
        assert entries[i] in entries;
        RereadIffPrintable(canon, entries[i].1);
      }
      if r == entries {
        forall e | e in entries ensures Printable(e.1) {
          var i :| 0 <= i < |entries| && entries[i] == e;
        }
      } else {
        assert exists i :: 0 <= i < |entries| && r[i] != entries[i];
      }
    }
  }

  /** For every text that parses, printing always reparses, with the same keys in the same order; one
      more round changes nothing; and the first round already changes nothing exactly when every bare
      string is trimmed. */
  lemma SerializeStabilises(canon: Canonical, text: string)
    requires Lawful(canon) && Parse(canon, text).Ok?
    ensures var first := Parse(canon, text).value;
            var second := Parse(canon, Serialize(first));
            && second == Ok(RereadAll(canon, first))
            && Parse(canon, Serialize(second.value)) == second
            && (second.value == first <==> AllPrintable(first))
  {
    ParsedIsWellFormed(canon, text);
    var first := Parse(canon, text).value;
    ParseSerialized(canon, first);
    RoundTripExactly(canon, first);
    var second := RereadAll(canon, first);
    forall i | 0 <= i < |first| ensures Printable(second[i].1) && IsStored(canon, second[i].1) {
      assert first[i] in first;
      RereadIsPrintable(canon, first[i].1);
    }
    forall e | e in second ensures WellFormedKey(e.0) && Printable(e.1) && IsStored(canon, e.1) {
      var i :| 0 <= i < |second| && second[i] == e;
      assert first[i] in first;
    }
    assert WellFormedKeys(second) && AllStored(canon, second);
    RoundTripExactly(canon, second);
  }

  lemma BareNoBreakSpace(s: string)
    requires s == "\U{A0}true"
    ensures !NeedsQuotes(s) && !Trimmed(s) && Trim(s) == "true"
  {
    assert s == "\U{A0}" + "true" + "";
    TrimIgnoresPadding("\U{A0}", "true", "");
    TrimFixedIffTrimmed("true");
    NoNumberStartsWith(s);
    assert Plain("true");
    assert Plain(s);
  }

  lemma NoNumberStartsWith(s: string)
    requires s != "" && !IsFloatChar(s[0])
    ensures !IsFloatText(s) && ParseInt(s) == NotParsed
  {
    assert s[0] in s;
    if IsFloatText(s) { FloatTextChars(s); }
  }

  /** A no-break space before a keyword: the string is written bare and comes back as a boolean. */
  lemma BareNoBreakSpaceChangesKind(canon: Canonical, s: string)
    requires s == "\U{A0}true"
    ensures Reread(canon, String(s)) == Bool(true) && !Printable(String(s))
  {
    BareNoBreakSpace(s);
  }
}
