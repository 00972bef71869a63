/** Reading frontmatter nobody printed (src/files/frontmatter.rs): carriage returns, comments, errors,
    repeated keys, and values spelled by hand. */
module FrontmatterReading {
  import opened Text
  import opened Scalars
  import opened FrontmatterFormat
  import opened FrontmatterLaws
  import Parser = FrontmatterParser

  // ─── Delimiter lines ────────────────────────────────────────────

  const LF := "---\n"
  const CRLF := "---\r\n"

  /** A line of three dashes and carriage returns starts at `i`, and ends before `end`. */
  predicate DelimiterLine(s: string, i: nat, end: nat) {
    && i + 3 <= end <= |s|
    && (i == 0 || s[i - 1] == '\n')
    && s[i] == '-' && s[i + 1] == '-' && s[i + 2] == '-'
    && (forall k | i + 3 <= k < end :: s[k] == '\r')
    && (end == |s| || s[end] == '\n')
  }

  ghost predicate DelimiterAt(s: string, i: nat) {
    exists end :: DelimiterLine(s, i, end)
  }

  lemma {:induction false} TrimmedDashes(line: string)
    ensures IsDelimiterLine(line) <==>
            |line| >= 3 && line[..3] == "---" && forall k | 3 <= k < |line| :: line[k] == '\r'
  {
    if line != "" && line[|line| - 1] == '\r' {
      var init := line[..|line| - 1];
      TrimmedDashes(init);
      if |line| > 3 { assert init[..3] == line[..3]; }
      if |line| == 3 { assert line[..3][2] != "---"[2]; }
    }
  }

  lemma DelimiterFirstLine(s: string)
    ensures DelimiterAt(s, 0) <==> IsDelimiterLine(s[..Find(s, '\n')])
  {
    var nl := Find(s, '\n');
    var line := s[..nl];
    TrimmedDashes(line);
    assert forall k | 0 <= k < nl :: s[k] == line[k] && line[k] in line;
    if IsDelimiterLine(line) {
      assert line[..3][0] == s[0] && line[..3][1] == s[1] && line[..3][2] == s[2];
      assert DelimiterLine(s, 0, nl);
    }
    if end :| DelimiterLine(s, 0, end) {
      FirstNewline(s, end);
      assert line[..3] == "---";
    }
  }

  lemma FirstNewline(s: string, end: nat)
    requires DelimiterLine(s, 0, end)
    ensures Find(s, '\n') == end
  {
    assert forall k | 0 <= k < end :: s[k] != '\n';
    FindUnique(s, '\n', end);
  }

  lemma DelimiterLater(s: string, n: nat, i: nat)
    requires 0 < n <= |s| && s[n - 1] == '\n'
    ensures DelimiterAt(s[n..], i) <==> DelimiterAt(s, n + i)
  {
    var t := s[n..];
    if end :| DelimiterLine(t, i, end) {
      assert DelimiterLine(s, n + i, n + end);
    }
    var j := n + i;
    if end: nat :| DelimiterLine(s, j, end) {
      assert DelimiterLine(t, i, end - n);
    }
  }

  /** The answer is the first delimiter line, or says that there is none. */
  ghost predicate IsFirstDelimiter(s: string, r: Option<nat>) {
    match r
    case Some(close) => DelimiterAt(s, close) && forall i | 0 <= i < close :: !DelimiterAt(s, i)
    case None => forall i: nat :: !DelimiterAt(s, i)
  }

  /** The search finds the first delimiter line there is. */
  lemma {:induction false} ClosingIsFirst(s: string)
    ensures IsFirstDelimiter(s, ClosingDelimiter(s))
    decreases |s|
  {
    hide DelimiterAt, IsDelimiterLine, IsFirstDelimiter;
    if s == "" {
      NothingIsFirst();
    } else {
      var nl := Find(s, '\n');
      if nl < |s| { ClosingIsFirst(s[nl + 1..]); }
      FirstBeyondLine(s, if nl < |s| then ClosingDelimiter(s[nl + 1..]) else None);
    }
  }

  lemma NothingIsFirst()
    ensures IsFirstDelimiter("", None)
  {
    hide DelimiterAt;
    NoDelimiterInNothing();
  }

  lemma FirstBeyondLine(s: string, later: Option<nat>)
    requires s != ""
    requires var nl := Find(s, '\n'); nl < |s| ==> IsFirstDelimiter(s[nl + 1..], later)
    ensures var nl := Find(s, '\n');
            IsFirstDelimiter(s, if IsDelimiterLine(s[..nl]) then Some(0)
                                else if nl == |s| then None else Shift(nl + 1, later))
  {
    hide DelimiterAt, IsDelimiterLine, IsFirstDelimiter, Find;
    DelimiterFirstLine(s);
    NoneInside(s);
    if DelimiterAt(s, 0) {
      FirstAtStart(s);
    } else if Find(s, '\n') == |s| {
      NoneAtAll(s);
    } else {
      FirstInRest(s, Find(s, '\n') + 1, later);
    }
  }

  lemma FirstAtStart(s: string)
    requires DelimiterAt(s, 0)
    ensures IsFirstDelimiter(s, Some(0))
  {
    hide DelimiterAt;
  }

  lemma NoneAtAll(s: string)
    requires forall i: nat :: !DelimiterAt(s, i)
    ensures IsFirstDelimiter(s, None)
  {
    hide DelimiterAt;
  }

  lemma NoneInside(s: string)
    ensures forall i: nat | 0 < i <= Find(s, '\n') || i > |s| :: !DelimiterAt(s, i)
  {
    hide DelimiterAt, Find;
    forall i: nat | 0 < i <= Find(s, '\n') || i > |s| ensures !DelimiterAt(s, i) { NoDelimiterInside(s, i); }
  }

  lemma FirstInRest(s: string, n: nat, later: Option<nat>)
    requires 0 < n <= |s| && s[n - 1] == '\n' && IsFirstDelimiter(s[n..], later)
    requires forall i: nat | i < n :: !DelimiterAt(s, i)
    ensures IsFirstDelimiter(s, Shift(n, later))
  {
    hide DelimiterAt;
    if later.Some? { DelimiterLater(s, n, later.value); }
    forall i: nat | n <= i && (later.None? || i < n + later.value) ensures !DelimiterAt(s, i) {
      DelimiterLater(s, n, i - n);
    }
  }

  lemma NoDelimiterInNothing()
    ensures forall i: nat :: !DelimiterAt("", i)
  {
  }

  lemma NoDelimiterInside(s: string, i: nat)
    requires 0 < i <= Find(s, '\n') || i > |s|
    ensures !DelimiterAt(s, i)
  {
    if 0 < i <= Find(s, '\n') {
      assert s[..Find(s, '\n')][i - 1] == s[i - 1];
    }
  }

  /** A file is split exactly when it opens with three dashes alone on a line, up to one carriage return, and
      some later line is three dashes up to carriage returns. */
  lemma SplitsExactly(content: string)
    ensures Split(content).Ok? <==>
            exists open, i | open in {LF, CRLF} && open <= content :: DelimiterAt(content[|open|..], i)
    ensures Split(content).Err? ==> Split(content) == Err(MissingDelimiters)
  {
    hide DelimiterAt, ClosingDelimiter;
    assert LF <= content ==> content[3] == '\n';
    assert CRLF <= content ==> content[3] == '\r';
    if LF <= content { ClosingIsFirst(content[4..]); }
    if CRLF <= content { ClosingIsFirst(content[5..]); }
  }

  /** No line of the text is a delimiter, and its last line is complete. */
  ghost predicate IsInner(text: string) {
    (text == "" || text[|text| - 1] == '\n') && forall i: nat | i < |text| :: !DelimiterAt(text, i)
  }

  lemma InnerHidesNothing(text: string, tail: string)
    requires IsInner(text) && DelimiterAt(tail, 0)
    ensures ClosingDelimiter(text + tail) == Some(|text|)
  {
    hide DelimiterAt, ClosingDelimiter;
    var s := text + tail;
    forall i: nat | i < |text| ensures !DelimiterAt(s, i) {
      if DelimiterAt(s, i) { LineEndsInside(text, tail, i); }
    }
    assert s[|text|..] == tail;
    if text == "" { assert s == tail; } else { DelimiterLater(s, |text|, 0); }
    ClosingIsFirst(s);
  }

  lemma LineEndsInside(text: string, tail: string, i: nat)
    requires i < |text| && text[|text| - 1] == '\n' && DelimiterAt(text + tail, i)
    ensures DelimiterAt(text, i)
  {
    var s := text + tail;
    var end: nat :| DelimiterLine(s, i, end);
    assert forall k | 0 <= k < |text| :: s[k] == text[k];
    assert s[|text| - 1] == '\n' && end < |text|;
    assert DelimiterLine(text, i, end);
  }

  lemma SplitParts(content: string, text: string, tail: string)
    requires AfterDelimiter(content) == Some(text + tail) && ClosingDelimiter(text + tail) == Some(|text|)
    ensures var rest := AfterDelimiter(tail);
            var body := if rest.Some? then rest.value else "";
            Split(content) == Ok((StripLastNewline(text), if "\n" <= body then body[1..] else body))
  {
    hide AfterDelimiter, ClosingDelimiter, StripLastNewline;
    assert (text + tail)[..|text|] == text && (text + tail)[|text|..] == tail;
  }

  /** Whatever the line ends of opening and closing line: the text between them comes back without its last
      newline, and the body without one leading newline. */
  lemma SplitSpelled(open: string, text: string, close: string, body: string)
    requires open in {LF, CRLF} && close in {LF, CRLF} && IsInner(text)
    ensures var r := Split(open + text + close + body);
            && r.Ok?
            && (if text == "" then r.value.0 == "" else r.value.0 + "\n" == text)
            && (if "\n" <= body then "\n" + r.value.1 == body else r.value.1 == body)
  {
    hide IsInner, DelimiterAt, ClosingDelimiter, AfterDelimiter, Split, StripLastNewline;
    var tail := close + body;
    DelimiterStarts(close, body);
    InnerHidesNothing(text, tail);
    assert open + text + close + body == open + (text + tail);
    AfterSpelled(open, text + tail);
    AfterSpelled(close, body);
    SplitParts(open + text + close + body, text, tail);
    EndsInNewline(text);
  }

  lemma EndsInNewline(text: string)
    requires IsInner(text)
    ensures if text == "" then StripLastNewline(text) == "" else StripLastNewline(text) + "\n" == text
  {
  }

  lemma AfterSpelled(open: string, rest: string)
    requires open in {LF, CRLF}
    ensures AfterDelimiter(open + rest) == Some(rest)
  {
    assert (open + rest)[|open|..] == rest;
    assert open == CRLF ==> (open + rest)[3] == '\r';
  }

  lemma DelimiterStarts(close: string, body: string)
    requires close in {LF, CRLF}
    ensures DelimiterAt(close + body, 0)
  {
    assert DelimiterLine(close + body, 0, |close| - 1);
  }

  /** A closing line that ends the file, or has more carriage returns, leaves no body. */
  lemma SplitWithoutBody(open: string, text: string, tail: string)
    requires open in {LF, CRLF} && IsInner(text) && DelimiterAt(tail, 0) && !(LF <= tail) && !(CRLF <= tail)
    ensures var r := Split(open + text + tail);
            && r.Ok? && r.value.1 == ""
            && (if text == "" then r.value.0 == "" else r.value.0 + "\n" == text)
  {
    hide IsInner, DelimiterAt, ClosingDelimiter, Split, StripLastNewline;
    InnerHidesNothing(text, tail);
    assert open + text + tail == open + (text + tail);
    AfterSpelled(open, text + tail);
    assert AfterDelimiter(tail) == None;
    hide AfterDelimiter;
    SplitParts(open + text + tail, text, tail);
    EndsInNewline(text);
  }

  // ─── Carriage returns ───────────────────────────────────────────

  /** The printed entries with this line end. */
  function Spelled(entries: seq<Entry>, eol: string): string {
    if entries == [] then "" else EntryLine(entries[0]) + eol + Spelled(entries[1..], eol)
  }

  lemma SpelledHead(e: Entry, rest: string, eol: string, line: string)
    requires (eol == "\n" && line == EntryLine(e)) || (eol == "\r\n" && line == EntryLine(e) + "\r")
    ensures EntryLine(e) + eol + rest == line + "\n" + rest
  {
    assert "\r\n" == "\r" + "\n";
  }

  /** A line of the spelling, up to its newline. */
  function SpelledLine(e: Entry, eol: string): string {
    if eol == "\n" then EntryLine(e) else EntryLine(e) + "\r"
  }

  lemma SpelledLineFacts(e: Entry, eol: string)
    requires eol in {"\n", "\r\n"} && WellFormedKey(e.0)
    ensures var line := SpelledLine(e, eol);
            '\n' !in line && line != "" && !IsDelimiterLine(line) && Trim(StripCr(line)) == Trim(StripCr(EntryLine(e)))
  {
    hide Trim, StripCr, IsDelimiterLine, EntryLine, WellFormedKey;
    var line := SpelledLine(e, eol);
    EntryLineIsNoDelimiter(e);
    NonEmptyLine(e);
    TrimStripCr(line);
    TrimStripCr(EntryLine(e));
    if eol == "\r\n" {
      ReturnIsNoDelimiter(e);
      assert line == "" + EntryLine(e) + "\r";
      TrimIgnoresPadding("", EntryLine(e), "\r");
    }
  }

  lemma NonEmptyLine(e: Entry)
    ensures EntryLine(e) != ""
  {
    hide PrintValue;
  }

  lemma ReturnIsNoDelimiter(e: Entry)
    requires WellFormedKey(e.0)
    ensures !IsDelimiterLine(EntryLine(e) + "\r")
  {
    hide PrintValue;
    var k, p := e.0 + ":", " " + PrintValue(e.1);
    assert EntryLine(e) + "\r" == k + (p + "\r");
    TrimEndCrKeeps(k, p + "\r");
  }

  lemma {:induction false} SpelledIsInner(entries: seq<Entry>, eol: string)
    requires eol in {"\n", "\r\n"} && forall e | e in entries :: WellFormedKey(e.0)
    ensures IsInner(Spelled(entries, eol))
    decreases |entries|
  {
    hide IsDelimiterLine, EntryLine, WellFormedKey, DelimiterAt;
    if entries != [] {
      var line, rest := SpelledLine(entries[0], eol), Spelled(entries[1..], eol);
      SpelledIsInner(entries[1..], eol);
      SpelledLineFacts(entries[0], eol);
      SpelledHead(entries[0], rest, eol, line);
      InnerLine(line, rest);
    }
  }

  lemma InnerLine(line: string, rest: string)
    requires '\n' !in line && !IsDelimiterLine(line) && IsInner(rest)
    ensures IsInner(line + "\n" + rest)
  {
    hide DelimiterAt, IsDelimiterLine;
    var s := line + "\n" + rest;
    CutAt(line, '\n', rest);
    DelimiterFirstLine(s);
    forall i: nat | i < |s| ensures !DelimiterAt(s, i) {
      if 0 < i <= |line| {
        NoDelimiterInside(s, i);
      } else if i > |line| {
        DelimiterLater(s, |line| + 1, i - |line| - 1);
      }
    }
  }

  /** Line by line, up to trimming, every spelling reads like the printed text, with its last newline or
      without. */
  lemma {:induction false} SpelledLines(entries: seq<Entry>, eol: string)
    requires eol in {"\n", "\r\n"} && forall e | e in entries :: WellFormedKey(e.0)
    ensures SameTrimmed(Lines(Spelled(entries, eol)), Lines(Serialize(entries)))
    ensures SameTrimmed(Lines(StripLastNewline(Spelled(entries, eol))), Lines(Serialize(entries)))
    decreases |entries|
  {
    hide EntryLine, WellFormedKey, Lines, SameTrimmed;
    if entries == [] {
      NothingIsSame();
    } else {
      var e := entries[0];
      var line, rest := SpelledLine(e, eol), Spelled(entries[1..], eol);
      SpelledLines(entries[1..], eol);
      SpelledIsInner(entries[1..], eol);
      SpelledLineFacts(e, eol);
      SpelledHead(e, rest, eol, line);
      PrintedOnOneLine(e.1);
      assert '\n' !in EntryLine(e) by { EntryLineIsNoDelimiter(e); }
      LinesHead(EntryLine(e), Serialize(entries[1..]));
      LinesHead(line, rest);
      SameTrimmedLine(StripCr(line), StripCr(EntryLine(e)), Lines(rest), Lines(Serialize(entries[1..])));
      SameTrimmedLine(StripCr(line), StripCr(EntryLine(e)), Lines(StripLastNewline(rest)),
                      Lines(Serialize(entries[1..])));
      WithoutLastNewline(line, rest);
      SameTrimmedTrans(Lines(StripLastNewline(line + "\n" + rest)), [StripCr(line)] + Lines(StripLastNewline(rest)),
                       Lines(Serialize(entries)));
    }
  }

  lemma NothingIsSame()
    ensures SameTrimmed(Lines(""), Lines("")) && StripLastNewline("") == ""
  {
  }

  lemma SameTrimmedLine(k: string, l: string, a: seq<string>, b: seq<string>)
    requires Trim(k) == Trim(l) && SameTrimmed(a, b)
    ensures SameTrimmed([k] + a, [l] + b)
  {
  }

  lemma SameTrimmedTrans(a: seq<string>, b: seq<string>, c: seq<string>)
    requires SameTrimmed(a, b) && SameTrimmed(b, c)
    ensures SameTrimmed(a, c)
  {
  }

  lemma SameTrimmedItself(a: seq<string>)
    ensures SameTrimmed(a, a)
  {
  }

  lemma WithoutLastNewline(line: string, rest: string)
    requires '\n' !in line && line != "" && (rest == "" || rest[|rest| - 1] == '\n')
    ensures SameTrimmed(Lines(StripLastNewline(line + "\n" + rest)), [StripCr(line)] + Lines(StripLastNewline(rest)))
  {
    hide Lines, SameTrimmed;
    if rest == "" {
      assert line + "\n" + rest == line + "\n";
      LastNewlineOfOne(line);
      LinesHead(line, "");
    } else {
      StripLastNewlineConcat(line + "\n", rest);
      LinesHead(line, StripLastNewline(rest));
      SameTrimmedItself([StripCr(line)] + Lines(StripLastNewline(rest)));
    }
  }

  /** A file with carriage returns, on its entries, its opening line, its closing line or any of them, splits
      and parses like the printed one; its body is exact unless it starts with a newline, which is taken for
      the blank line after the frontmatter. */
  lemma ReadWithCarriageReturns(canon: Canonical, entries: seq<Entry>, open: string, eol: string, close: string,
                                body: string)
    requires WellFormedKeys(entries) && open in {LF, CRLF} && close in {LF, CRLF} && eol in {"\n", "\r\n"}
    ensures var r := Split(open + Spelled(entries, eol) + close + body);
            && r.Ok?
            && Parse(canon, r.value.0) == Ok(RereadAll(canon, entries))
            && (if "\n" <= body then "\n" + r.value.1 == body else r.value.1 == body)
  {
    hide IsInner, SameTrimmed, Lines, WellFormedKey, Split, DelimiterAt;
    var text := Spelled(entries, eol);
    SpelledIsInner(entries, eol);
    SplitSpelled(open, text, close, body);
    var inner := Split(open + text + close + body).value.0;
    assert inner == StripLastNewline(text) by { OneNewlineLess(inner, text); }
    SpelledLines(entries, eol);
    ParseLinesTrims(canon, Lines(inner), Lines(Serialize(entries)), 1, []);
    ParseSerialized(canon, entries);
  }

  lemma OneNewlineLess(inner: string, text: string)
    requires if text == "" then inner == "" else inner + "\n" == text
    ensures inner == StripLastNewline(text)
  {
  }

  // ─── Errors and repeated keys ───────────────────────────────────

  predicate IsSkipped(line: string) {
    var t := Trim(line);
    t == "" || t[0] == '#'
  }

  /** What is wrong with a line, if anything. */
  function Problem(line: string): Option<Message> {
    if IsSkipped(line) then None
    else if ':' !in line then Some(MissingSeparator)
    else if Trim(line)[0] == ':' then Some(EmptyKey)
    else None
  }

  lemma TrimKeepsColons(line: string)
    ensures ':' in Trim(line) <==> ':' in line
  {
    var lo, hi := TrimSplits(line);
    assert line == line[..lo] + line[lo..hi] + line[hi..];
  }

  lemma ProblemOfLine(line: string)
    requires !IsSkipped(line)
    ensures var t := Trim(line);
            var colon := Find(t, ':');
            && (colon == |t| <==> ':' !in line)
            && (colon < |t| ==> (Trim(t[..colon]) == "" <==> t[0] == ':'))
  {
    var t := Trim(line);
    var colon := Find(t, ':');
    TrimKeepsColons(line);
    TrimFixedIffTrimmed(line);
    assert t[..|t|] == t;
    if 0 < colon < |t| {
      assert t[..colon][0] == t[0];
      TrimKeepsHead(t[..colon]);
    }
  }

  /** Parsing fails exactly at the first line that is wrong, and names it, counting from one. */
  lemma {:induction false} ParseLinesFails(canon: Canonical, lines: seq<string>, lineNo: nat, before: seq<Entry>)
    ensures ParseLines(canon, lines, lineNo, before).Ok? <==> forall l | l in lines :: Problem(l).None?
    ensures forall n: nat, m :: ParseLines(canon, lines, lineNo, before) == Err(ParseError(n, m)) <==>
              && lineNo <= n < lineNo + |lines| && Problem(lines[n - lineNo]) == Some(m)
              && forall i | 0 <= i < n - lineNo :: Problem(lines[i]).None?
    ensures ParseLines(canon, lines, lineNo, before) != Err(MissingDelimiters)
    decreases |lines|
  {
    hide Problem, Trim, Find, ParseValue, Put;
    if lines != [] {
      var rest := lines[1..];
      assert lines == [lines[0]] + rest;
      StepOfLine(canon, lines, lineNo, before);
      if Problem(lines[0]).None? {
        var next := AfterLine(canon, lines[0], before);
        ParseLinesFails(canon, rest, lineNo + 1, next);
        forall n: nat, m
          ensures ParseLines(canon, lines, lineNo, before) == Err(ParseError(n, m)) <==>
                    && lineNo <= n < lineNo + |lines| && Problem(lines[n - lineNo]) == Some(m)
                    && forall i | 0 <= i < n - lineNo :: Problem(lines[i]).None?
        {
          if lineNo < n < lineNo + |lines| {
            SkipFirst(lines, n - lineNo);
            assert lines[n - lineNo] == rest[n - lineNo - 1];
          }
        }
      }
    }
  }

  lemma SkipFirst(lines: seq<string>, n: nat)
    requires 0 < n < |lines| && Problem(lines[0]).None?
    ensures (forall i | 0 <= i < n :: Problem(lines[i]).None?)
            <==> forall i | 0 <= i < n - 1 :: Problem(lines[1..][i]).None?
  {
    hide Problem;
    if forall i | 0 <= i < n - 1 :: Problem(lines[1..][i]).None? {
      forall i | 0 <= i < n ensures Problem(lines[i]).None? {
        if i > 0 { assert lines[i] == lines[1..][i - 1]; }
      }
    }
  }

  /** The entries after a line that is right. */
  function AfterLine(canon: Canonical, line: string, before: seq<Entry>): seq<Entry> {
    var t := Trim(line);
    var colon := Find(t, ':');
    if IsSkipped(line) || colon == |t| then before
    else Put(before, Trim(t[..colon]), ParseValue(canon, Trim(t[colon + 1..])))
  }

  lemma StepOfLine(canon: Canonical, lines: seq<string>, lineNo: nat, before: seq<Entry>)
    requires lines != []
    ensures ParseLines(canon, lines, lineNo, before)
            == match Problem(lines[0])
               case Some(m) => Err(ParseError(lineNo, m))
               case None => ParseLines(canon, lines[1..], lineNo + 1, AfterLine(canon, lines[0], before))
  {
    hide Trim, ParseValue, Put;
    if !IsSkipped(lines[0]) { ProblemOfLine(lines[0]); }
  }

  /** A text parses exactly when no line is wrong; otherwise the error tells what is wrong with the first
      wrong line and its number. Blank lines and comments are never wrong. */
  lemma ParseFailsExactly(canon: Canonical, text: string, n: nat, m: Message)
    ensures Parse(canon, text).Ok? <==> forall l | l in Lines(text) :: Problem(l).None?
    ensures Parse(canon, text) == Err(ParseError(n, m)) <==>
            && 1 <= n <= |Lines(text)| && Problem(Lines(text)[n - 1]) == Some(m)
            && forall i | 0 <= i < n - 1 :: Problem(Lines(text)[i]).None?
  {
    hide Lines, Problem, ParseLines;
    ParseLinesFails(canon, Lines(text), 1, []);
  }

  /** The line gives `key` the value spelled `rest`. */
  ghost predicate Says(line: string, key: string, rest: string) {
    exists before | Assigns(line, before, rest) :: Trim(before) == key
  }

  predicate Assigns(line: string, before: string, rest: string) {
    Trim(line) == before + ":" + rest && ':' !in before && before != "" && before[0] != '#'
  }

  lemma AssignedIsNotSkipped(line: string, before: string, rest: string)
    requires Assigns(line, before, rest)
    ensures !IsSkipped(line)
  {
    hide Trim;
    assert Trim(line)[0] == before[0];
  }

  lemma SkippedSaysNothing(line: string)
    ensures IsSkipped(line) ==> forall key, rest :: !Says(line, key, rest)
  {
    hide IsSkipped, Assigns;
    forall b, r | Assigns(line, b, r) ensures !IsSkipped(line) { AssignedIsNotSkipped(line, b, r); }
  }

  lemma WhatIsSaid(canon: Canonical, line: string, before: seq<Entry>) returns (key: string, rest: string)
    requires Problem(line).None? && !IsSkipped(line)
    ensures AfterLine(canon, line, before) == Put(before, key, ParseValue(canon, Trim(rest)))
    ensures forall k, r :: Says(line, k, r) <==> k == key && r == rest
  {
    hide Put, ParseValue, Trim, Assigns;
    var t := Trim(line);
    ProblemOfLine(line);
    var colon := Find(t, ':');
    key, rest := Trim(t[..colon]), t[colon + 1..];
    AssignsExactly(line, t[..colon], rest);
    forall b, r | Assigns(line, b, r) ensures b == t[..colon] && r == rest { AssignedOnce(line, b, r); }
  }

  lemma AssignsExactly(line: string, before: string, rest: string)
    requires Problem(line).None? && !IsSkipped(line)
    requires var t := Trim(line);
             before == t[..Find(t, ':')] && rest == (if ':' in t then t[Find(t, ':') + 1..] else "")
    ensures Assigns(line, before, rest)
  {
    hide Trim;
    var t := Trim(line);
    ProblemOfLine(line);
    TrimKeepsColons(line);
    assert t == t[..Find(t, ':')] + ":" + rest;
  }

  lemma AssignedOnce(line: string, before: string, rest: string)
    requires Assigns(line, before, rest)
    ensures var t := Trim(line); Find(t, ':') < |t| && before == t[..Find(t, ':')] && rest == t[Find(t, ':') + 1..]
  {
    hide Trim;
    CutAt(before, ':', rest);
  }

  /** This line is the last one about the key. */
  ghost predicate LastSays(lines: seq<string>, i: nat, key: string, rest: string) {
    i < |lines| && Says(lines[i], key, rest) && forall j, other | i < j < |lines| :: !Says(lines[j], key, other)
  }

  ghost predicate NeverSays(lines: seq<string>, key: string) {
    forall i, rest | 0 <= i < |lines| :: !Says(lines[i], key, rest)
  }

  lemma TailSays(lines: seq<string>, i: nat, key: string, rest: string)
    requires LastSays(lines, i, key, rest)
    ensures if i == 0 then NeverSays(lines[1..], key) else LastSays(lines[1..], i - 1, key, rest)
  {
    hide Says;
    var tail := lines[1..];
    forall j, other | i <= j < |tail| ensures !Says(tail[j], key, other) { assert tail[j] == lines[j + 1]; }
  }

  lemma TailNeverSays(lines: seq<string>, key: string)
    requires lines != [] && NeverSays(lines, key)
    ensures NeverSays(lines[1..], key) && forall rest :: !Says(lines[0], key, rest)
  {
    hide Says;
    var tail := lines[1..];
    forall j, other | 0 <= j < |tail| ensures !Says(tail[j], key, other) { assert tail[j] == lines[j + 1]; }
  }

  /** The last line that mentions a key decides its value, and no other key is there. */
  lemma {:induction false} LinesDecide(canon: Canonical, lines: seq<string>, lineNo: nat, before: seq<Entry>,
                                       key: string)
    requires forall l | l in lines :: Problem(l).None?
    ensures var r := ParseLines(canon, lines, lineNo, before);
            && r.Ok?
            && (forall i, rest | LastSays(lines, i, key, rest) ::
                  Lookup(r.value, key) == Some(ParseValue(canon, Trim(rest))))
            && (NeverSays(lines, key) ==> Lookup(r.value, key) == Lookup(before, key))
    decreases |lines|
  {
    hide Problem, Says, Put, Lookup, ParseValue, Trim, AfterLine, LastSays, NeverSays;
    if lines == [] {
      NothingSaid(key);
    } else {
      var tail := lines[1..];
      assert lines == [lines[0]] + tail;
      StepOfLine(canon, lines, lineNo, before);
      LinesDecide(canon, tail, lineNo + 1, AfterLine(canon, lines[0], before), key);
      LookupNext(canon, lines[0], before, key);
      forall i, rest | LastSays(lines, i, key, rest)
        ensures Lookup(ParseLines(canon, lines, lineNo, before).value, key) == Some(ParseValue(canon, Trim(rest)))
      {
        TailSays(lines, i, key, rest);
        if i == 0 { SaysHere(lines, key, rest); }
      }
      if NeverSays(lines, key) { TailNeverSays(lines, key); }
    }
  }

  lemma NothingSaid(key: string)
    ensures forall i, rest :: !LastSays([], i, key, rest)
  {
  }

  lemma SaysHere(lines: seq<string>, key: string, rest: string)
    requires LastSays(lines, 0, key, rest)
    ensures Says(lines[0], key, rest)
  {
  }

  lemma LookupNext(canon: Canonical, line: string, before: seq<Entry>, key: string)
    requires Problem(line).None?
    ensures forall rest | Says(line, key, rest) ::
              Lookup(AfterLine(canon, line, before), key) == Some(ParseValue(canon, Trim(rest)))
    ensures (forall rest :: !Says(line, key, rest)) ==>
              Lookup(AfterLine(canon, line, before), key) == Lookup(before, key)
  {
    hide Put, Lookup, ParseValue, Trim, Says, IsSkipped, Problem;
    if IsSkipped(line) {
      SkippedSaysNothing(line);
    } else {
      hide AfterLine;
      var k, r := WhatIsSaid(canon, line, before);
      Parser.LookupAfterPut(before, k, ParseValue(canon, Trim(r)), key);
      assert Says(line, k, r);
    }
  }
}
