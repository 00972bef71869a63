/** The frontmatter format (src/files/frontmatter.rs): values, the ordered entry list, the line
    parser with its inline-array scanner, and the serializer. */
module FrontmatterFormat {
  import opened Text
  import opened Scalars

  datatype FmValue =
    | String(s: string)
    | Float(printed: FloatText)   // a float is known by the text `{:?}` prints for it
    | Int(n: i64)
    | Bool(b: bool)
    | Array(items: seq<string>)

  type Entry = (string, FmValue)

  /** What a parse error says; the reader's wording is not modelled. */
  datatype Message =
    | MissingSeparator
    | EmptyKey
    | MissingField(field: string)
    | InvalidField(field: string, value: string)

  datatype Error = MissingDelimiters | ParseError(line: nat, message: Message)

  datatype Result<T> = Ok(value: T) | Err(error: Error)

  datatype Option<T> = Some(value: T) | None

  // ─── Ordered entries ────────────────────────────────────────────

  function Lookup(entries: seq<Entry>, key: string): Option<FmValue> {
    if entries == [] then None
    else if entries[0].0 == key then Some(entries[0].1)
    else Lookup(entries[1..], key)
  }

  /** Replace the value of the first entry with this key, or append. */
  function Put(entries: seq<Entry>, key: string, value: FmValue): seq<Entry> {
    if entries == [] then [(key, value)]
    else if entries[0].0 == key then [(key, value)] + entries[1..]
    else [entries[0]] + Put(entries[1..], key, value)
  }

  function PutAll(entries: seq<Entry>, more: seq<Entry>): seq<Entry>
    decreases |more|
  {
    if more == [] then entries else PutAll(Put(entries, more[0].0, more[0].1), more[1..])
  }

  predicate HasKey(entries: seq<Entry>, key: string) {
    exists e | e in entries :: e.0 == key
  }

  ghost predicate DistinctKeys(entries: seq<Entry>) {
    forall i, j | 0 <= i < j < |entries| :: entries[i].0 != entries[j].0
  }

  // ─── Escaped and bare strings ───────────────────────────────────

  predicate IsSpecial(c: char) {
    c in {':', '#', '{', '}', '[', ']', ',', '|', '>', '&', '*', '!', '?', '@', '`', '"', '\''}
  }

  predicate NeedsQuotes(s: string) {
    s != "" &&
    (|| (exists c | c in s :: IsSpecial(c))
     || s[0] == ' '
     || s[|s| - 1] == ' '
     || (exists c | c in s :: IsControl(c))
     || s == "true" || s == "false" || s == "null" || s == "~"
     || IsFloatText(s)
     || ParseInt(s) != NotParsed)
  }

  function Quoted(s: string): string {
    "\"" + EscapeString(s) + "\""
  }

  /** The text written after `key: `. */
  function PrintValue(v: FmValue): string {
    match v
    case String(s) => if NeedsQuotes(s) then Quoted(s) else s
    case Float(printed) => printed
    case Int(n) => PrintInt(n)
    case Bool(b) => if b then "true" else "false"
    case Array(items) => if items == [] then "[]" else "[" + Join(QuotedAll(items), ", ") + "]"
  }

  function QuotedAll(items: seq<string>): (r: seq<string>)
    ensures |r| == |items|
  {
    seq(|items|, i requires 0 <= i < |items| => Quoted(items[i]))
  }

  function EntryLine(e: Entry): string {
    e.0 + ": " + PrintValue(e.1)
  }

  function Serialize(entries: seq<Entry>): string {
    if entries == [] then "" else EntryLine(entries[0]) + "\n" + Serialize(entries[1..])
  }

  // ─── Inline arrays ──────────────────────────────────────────────

  predicate IsQuote(c: char) {
    c == '"' || c == '\''
  }

  /** Both outer quotes present, at different positions. */
  predicate Enclosed(s: string, q: char) {
    |s| >= 2 && s[0] == q && s[|s| - 1] == q
  }

  function StripItem(item: string): string {
    var t := Trim(item);
    if Enclosed(t, '"') || Enclosed(t, '\'') then Unescape(t[1..|t| - 1]) else t
  }

  function StripAll(items: seq<string>): (r: seq<string>)
    ensures |r| == |items|
  {
    seq(|items|, i requires 0 <= i < |items| => StripItem(items[i]))
  }

  /** Raw items of the rest of the array, in scanner state `current` and `quote`. */
  function ScanItems(rest: string, current: string, quote: Option<char>): seq<string>
    decreases |rest|
  {
    if rest == [] then
      if Trim(current) != "" || quote.Some? then [Trim(current)] else []
    else
      var c := rest[0];
      match quote
      case Some(q) =>
        if c == '\\' && |rest| > 1 && (rest[1] == '\\' || rest[1] == q) then
          ScanItems(rest[2..], current + ['\\', rest[1]], quote)
        else
          ScanItems(rest[1..], current + [c], if c == q && c != '\\' then None else quote)
      case None =>
        if c == ',' then [Trim(current)] + ScanItems(rest[1..], "", None)
        else ScanItems(rest[1..], current + [c], if IsQuote(c) then Some(c) else None)
  }

  function InlineArray(inner: string): seq<string> {
    if Trim(inner) == "" then [] else StripAll(ScanItems(inner, "", None))
  }

  // ─── Values and lines ───────────────────────────────────────────

  function ParseValue(canon: Canonical, s: string): FmValue {
    if s == "" || s == "~" || s == "null" then String("")
    else if s[0] == '[' && s[|s| - 1] == ']' then Array(InlineArray(s[1..|s| - 1]))
    else if s == "true" then Bool(true)
    else if s == "false" then Bool(false)
    else if ParseInt(s).Value? then Int(ParseInt(s).value)
    else if IsFloatText(s) then Float(canon(s))
    else if Enclosed(s, '"') || Enclosed(s, '\'') then String(Unescape(s[1..|s| - 1]))
    else String(s)
  }

  /** The parser's line loop from `lineNo` on, with the entries read so far. */
  function ParseLines(canon: Canonical, lines: seq<string>, lineNo: nat, entries: seq<Entry>): Result<seq<Entry>> {
    if lines == [] then Ok(entries)
    else
      var t := Trim(lines[0]);
      if t == "" || t[0] == '#' then ParseLines(canon, lines[1..], lineNo + 1, entries)
      else
        var colon := Find(t, ':');
        if colon == |t| then Err(ParseError(lineNo, MissingSeparator))
        else
          var key := Trim(t[..colon]);
          if key == "" then Err(ParseError(lineNo, EmptyKey))
          else
            ParseLines(canon, lines[1..], lineNo + 1, Put(entries, key, ParseValue(canon, Trim(t[colon + 1..]))))
  }

  function Parse(canon: Canonical, text: string): Result<seq<Entry>> {
    ParseLines(canon, Lines(text), 1, [])
  }

  // ─── Delimiters ─────────────────────────────────────────────────

  function TrimEndCr(s: string): string {
    if s != [] && s[|s| - 1] == '\r' then TrimEndCr(s[..|s| - 1]) else s
  }

  function Shift(offset: nat, r: Option<nat>): Option<nat> {
    if r.Some? then Some(offset + r.value) else None
  }

  predicate IsDelimiterLine(line: string) {
    TrimEndCr(line) == "---"
  }

  /** Start of the first line that is exactly three dashes up to carriage returns. */
  function ClosingDelimiter(s: string): (r: Option<nat>)
    ensures r.Some? ==> r.value < |s|
    decreases |s|
  {
    if s == "" then None
    else
      var nl := Find(s, '\n');
      if IsDelimiterLine(s[..nl]) then Some(0)
      else if nl == |s| then None
      else Shift(nl + 1, ClosingDelimiter(s[nl + 1..]))
  }

  function StripLastNewline(s: string): string {
    if s != [] && s[|s| - 1] == '\n' then s[..|s| - 1] else s
  }

  /** The text after an opening or closing delimiter line; `None` when it is not spelled that way. */
  function AfterDelimiter(s: string): Option<string> {
    if "---\n" <= s then Some(s[4..])
    else if "---\r\n" <= s then Some(s[5..])
    else None
  }

  /** Frontmatter text and body of a file. */
  function Split(content: string): Result<(string, string)> {
    match AfterDelimiter(content)
    case None => Err(MissingDelimiters)
    case Some(afterOpen) =>
      match ClosingDelimiter(afterOpen)
      case None => Err(MissingDelimiters)
      case Some(close) =>
        var afterClose := AfterDelimiter(afterOpen[close..]);
        var body := if afterClose.Some? then afterClose.value else "";
        Ok((StripLastNewline(afterOpen[..close]), if body != "" && body[0] == '\n' then body[1..] else body))
  }

  /** The layout of a written file. */
  function Framed(fmText: string, body: string): string {
    "---\n" + fmText + "---\n\n" + body
  }
}
