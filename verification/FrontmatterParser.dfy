/** The loops of the frontmatter reader and writer (src/files/frontmatter.rs), each proved against the
    functions of FrontmatterFormat. */
module FrontmatterParser {
  import opened Text
  import opened Scalars
  import opened FrontmatterFormat

  function Without(entries: seq<Entry>, key: string): seq<Entry> {
    if entries == [] then []
    else (if entries[0].0 != key then [entries[0]] else []) + Without(entries[1..], key)
  }

  /** Ordered frontmatter: insertion order is print order. */
  class Frontmatter {
    var entries: seq<Entry>

    constructor ()
      ensures entries == []
    {
      entries := [];
    }

    function Get(key: string): Option<FmValue>
      reads this
    {
      Lookup(entries, key)
    }

    method Insert(key: string, value: FmValue)
      modifies this
      ensures entries == Put(old(entries), key, value)
    {
      var seen, rest := [], entries;
      while rest != [] && rest[0].0 != key
        invariant Put(entries, key, value) == seen + Put(rest, key, value)
        decreases |rest|
      {
        seen, rest := seen + [rest[0]], rest[1..];
      }
      entries := seen + ([(key, value)] + (if rest == [] then [] else rest[1..]));
    }

    method Remove(key: string)
      modifies this
      ensures entries == Without(old(entries), key)
    {
      var kept, rest := [], entries;
      while rest != []
        invariant kept + Without(rest, key) == Without(entries, key)
        decreases |rest|
      {
        if rest[0].0 != key {
          kept := kept + [rest[0]];
        }
        rest := rest[1..];
      }
      entries := kept;
    }
  }

  /** `insert` keeps keys distinct, and a lookup after it sees the new value and no other change. */
  lemma {:induction false} LookupAfterPut(entries: seq<Entry>, key: string, value: FmValue, other: string)
    ensures Lookup(Put(entries, key, value), other) == if other == key then Some(value) else Lookup(entries, other)
  {
    if entries != [] && entries[0].0 != key {
      LookupAfterPut(entries[1..], key, value, other);
    }
  }

  method ParseInlineArray(inner: string) returns (items: seq<string>)
    ensures items == InlineArray(inner)
  {
    if Trim(inner) == "" {
      return [];
    }
    var raw: seq<string> := [];
    var current := "";
    var inQuotes: Option<char> := None;
    var rest := inner;
    while rest != []
      invariant raw + ScanItems(rest, current, inQuotes) == ScanItems(inner, "", None)
      decreases |rest|
    {
      var c := rest[0];
      match inQuotes {
        case Some(q) =>
          if c == '\\' {
            if |rest| > 1 && (rest[1] == '\\' || rest[1] == q) {
              current, rest := current + ['\\', rest[1]], rest[2..];
              continue;
            }
            current := current + [c];
          } else if c == q {
            current, inQuotes := current + [c], None;
          } else {
            current := current + [c];
          }
        case None =>
          if IsQuote(c) {
            current, inQuotes := current + [c], Some(c);
          } else if c == ',' {
            raw, current := raw + [Trim(current)], "";
          } else {
            current := current + [c];
          }
      }
      rest := rest[1..];
    }
    if Trim(current) != "" || inQuotes.Some? {
      raw := raw + [Trim(current)];
    }
    items := [];
    for j := 0 to |raw|
      invariant items == StripAll(raw)[..j]
    {
      var t := Trim(raw[j]);
      if Enclosed(t, '"') || Enclosed(t, '\'') {
        t := UnescapeString(t[1..|t| - 1]);
      }
      items := items + [t];
    }
  }

  method ReadValue(canon: Canonical, s: string) returns (v: FmValue)
    ensures v == ParseValue(canon, s)
  {
    if s == "" || s == "~" || s == "null" {
      return String("");
    }
    if s[0] == '[' && s[|s| - 1] == ']' {
      var items := ParseInlineArray(s[1..|s| - 1]);
      return Array(items);
    }
    if s == "true" {
      return Bool(true);
    }
    if s == "false" {
      return Bool(false);
    }
    if ParseInt(s).Value? {
      return Int(ParseInt(s).value);
    }
    if IsFloatText(s) {
      return Float(canon(s));
    }
    if Enclosed(s, '"') || Enclosed(s, '\'') {
      var unescaped := UnescapeString(s[1..|s| - 1]);
      return String(unescaped);
    }
    return String(s);
  }

  method ParseFrontmatter(canon: Canonical, text: string) returns (r: Result<Frontmatter>)
    ensures r.Ok? ==> fresh(r.value) && Parse(canon, text) == Ok(r.value.entries)
    ensures r.Err? ==> Parse(canon, text) == Err(r.error)
  {
    var fm := new Frontmatter();
    var lines := Lines(text);
    for i := 0 to |lines|
      invariant fresh(fm)
      invariant ParseLines(canon, lines[i..], i + 1, fm.entries) == Parse(canon, text)
    {
      assert lines[i..][1..] == lines[i + 1..];
      var trimmed := Trim(lines[i]);
      if trimmed == "" || trimmed[0] == '#' {
        continue;
      }
      var colon := Find(trimmed, ':');
      if colon == |trimmed| {
        return Err(ParseError(i + 1, MissingSeparator));
      }
      var key := Trim(trimmed[..colon]);
      if key == "" {
        return Err(ParseError(i + 1, EmptyKey));
      }
      var value := ReadValue(canon, Trim(trimmed[colon + 1..]));
      fm.Insert(key, value);
    }
    r := Ok(fm);
  }

  method SerializeFrontmatter(fm: Frontmatter) returns (out: string)
    ensures out == Serialize(fm.entries)
  {
    out := "";
    var entries := fm.entries;
    for i := 0 to |entries|
      invariant out + Serialize(entries[i..]) == Serialize(entries)
    {
      assert entries[i..][1..] == entries[i + 1..];
      out := out + (EntryLine(entries[i]) + "\n");
    }
  }

  /** The line loop inside `split_frontmatter`; `rest` is what the iterator has left. */
  method FindClosingDelimiter(s: string) returns (close: Option<nat>)
    ensures close == ClosingDelimiter(s)
  {
    var start, rest := 0, s;
    while rest != ""
      invariant ClosingDelimiter(s) == Shift(start, ClosingDelimiter(rest))
      decreases |rest|
    {
      var nl := Find(rest, '\n');
      if IsDelimiterLine(rest[..nl]) {
        return Some(start);
      }
      if nl == |rest| {
        return None;
      }
      var after := rest[nl + 1..];
      assert ClosingDelimiter(rest) == Shift(nl + 1, ClosingDelimiter(after));
      start, rest := start + nl + 1, after;
    }
    close := None;
  }

  method SplitFrontmatter(content: string) returns (r: Result<(string, string)>)
    ensures r == Split(content)
  {
    var opening := AfterDelimiter(content);
    if opening.None? {
      return Err(MissingDelimiters);
    }
    var afterOpen := opening.value;
    var close := FindClosingDelimiter(afterOpen);
    if close.None? {
      return Err(MissingDelimiters);
    }
    var afterClose := AfterDelimiter(afterOpen[close.value..]);
    var body := if afterClose.Some? then afterClose.value else "";
    r := Ok((StripLastNewline(afterOpen[..close.value]), if body != "" && body[0] == '\n' then body[1..] else body));
  }
}
