/** Values and entries as people write them (src/files/frontmatter.rs): escapes, single quotes, inline arrays of
    any spelling, and what editing an entry list leaves in place. */
module FrontmatterValues {
  import opened Text
  import opened Scalars
  import opened FrontmatterFormat
  import opened FrontmatterLaws
  import Parser = FrontmatterParser

  // ─── Escapes ────────────────────────────────────────────────────

  ghost predicate EscapeAt(s: string, i: nat) {
    i + 1 < |s| && s[i] == '\\' && s[i + 1] in {'\\', '"', 'n', 'r', 't'}
  }

  lemma {:induction false} UnescapeShortens(s: string)
    ensures |Unescape(s)| <= |s|
    ensures Unescape(s) == s <==> forall i: nat :: !EscapeAt(s, i)
  {
    if s != [] {
      if EscapeAt(s, 0) {
        UnescapeShortens(s[2..]);
      } else {
        UnescapeShortens(s[1..]);
        assert s == [s[0]] + s[1..];
        if forall i: nat :: !EscapeAt(s, i) {
          forall i: nat ensures !EscapeAt(s[1..], i) { assert !EscapeAt(s, i + 1); }
        }
        if forall i: nat :: !EscapeAt(s[1..], i) {
          forall i: nat ensures !EscapeAt(s, i) { if i > 0 { assert !EscapeAt(s[1..], i - 1); } }
        }
        assert Unescape(s)[1..] == Unescape(s[1..]);
      }
    }
  }

  // ─── Strings ────────────────────────────────────────────────────

  /** A string is quoted exactly when it has to be: it holds a control character or one YAML reads as syntax,
      it starts or ends with a space, or its bare text reads as something else. */
  lemma QuotedExactly(canon: Canonical, s: string)
    ensures PrintValue(String(s)) == (if NeedsQuotes(s) then "\"" + EscapeString(s) + "\"" else s)
    ensures NeedsQuotes(s) <==>
            s != "" && (|| (exists c | c in s :: c in ":#{}[],|>&*!?@`\"'" || IsControl(c))
                        || s[0] == ' ' || s[|s| - 1] == ' '
                        || ParseValue(canon, s) != String(s))
  {
    SpecialExactly();
    if s != "" && forall c | c in s :: !IsSpecial(c) {
      assert s[0] in s && s[|s| - 1] in s;
    }
  }

  lemma SpecialExactly()
    ensures forall c :: IsSpecial(c) <==> c in ":#{}[],|>&*!?@`\"'"
  {
  }

  /** Either kind of quotes around a text reads as a string, unescaped. */
  lemma ReadQuotes(canon: Canonical, q: char, s: string)
    requires q in {'"', '\''}
    ensures ParseValue(canon, [q] + s + [q]) == String(Unescape(s))
  {
    var t := [q] + s + [q];
    assert t[0] == q && t[|t| - 1] == q && t[1..|t| - 1] == s;
    if IsFloatText(t) { FloatTextChars(t); }
    assert Unsigned(t) == t && t[0] in t;
  }

  // ─── Inline arrays ──────────────────────────────────────────────

  /** An array item as written: bare, or in quotes of one kind, with blanks around it. */
  datatype Written = Written(before: string, quote: Option<char>, text: string, after: string)

  predicate IsWritten(w: Written) {
    && Blank(w.before) && Blank(w.after)
    && match w.quote
       case None => Trimmed(w.text) && forall c | c in w.text :: c != ',' && c != '"' && c != '\''
       case Some(q) => q in {'"', '\''} && q !in w.text && '\\' !in w.text
  }

  function Core(w: Written): string {
    match w.quote
    case None => w.text
    case Some(q) => [q] + w.text + [q]
  }

  function Spell(w: Written): string {
    w.before + Core(w) + w.after
  }

  function SpellAll(ws: seq<Written>): seq<string> {
    seq(|ws|, i requires 0 <= i < |ws| => Spell(ws[i]))
  }

  function Texts(ws: seq<Written>): (r: seq<string>)
    ensures |r| == |ws|
  {
    seq(|ws|, i requires 0 <= i < |ws| => ws[i].text)
  }

  lemma {:induction false} ScanPlain(p: string, rest: string, current: string)
    requires forall c | c in p :: c != ',' && c != '"' && c != '\''
    ensures ScanItems(p + rest, current, None) == ScanItems(rest, current + p, None)
  {
    if p == "" {
      assert p + rest == rest && current + p == current;
    } else {
      assert p[0] in p && forall c | c in p[1..] :: c in p;
      assert (p + rest)[1..] == p[1..] + rest;
      ScanPlain(p[1..], rest, current + [p[0]]);
      assert current + [p[0]] + p[1..] == current + p;
    }
  }

  lemma {:induction false} ScanInQuotes(p: string, q: char, rest: string, current: string)
    requires q in {'"', '\''} && q !in p && '\\' !in p
    ensures ScanItems(p + ([q] + rest), current, Some(q)) == ScanItems(rest, current + p + [q], None)
  {
    if p == "" {
      assert p + ([q] + rest) == [q] + rest && current + p == current;
    } else {
      assert p[0] in p && forall c | c in p[1..] :: c in p;
      assert (p + ([q] + rest))[1..] == p[1..] + ([q] + rest);
      ScanInQuotes(p[1..], q, rest, current + [p[0]]);
      assert current + [p[0]] + p[1..] == current + p;
    }
  }

  lemma BlankIsPlain(s: string)
    requires Blank(s)
    ensures forall c | c in s :: c != ',' && c != '"' && c != '\''
  {
  }

  /** The scanner takes an item as it is spelled, up to the comma after it. */
  lemma ScanWritten(w: Written, rest: string)
    requires IsWritten(w)
    ensures ScanItems(Spell(w) + rest, "", None) == ScanItems(rest, Spell(w), None)
  {
    hide Trim, Blank;
    BlankIsPlain(w.before);
    BlankIsPlain(w.after);
    var tail := w.after + rest;
    assert Spell(w) + rest == w.before + (Core(w) + tail);
    ScanPlain(w.before, Core(w) + tail, "");
    assert "" + w.before == w.before;
    ScanCore(w, tail);
    ScanPlain(w.after, rest, w.before + Core(w));
  }

  lemma ScanCore(w: Written, tail: string)
    requires IsWritten(w)
    ensures ScanItems(Core(w) + tail, w.before, None) == ScanItems(tail, w.before + Core(w), None)
  {
    hide Trim, Blank;
    match w.quote
    case None => ScanPlain(w.text, tail, w.before);
    case Some(q) =>
      var inner := w.text + ([q] + tail);
      assert Core(w) + tail == [q] + inner && ([q] + inner)[1..] == inner;
      ScanInQuotes(w.text, q, tail, w.before + [q]);
      assert w.before + [q] + w.text + [q] == w.before + Core(w);
  }

  lemma TrimWritten(w: Written)
    requires IsWritten(w)
    ensures Trim(Spell(w)) == Core(w) && StripItem(Core(w)) == w.text
  {
    hide Blank;
    TrimIgnoresPadding(w.before, Core(w), w.after);
    TrimFixedIffTrimmed(Core(w));
    match w.quote
    case None =>
      if w.text != "" { assert w.text[0] in w.text; }
    case Some(q) =>
      assert Core(w)[1..|Core(w)| - 1] == w.text;
      UnescapeShortens(w.text);
      forall i: nat ensures !EscapeAt(w.text, i) {
        if i < |w.text| { assert w.text[i] in w.text; }
      }
  }

  function Cores(ws: seq<Written>): (r: seq<string>)
    ensures |r| == |ws|
  {
    seq(|ws|, i requires 0 <= i < |ws| => Core(ws[i]))
  }

  /** A comma may follow the last item; without one the last item must be there to be seen. */
  lemma {:induction false} ScanAllWritten(ws: seq<Written>, end: string)
    requires ws != [] && forall w | w in ws :: IsWritten(w)
    requires (end == "" && Core(ws[|ws| - 1]) != "") || (end != "" && end[0] == ',' && Blank(end[1..]))
    ensures ScanItems(Join(SpellAll(ws), ",") + end, "", None) == Cores(ws)
    decreases |ws|
  {
    hide IsWritten, Blank, Trim, Core;
    var all := SpellAll(ws);
    assert ws[0] in ws;
    TrimWritten(ws[0]);
    if |ws| == 1 {
      assert Join(all, ",") == Spell(ws[0]);
      ScanWritten(ws[0], end);
      ScanEnd(Spell(ws[0]), end);
      assert Cores(ws) == [Core(ws[0])];
    } else {
      var rest := Join(SpellAll(ws[1..]), ",") + end;
      assert all[1..] == SpellAll(ws[1..]);
      assert Join(all, ",") + end == Spell(ws[0]) + ("," + rest);
      ScanWritten(ws[0], "," + rest);
      ScanComma(rest, Spell(ws[0]));
      ScanAllWritten(ws[1..], end);
      assert Cores(ws) == [Core(ws[0])] + Cores(ws[1..]);
    }
  }

  lemma ScanComma(rest: string, current: string)
    ensures ScanItems("," + rest, current, None) == [Trim(current)] + ScanItems(rest, "", None)
  {
    assert ("," + rest)[1..] == rest;
  }

  lemma ScanEnd(current: string, end: string)
    requires (end == "" && Trim(current) != "") || (end != "" && end[0] == ',' && Blank(end[1..]))
    ensures ScanItems(end, current, None) == [Trim(current)]
  {
    hide Trim;
    if end != "" {
      assert end == "," + end[1..];
      ScanComma(end[1..], current);
      BlankIsPlain(end[1..]);
      ScanPlain(end[1..], "", "");
      assert end[1..] + "" == end[1..] && "" + end[1..] == end[1..];
      TrimBlankIsEmpty(end[1..]);
    }
  }

  lemma TrimBlankIsEmpty(s: string)
    requires Blank(s)
    ensures Trim(s) == ""
  {
    TrimBlank(s);
  }

  /** An array written by hand is read item by item: quotes of either kind protect commas and are taken off,
      blanks around items are dropped, an empty item counts unless it is the last, and a final comma does not. */
  lemma ReadWrittenArray(ws: seq<Written>, end: string)
    requires ws != [] && forall w | w in ws :: IsWritten(w)
    requires (end == "" && Core(ws[|ws| - 1]) != "") || (end != "" && end[0] == ',' && Blank(end[1..]))
    ensures InlineArray(Join(SpellAll(ws), ",") + end) == Texts(ws)
  {
    hide IsWritten, Blank, Core, StripItem, ScanItems;
    var text := Join(SpellAll(ws), ",") + end;
    ScanAllWritten(ws, end);
    if Trim(text) == "" { BlankScansToNothing(text); }
    forall i | 0 <= i < |ws| ensures StripAll(Cores(ws))[i] == ws[i].text {
      assert ws[i] in ws;
      TrimWritten(ws[i]);
    }
  }

  lemma BlankScansToNothing(text: string)
    requires Trim(text) == ""
    ensures ScanItems(text, "", None) == []
  {
    hide Trim;
    var lo, hi := TrimSplits(text);
    assert text == text[..lo] + text[hi..];
    BlankIsPlain(text);
    ScanPlain(text, "", "");
    assert text + "" == text && "" + text == text;
  }

  // ─── Editing entries ────────────────────────────────────────────

  /** `insert` on a key that is there changes the value of its first entry and nothing else; on any other key
      it appends. */
  lemma {:induction false} PutExactly(entries: seq<Entry>, key: string, value: FmValue)
    ensures match FirstIndex(entries, key)
            case Some(i) => Put(entries, key, value) == entries[i := (key, value)]
            case None => Put(entries, key, value) == entries + [(key, value)]
  {
    if entries != [] && entries[0].0 != key {
      PutExactly(entries[1..], key, value);
      assert entries == [entries[0]] + entries[1..];
    }
  }

  function FirstIndex(entries: seq<Entry>, key: string): (r: Option<nat>)
    ensures r.Some? ==> r.value < |entries| && entries[r.value].0 == key
    ensures forall i | 0 <= i < (if r.Some? then r.value else |entries|) :: entries[i].0 != key
  {
    if entries == [] then None
    else if entries[0].0 == key then Some(0)
    else Shift(1, FirstIndex(entries[1..], key))
  }

  /** `remove` takes out every entry with the key and keeps the others, in order. */
  lemma {:induction false} WithoutConcat(a: seq<Entry>, b: seq<Entry>, key: string)
    ensures Parser.Without(a + b, key) == Parser.Without(a, key) + Parser.Without(b, key)
    ensures (forall e | e in a :: e.0 != key) ==> Parser.Without(a, key) == a
    ensures (forall e | e in a :: e.0 == key) ==> Parser.Without(a, key) == []
  {
    if a == [] {
      assert a + b == b;
    } else {
      assert (a + b)[1..] == a[1..] + b;
      assert a == [a[0]] + a[1..];
      WithoutConcat(a[1..], b, key);
    }
  }

  lemma {:induction false} LookupAfterRemove(entries: seq<Entry>, key: string, other: string)
    ensures Lookup(Parser.Without(entries, key), other) == if other == key then None else Lookup(entries, other)
  {
    if entries != [] {
      LookupAfterRemove(entries[1..], key, other);
      var rest := Parser.Without(entries[1..], key);
      if entries[0].0 != key {
        assert Parser.Without(entries, key) == [entries[0]] + rest && ([entries[0]] + rest)[1..] == rest;
      } else {
        assert Parser.Without(entries, key) == rest;
      }
    }
  }
}
