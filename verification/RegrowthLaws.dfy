/** What regrowth shows (src/context/compress.rs): everything it may while the budget lasts, front to back, and
    no full text before every excerpt. */
module RegrowthLaws {
  import opened Text
  import opened Compress
  import opened CompressLaws
  import Scalars

  function LongerOf(now: string, wanted: string): string {
    if ByteLen(wanted) > ByteLen(now) then wanted else now
  }

  /** What a section shows once it has what the pass wants to show of it. */
  function Shown(s: Section, full: FullContent, capped: bool): Section {
    if s.entityId in full then s.(content := LongerOf(s.content, Wanted(s.source, full[s.entityId], capped))) else s
  }

  /** Counted in tokens, the bytes of the text are no more than its characters. */
  predicate IsSnug(t: string) {
    ByteLen(t) / 4 == EstimateTokens(t)
  }

  lemma AsciiIsSnug(t: string)
    requires IsAscii(t)
    ensures IsSnug(t)
  {
    AsciiByteLen(t);
  }

  /** The beginning of the text, and then an ASCII remark of two characters or more, as in an excerpt or a cut. */
  ghost predicate IsCutOf(content: string, text: string) {
    exists k | 0 <= k <= |content| - 2 && k <= |text| :: content[..k] == text[..k] && IsAscii(content[k..])
  }

  /** Cutting `text` to more tokens than `content` has gives more bytes, too. */
  ghost predicate Regrows(content: string, text: string) {
    IsSnug(content) || EstimateTokens(text) <= EstimateTokens(content) || IsCutOf(content, text)
  }

  ghost predicate AllRegrow(ss: seq<Section>, full: FullContent, capped: bool) {
    forall s | s in ss && s.entityId in full :: Regrows(s.content, Wanted(s.source, full[s.entityId], capped))
  }

  lemma CutHasMoreBytes(content: string, text: string, room: nat)
    requires Regrows(content, text) && EstimateTokens(content) < room < EstimateTokens(text)
    ensures ByteLen(TruncateToTokens(text, room)) > ByteLen(content)
  {
    hide ByteLen;
    var t := 4 * room - 3;
    CharactersAreBytes(TruncateToTokens(text, room));
    if !IsSnug(content) {
      var k :| 0 <= k <= |content| - 2 && k <= |text| && content[..k] == text[..k] && IsAscii(content[k..]);
      assert content == content[..k] + content[k..];
      ByteLenConcat(content[..k], content[k..]);
      AsciiByteLen(content[k..]);
      assert text[..t] == text[..k] + text[k..t];
      ByteLenConcat(text[..k], text[k..t]);
      CharactersAreBytes(text[k..t]);
      ByteLenConcat(text[..t], "...");
      AsciiByteLen("...");
    }
  }

  // ─── One pass ───────────────────────────────────────────────────

  /** A section is shown as wanted, or cut so as to use up the budget. */
  lemma RegrownOrFull(s: Section, full: FullContent, used: nat, budget: nat, capped: bool)
    requires used < budget
    requires s.entityId in full ==> Regrows(s.content, Wanted(s.source, full[s.entityId], capped))
    ensures IsShownOrFull(s, full, used, budget, capped)
  {
    hide Wanted, TruncateToTokens, ByteLen, Regrows;
    if s.entityId in full {
      var wanted, room := Wanted(s.source, full[s.entityId], capped), budget - used + EstimateTokens(s.content);
      if EstimateTokens(wanted) > room {
        TruncatedCostsRoom(wanted, room);
        CutHasMoreBytes(s.content, wanted, room);
      }
    }
  }

  lemma CharactersAreBytes(t: string)
    ensures ByteLen(t) >= |t|
  {
  }

  /** From the front, each section is shown as wanted, until one uses up the budget and the rest stay as they
      were. */
  lemma {:induction false} PassShows(ss: seq<Section>, full: FullContent, used: nat, budget: nat, capped: bool)
    returns (n: nat)
    requires TotalTokens(ss) <= used && AllRegrow(ss, full, capped)
    ensures var r := RelaxPass(ss, full, used, budget, capped);
            && n <= |ss|
            && (forall i | 0 <= i < n :: r[i] == Shown(ss[i], full, capped))
            && (forall i | n < i < |ss| :: r[i] == ss[i])
            && (n < |ss| ==> used - TotalTokens(ss) + TotalTokens(r) >= budget)
  {
    hide RelaxAt, SectionTokens, Shown, AllRegrow, Regrows, RelaxPass, TotalTokens;
    n := 0;
    if ss == [] {
      NothingToRegrow(full, used, budget, capped);
    } else if used >= budget {
      RelaxPassStops(ss, full, used, budget, capped);
    } else {
      HeadRegrows(ss, full, capped);
      var s, next := PassHead(ss, full, used, budget, capped);
      RegrownOrFull(ss[0], full, used, budget, capped);
      if s == Shown(ss[0], full, capped) {
        var m := PassShows(ss[1..], full, next, budget, capped);
        n := m + 1;
      } else {
        RelaxPassStops(ss[1..], full, next, budget, capped);
      }
    }
  }

  lemma HeadRegrows(ss: seq<Section>, full: FullContent, capped: bool)
    requires AllRegrow(ss, full, capped) && ss != []
    ensures ss[0].entityId in full ==> Regrows(ss[0].content, Wanted(ss[0].source, full[ss[0].entityId], capped))
    ensures AllRegrow(ss[1..], full, capped)
  {
    hide Regrows, Wanted;
    assert ss[0] in ss && forall s | s in ss[1..] :: s in ss;
  }

  lemma NothingToRegrow(full: FullContent, used: nat, budget: nat, capped: bool)
    ensures TotalTokens([]) == 0 && RelaxPass([], full, used, budget, capped) == []
  {
  }

  lemma PassHead(ss: seq<Section>, full: FullContent, used: nat, budget: nat, capped: bool)
    returns (s: Section, next: nat)
    requires TotalTokens(ss) <= used && ss != []
    ensures s == RelaxAt(ss[0], full, used, budget, capped)
    ensures next == used - SectionTokens(ss[0]) + SectionTokens(s) && TotalTokens(ss[1..]) <= next
    ensures RelaxPass(ss, full, used, budget, capped) == [s] + RelaxPass(ss[1..], full, next, budget, capped)
    ensures var r := RelaxPass(ss, full, used, budget, capped);
            var tail := RelaxPass(ss[1..], full, next, budget, capped);
            used - TotalTokens(ss) + TotalTokens(r) == next - TotalTokens(ss[1..]) + TotalTokens(tail)
  {
    hide RelaxAt, SectionTokens;
    s := RelaxAt(ss[0], full, used, budget, capped);
    next := used - SectionTokens(ss[0]) + SectionTokens(s);
  }

  /** The text a search for trouble regrows into: plain, and longer than everything. */
  function LongText(n: nat): string {
    seq(n, (i: nat) => 'a')
  }

  /** Snugness is what it takes: a section with this content is, in every pass and with every budget and full text,
      shown as wanted or cut to use up the budget, exactly when the content is snug. Otherwise the cut text can be
      no longer in bytes and is thrown away, with budget left. */
  lemma ShownOrFullExactly(content: string)
    ensures (forall s: Section, full: FullContent, used: nat, budget: nat, capped: bool |
               s.content == content && used < budget :: IsShownOrFull(s, full, used, budget, capped))
            <==> IsSnug(content)
  {
    hide IsSnug, IsShownOrFull;
    if IsSnug(content) {
      forall s: Section, full: FullContent, used: nat, budget: nat, capped: bool |
        s.content == content && used < budget ensures IsShownOrFull(s, full, used, budget, capped)
      {
        SnugRegrows(s, full, capped);
        RegrownOrFull(s, full, used, budget, capped);
      }
    } else {
      var s := Section("function", "id", "", content, 0, Full);
      var full: FullContent := map["id" := LongText(4 * (EstimateTokens(content) + 2) + ByteLen(content))];
      ThrownAway(s, full);
    }
  }

  lemma SnugRegrows(s: Section, full: FullContent, capped: bool)
    requires IsSnug(s.content)
    ensures s.entityId in full ==> Regrows(s.content, Wanted(s.source, full[s.entityId], capped))
  {
  }

  ghost predicate IsShownOrFull(s: Section, full: FullContent, used: nat, budget: nat, capped: bool) {
    var r := RelaxAt(s, full, used, budget, capped);
    r == Shown(s, full, capped) || used - SectionTokens(s) + SectionTokens(r) == budget
  }

  lemma ThrownAway(s: Section, full: FullContent)
    requires s.entityId in full && !IsSnug(s.content)
    requires full[s.entityId] == LongText(4 * (EstimateTokens(s.content) + 2) + ByteLen(s.content))
    ensures !IsShownOrFull(s, full, SectionTokens(s), SectionTokens(s) + 1, false)
  {
    hide ByteLen, TruncateToTokens;
    var text, room := full[s.entityId], 1 + EstimateTokens(s.content);
    CharactersAreBytes(s.content);
    AsciiByteLen(text);
    TruncatedCostsRoom(text, room);
    var c := TruncateToTokens(text, room);
    assert |c| == 4 * room && IsAscii(c) by { CutLongText(text, room); }
    AsciiByteLen(c);
    assert RelaxAt(s, full, SectionTokens(s), SectionTokens(s) + 1, false) == s;
  }

  lemma CutLongText(text: string, room: nat)
    requires IsAscii(text) && |text| > 4 * room && room > 0
    ensures |TruncateToTokens(text, room)| == 4 * room && IsAscii(TruncateToTokens(text, room))
  {
    assert forall c | c in TruncateToTokens(text, room) :: c in text || c == '.';
  }

  // ─── Both passes ────────────────────────────────────────────────

  /** The excerpt a section may grow to before any full text is shown. */
  function Excerpt(s: Section, full: FullContent): string
    requires s.entityId in full
  {
    ExcerptLines(full[s.entityId], if s.source == "module" then 3 else if s.source == "file" then 30 else 40)
  }

  function ShownInFull(s: Section, full: FullContent): Section {
    if s.entityId in full then s.(content := LongerOf(LongerOf(s.content, Excerpt(s, full)), full[s.entityId])) else s
  }

  lemma ShownTwice(s: Section, full: FullContent)
    ensures Shown(Shown(s, full, true), full, false) == ShownInFull(s, full)
  {
    hide ExcerptLines, ByteLen;
  }

  /** What every mapped section shows, and then its excerpt, regrows into what comes next. */
  ghost predicate IsReady(s: Section, full: FullContent)
    requires s.entityId in full
  {
    && Regrows(s.content, Excerpt(s, full))
    && Regrows(LongerOf(s.content, Excerpt(s, full)), full[s.entityId])
  }

  ghost predicate AreReady(ss: seq<Section>, full: FullContent) {
    forall s | s in ss && s.entityId in full :: IsReady(s, full)
  }

  /** Either the budget is used up, or every mapped section shows the longest of what it showed, its excerpt and
      its full text: at least as much as the full text, and exactly that where both others are shorter. */
  lemma RegrowthIsComplete(ss: seq<Section>, full: FullContent, budget: nat)
    requires AreReady(ss, full)
    ensures var r := Relaxed(ss, full, budget);
            TotalTokens(r) >= budget || forall i | 0 <= i < |ss| ::
              && r[i] == ShownInFull(ss[i], full)
              && (ss[i].entityId in full ==>
                    var (text, excerpt) := (full[ss[i].entityId], Excerpt(ss[i], full));
                    && ByteLen(r[i].content) >= ByteLen(text)
                    && (ByteLen(ss[i].content) < ByteLen(text) && (ByteLen(excerpt) < ByteLen(text) || excerpt == text)
                        ==> r[i].content == text))
  {
    hide RelaxPass, TotalTokens, Shown, ShownInFull, AreReady, Excerpt, ByteLen, Regrows;
    var once := RelaxPass(ss, full, TotalTokens(ss), budget, true);
    ReadyForExcerpts(ss, full);
    var n := PassShows(ss, full, TotalTokens(ss), budget, true);
    if n < |ss| {
      RelaxPassStops(once, full, TotalTokens(once), budget, false);
    } else {
      ReadyForFullTexts(ss, once, full);
      var m := PassShows(once, full, TotalTokens(once), budget, false);
    }
    if TotalTokens(Relaxed(ss, full, budget)) < budget {
      forall i | 0 <= i < |ss| ensures Relaxed(ss, full, budget)[i] == ShownInFull(ss[i], full) {
        ShownTwice(ss[i], full);
      }
      forall i | 0 <= i < |ss| && ss[i].entityId in full
        ensures ByteLen(Relaxed(ss, full, budget)[i].content) >= ByteLen(full[ss[i].entityId])
        ensures var (text, excerpt) := (full[ss[i].entityId], Excerpt(ss[i], full));
                ByteLen(ss[i].content) < ByteLen(text) && (ByteLen(excerpt) < ByteLen(text) || excerpt == text)
                ==> Relaxed(ss, full, budget)[i].content == text
      {
        FullTextWins(ss[i], full);
      }
    }
  }

  lemma ReadyForExcerpts(ss: seq<Section>, full: FullContent)
    requires AreReady(ss, full)
    ensures AllRegrow(ss, full, true)
  {
    hide Regrows;
  }

  lemma ReadyForFullTexts(ss: seq<Section>, once: seq<Section>, full: FullContent)
    requires AreReady(ss, full) && |once| == |ss|
    requires forall i | 0 <= i < |ss| :: once[i] == Shown(ss[i], full, true)
    ensures AllRegrow(once, full, false)
  {
    hide Regrows, Excerpt, Shown;
    forall s | s in once && s.entityId in full ensures Regrows(s.content, Wanted(s.source, full[s.entityId], false)) {
      var i :| 0 <= i < |once| && once[i] == s;
      assert ss[i] in ss;
      ShownContent(ss[i], full);
    }
  }

  lemma ShownContent(s: Section, full: FullContent)
    ensures Shown(s, full, true).entityId == s.entityId
    ensures s.entityId in full ==> Shown(s, full, true).content == LongerOf(s.content, Excerpt(s, full))
  {
    hide LongerOf, ExcerptLines;
  }

  lemma FullTextWins(s: Section, full: FullContent)
    requires s.entityId in full
    ensures var (r, text, excerpt) := (ShownInFull(s, full), full[s.entityId], Excerpt(s, full));
            && ByteLen(r.content) >= ByteLen(text)
            && (ByteLen(s.content) < ByteLen(text) && (ByteLen(excerpt) < ByteLen(text) || excerpt == text)
                ==> r.content == text)
  {
    hide ByteLen, ExcerptLines;
  }

  lemma CutIsShorter(t: string, n: nat)
    requires EstimateTokens(t) > n
    ensures ByteLen(TruncateToTokens(t, n)) <= ByteLen(t)
  {
    if n > 0 {
      var k := 4 * n - 3;
      ByteLenConcat(t[..k], "...");
      ByteLenConcat(t[..k], t[k..]);
      assert t == t[..k] + t[k..];
      CharactersAreBytes(t[k..]);
      AsciiByteLen("...");
    }
  }

  lemma CappedIsBelowExcerpt(s: Section, full: FullContent, used: nat, budget: nat)
    requires s.entityId in full
    ensures var r := RelaxAt(s, full, used, budget, true);
            ByteLen(r.content) <= ByteLen(s.content) || ByteLen(r.content) <= ByteLen(Excerpt(s, full))
  {
    hide ExcerptLines, TruncateToTokens, ByteLen;
    var room := (if used < budget then budget - used else 0) + EstimateTokens(s.content);
    if EstimateTokens(Excerpt(s, full)) > room { CutIsShorter(Excerpt(s, full), room); }
  }

  lemma {:induction false} CappedPassIsBelowExcerpts(ss: seq<Section>, full: FullContent, used: nat, budget: nat,
                                                     i: nat)
    requires TotalTokens(ss) <= used && i < |ss| && ss[i].entityId in full
    ensures var r := RelaxPass(ss, full, used, budget, true)[i];
            ByteLen(r.content) <= ByteLen(ss[i].content) || ByteLen(r.content) <= ByteLen(Excerpt(ss[i], full))
    decreases |ss|
  {
    hide RelaxAt, SectionTokens, Excerpt, ByteLen;
    var s := RelaxAt(ss[0], full, used, budget, true);
    if i == 0 {
      CappedIsBelowExcerpt(ss[0], full, used, budget);
    } else {
      CappedPassIsBelowExcerpts(ss[1..], full, used - SectionTokens(ss[0]) + SectionTokens(s), budget, i - 1);
    }
  }

  /** No section grows past its excerpt while another one still lacks its own. */
  lemma ExcerptsComeFirst(ss: seq<Section>, full: FullContent, budget: nat, i: nat, j: nat)
    requires AreReady(ss, full)
    requires i < |ss| && ss[i].entityId in full && j < |ss| && ss[j].entityId in full
    ensures var r := Relaxed(ss, full, budget);
            ByteLen(r[i].content) < ByteLen(Excerpt(ss[i], full)) ==>
              || ByteLen(r[j].content) <= ByteLen(ss[j].content)
              || ByteLen(r[j].content) <= ByteLen(Excerpt(ss[j], full))
  {
    hide RelaxPass, TotalTokens, Excerpt, AreReady, ByteLen, IsFormOf, Regrows;
    ReadyForExcerpts(ss, full);
    var once := RelaxPass(ss, full, TotalTokens(ss), budget, true);
    var n := PassShows(ss, full, TotalTokens(ss), budget, true);
    if n < |ss| {
      RelaxPassStops(once, full, TotalTokens(once), budget, false);
      CappedPassIsBelowExcerpts(ss, full, TotalTokens(ss), budget, j);
    } else {
      RelaxPassGrows(once, full, TotalTokens(once), budget, false);
      ShowsExcerpt(ss[i], full);
    }
  }

  lemma ShowsExcerpt(s: Section, full: FullContent)
    requires s.entityId in full
    ensures ByteLen(Shown(s, full, true).content) >= ByteLen(Excerpt(s, full))
  {
    hide ByteLen, ExcerptLines;
  }

  // ─── Which sections are ready ───────────────────────────────────

  /** Sections are when contents and excerpts are snug, as ASCII texts are. */
  lemma SnugAreReady(ss: seq<Section>, full: FullContent)
    requires forall s | s in ss && s.entityId in full :: IsSnug(s.content) && IsSnug(Excerpt(s, full))
    ensures AreReady(ss, full)
  {
    hide Excerpt, IsSnug;
  }

  lemma FirstLine(content: string) returns (line: string, rest: string)
    requires |Lines(content)| > 1 && '\r' !in content
    ensures content == line + "\n" + rest && '\r' !in rest
    ensures Lines(content) == [line] + Lines(rest)
  {
    var nl := Find(content, '\n');
    line, rest := content[..nl], content[nl + 1..];
    assert line != "" ==> line[|line| - 1] in content;
    assert StripCr(line) == line;
  }

  lemma {:induction false} HeadIsPrefix(content: string, n: nat)
    requires 0 < n < |Lines(content)| && '\r' !in content
    ensures Join(Lines(content)[..n], "\n") <= content
    decreases n
  {
    hide Join, Lines;
    var line, rest := FirstLine(content);
    if n == 1 {
      assert Lines(content)[..1] == [line];
      JoinOne(line);
    } else {
      HeadIsPrefix(rest, n - 1);
      var head := Lines(rest)[..n - 1];
      assert Lines(content)[..n] == [line] + head;
      JoinTwo(line, head);
    }
  }

  lemma JoinTwo(line: string, head: seq<string>)
    requires head != []
    ensures Join([line] + head, "\n") == line + "\n" + Join(head, "\n")
  {
    assert ([line] + head)[1..] == head;
  }

  lemma {:induction false} JoinGrows(ls: seq<string>, n: nat)
    requires 0 < n <= |ls|
    ensures |Join(ls[..n], "\n")| <= |Join(ls, "\n")|
    decreases |ls|
  {
    hide Join;
    if n == 1 {
      assert ls[..1] == [ls[0]];
      JoinOne(ls[0]);
      if |ls| > 1 {
        assert ls == [ls[0]] + ls[1..];
        JoinTwo(ls[0], ls[1..]);
      } else {
        assert ls[..1] == ls;
      }
    } else {
      assert ls == [ls[0]] + ls[1..] && ls[..n] == [ls[0]] + ls[1..][..n - 1];
      JoinGrows(ls[1..], n - 1);
      JoinTwo(ls[0], ls[1..]);
      JoinTwo(ls[0], ls[1..][..n - 1]);
    }
  }

  /** A shorter excerpt of a text is a cut of it, and of every longer excerpt. */
  lemma ExcerptIsCut(text: string, n: nat, m: nat)
    requires 0 < n <= m && '\r' !in text
    ensures Regrows(ExcerptLines(text, n), ExcerptLines(text, m))
    ensures Regrows(ExcerptLines(text, n), text)
  {
    hide Lines, Join, IsSnug, MoreLines;
    if n < |Lines(text)| {
      HeadIsPrefix(text, n);
      SpellExcerpt(text, n);
      var head, note := Join(Lines(text)[..n], "\n"), "\n" + MoreLines(|Lines(text)| - n);
      NoteIsAscii(|Lines(text)| - n);
      HeadAndNote(head, note, text);
      if m < |Lines(text)| {
        HeadIsPrefix(text, m);
        SpellExcerpt(text, m);
        assert Lines(text)[..m][..n] == Lines(text)[..n];
        JoinGrows(Lines(text)[..m], n);
        HeadAndNote(head, note, ExcerptLines(text, m));
      }
    }
  }

  lemma {:induction false} LinesHaveNoReturn(text: string)
    requires '\r' !in text
    ensures forall l | l in Lines(text) :: '\r' !in l
    decreases |text|
  {
    if text != "" {
      var nl := Find(text, '\n');
      if nl < |text| {
        assert text == text[..nl] + text[nl..nl + 1] + text[nl + 1..];
        LinesHaveNoReturn(text[nl + 1..]);
      }
    }
  }

  /** The same of an excerpt that is shortened again. */
  lemma ExcerptOfExcerptIsCut(text: string, n: nat, k: nat, m: nat)
    requires 0 < k <= n <= m && '\r' !in text
    ensures Regrows(ExcerptLines(ExcerptLines(text, n), k), ExcerptLines(text, m))
    ensures Regrows(ExcerptLines(ExcerptLines(text, n), k), text)
  {
    hide Lines, Join, IsSnug, MoreLines, IsCutOf, ExcerptLines;
    if |Lines(text)| <= n {
      ShortIsItsExcerpt(text, n);
      ExcerptIsCut(text, k, m);
    } else {
      var inner, left := ExcerptLines(text, n), |Lines(text)| - n;
      LinesHaveNoReturn(text);
      assert forall l | l in Lines(text)[..n] :: l in Lines(text) && (l == "" || l[|l| - 1] in l);
      ExcerptShowsHead(text, n);
      assert Lines(inner)[..k] == Lines(text)[..k] && |Lines(inner)| == n + 1;
      SpellExcerpt(inner, k);
      HeadIsPrefix(text, k);
      NoteIsAscii(n + 1 - k);
      var head, note := Join(Lines(text)[..k], "\n"), "\n" + MoreLines(n + 1 - k);
      HeadAndNote(head, note, text);
      if m < |Lines(text)| {
        HeadIsPrefix(text, m);
        SpellExcerpt(text, m);
        assert Lines(text)[..m][..k] == Lines(text)[..k];
        JoinGrows(Lines(text)[..m], k);
        HeadAndNote(head, note, ExcerptLines(text, m));
      } else {
        ShortIsItsExcerpt(text, m);
      }
    }
  }

  lemma HeadAndNote(head: string, note: string, text: string)
    requires head <= text && |note| >= 2 && IsAscii(note)
    ensures IsCutOf(head + note, text)
  {
    var k := |head|;
    assert (head + note)[..k] == text[..k] && (head + note)[k..] == note;
  }

  lemma NoteIsAscii(n: nat)
    ensures IsAscii("\n" + MoreLines(n)) && |MoreLines(n)| >= 2
  {
    assert Scalars.AllDigits(Scalars.PrintNat(n));
  }

  /** What a pack shows of a text before regrowth: an excerpt of so many lines, or one shortened again for its rank. */
  predicate ShowsExcerptOf(content: string, text: string, n: nat, k: nat) {
    content == ExcerptLines(text, n) || (0 < k <= n && content == ExcerptLines(ExcerptLines(text, n), k))
  }

  /** In any script: sections that show excerpts of their own full texts are ready, if these have no carriage return;
      so a pack of such sections uses up its budget or shows the longest text of each. The lines a pack shows at
      first, one of a module, fifteen of a file and ten of other code, are below the caps. */
  lemma OwnExcerptsAreReady(ss: seq<Section>, full: FullContent, shown: string -> (nat, nat))
    requires forall s | s in ss && s.entityId in full ::
               && '\r' !in full[s.entityId]
               && ShowsExcerptOf(s.content, full[s.entityId], shown(s.entityId).0, shown(s.entityId).1)
               && 0 < shown(s.entityId).0 <= RelaxedLines(s.source)
    ensures AreReady(ss, full)
  {
    hide ExcerptLines, Regrows, ByteLen;
    forall s | s in ss && s.entityId in full ensures IsReady(s, full) {
      var (n, k) := shown(s.entityId);
      var text, m := full[s.entityId], RelaxedLines(s.source);
      ExcerptIsCut(text, n, m);
      ExcerptIsCut(text, m, m);
      if 0 < k <= n { ExcerptOfExcerptIsCut(text, n, k, m); }
    }
  }
}
