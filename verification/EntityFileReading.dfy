/** Reading entity files nobody wrote with the tool (src/files/entities.rs): which are accepted, which field
    is blamed, and the exact text of a written one. */
module EntityFileReading {
  import opened Text
  import opened Scalars
  import opened FrontmatterFormat
  import opened FrontmatterLaws
  import opened EntityFiles
  import opened EntityFileLaws

  /** The order in which fields are looked at. */
  const FIELDS := ["id", "title", "type", "status", "volatility", "created_at", "updated_at", "references"]

  predicate Accepts(checks: Checks, field: string, value: string) {
    match field
    case "id" => checks.isUuid(value)
    case "type" => value in {"observation", "rule", "knowledge"}
    case "status" => value in {"active", "stale", "superseded", "rejected", "pruned"}
    case "volatility" => value in {"living", "record"}
    case "created_at" => checks.isRfc3339(value)
    case "updated_at" => checks.isRfc3339(value)
    case _ => true
  }

  /** The field is as it has to be. Status and volatility may be missing; references may, too. */
  predicate IsFine(checks: Checks, fm: seq<Entry>, field: string) {
    if field == "references" then forall r | r in ReferenceField(fm) :: checks.isUuid(r)
    else
      match StringField(fm, field)
      case Some(value) => Accepts(checks, field, value)
      case None => field in {"status", "volatility"}
  }

  predicate IsFirstBad(isUuid: string -> bool, refs: seq<string>, value: string) {
    exists i | 0 <= i < |refs| && !isUuid(refs[i]) :: refs[i] == value && forall j | 0 <= j < i :: isUuid(refs[j])
  }

  /** The message is about this field and true. */
  predicate Blames(checks: Checks, fm: seq<Entry>, field: string, m: Message) {
    !IsFine(checks, fm, field) &&
    match m
    case MissingField(f) => f == field && StringField(fm, field).None?
    case InvalidField(f, value) =>
      && f == field
      && (if field == "references" then IsFirstBad(checks.isUuid, ReferenceField(fm), value)
          else StringField(fm, field) == Some(value) && !Accepts(checks, field, value))
    case _ => false
  }

  lemma {:induction false} InvalidReferenceIsOne(isUuid: string -> bool, refs: seq<string>)
    ensures match FirstInvalidReference(isUuid, refs)
            case Some(r) => IsFirstBad(isUuid, refs, r) && exists x | x in refs :: !isUuid(x)
            case None => forall r | r in refs :: isUuid(r)
  {
    if refs != [] {
      InvalidReferenceIsOne(isUuid, refs[1..]);
      if isUuid(refs[0]) && FirstInvalidReference(isUuid, refs[1..]).Some? {
        var r := FirstInvalidReference(isUuid, refs[1..]).value;
        var i :| 0 <= i < |refs[1..]| && !isUuid(refs[1..][i]) && refs[1..][i] == r
                 && forall j | 0 <= j < i :: isUuid(refs[1..][j]);
        forall j | 0 <= j < i + 1 ensures isUuid(refs[j]) {
          if j > 0 { assert refs[j] == refs[1..][j - 1]; }
        }
        assert refs[i + 1] == r;
      }
    }
  }

  /** The error, if any, is about the first field that is not fine, and says the truth about it. */
  ghost predicate BlamesFirst(checks: Checks, fm: seq<Entry>, r: Result<EntityFile>) {
    exists i, m | 0 <= i < |FIELDS| && Blames(checks, fm, FIELDS[i], m) ::
      r == Err(ParseError(0, m)) && forall j | 0 <= j < i :: IsFine(checks, fm, FIELDS[j])
  }

  lemma BlamedFirst(checks: Checks, fm: seq<Entry>, r: Result<EntityFile>, i: nat, m: Message)
    requires i < |FIELDS| && Blames(checks, fm, FIELDS[i], m) && r == Err(ParseError(0, m))
    requires forall j | 0 <= j < i :: IsFine(checks, fm, FIELDS[j])
    ensures BlamesFirst(checks, fm, r) && !IsFine(checks, fm, FIELDS[i])
  {
  }

  lemma DatesExactly(checks: Checks, fm: seq<Entry>, body: string,
                     id: string, title: string, entityType: EntityType, status: string)
    requires forall i | 0 <= i < 5 :: IsFine(checks, fm, FIELDS[i])
    ensures var r := FromDates(checks, fm, body, id, title, entityType, status);
            && (r.Ok? <==> forall f | f in FIELDS :: IsFine(checks, fm, f))
            && (r.Err? ==> BlamesFirst(checks, fm, r))
  {
    hide BlamesFirst, StringField;
    var r := FromDates(checks, fm, body, id, title, entityType, status);
    InvalidReferenceIsOne(checks.isUuid, ReferenceField(fm));
    assert FIELDS[5] in FIELDS && FIELDS[6] in FIELDS && FIELDS[7] in FIELDS;
    if r.Err? {
      var i := if !IsFine(checks, fm, FIELDS[5]) then 5 else if !IsFine(checks, fm, FIELDS[6]) then 6 else 7;
      BlamedFirst(checks, fm, r, i, r.error.message);
    }
  }

  /** The first of the five fields before the dates that is not fine. */
  function FirstOf(checks: Checks, fm: seq<Entry>): (i: nat)
    ensures i <= 5 && (i < 5 ==> !IsFine(checks, fm, FIELDS[i]))
    ensures forall j | 0 <= j < i :: IsFine(checks, fm, FIELDS[j])
  {
    if !IsFine(checks, fm, FIELDS[0]) then 0
    else if !IsFine(checks, fm, FIELDS[1]) then 1
    else if !IsFine(checks, fm, FIELDS[2]) then 2
    else if !IsFine(checks, fm, FIELDS[3]) then 3
    else if !IsFine(checks, fm, FIELDS[4]) then 4 else 5
  }

  /** Before the dates, the chain fails exactly at the first field that is not fine. */
  lemma BeforeDates(checks: Checks, fm: seq<Entry>, body: string)
    returns (id: string, title: string, entityType: EntityType, status: string)
    ensures var (i, r) := (FirstOf(checks, fm), FromEntries(checks, fm, body));
            && (i < 5 ==> exists m | Blames(checks, fm, FIELDS[i], m) :: r == Err(ParseError(0, m)))
            && (i == 5 ==> r == FromDates(checks, fm, body, id, title, entityType, status))
  {
    hide StringField, FromDates;
    var r := FromEntries(checks, fm, body);
    if FirstOf(checks, fm) < 5 {
      assert Blames(checks, fm, FIELDS[FirstOf(checks, fm)], r.error.message);
      id, title, entityType, status := "", "", Rule, "";
    } else {
      id, title := StringField(fm, "id").value, StringField(fm, "title").value;
      entityType := TypeOf(StringField(fm, "type").value).value;
      status := match StringField(fm, "status") case Some(s) => s case None => "active";
    }
  }

  /** A file is accepted exactly when every field is fine; otherwise the first that is not is blamed. */
  lemma AcceptedExactly(checks: Checks, fm: seq<Entry>, body: string)
    ensures var r := FromEntries(checks, fm, body);
            && (r.Ok? <==> forall f | f in FIELDS :: IsFine(checks, fm, f))
            && (r.Err? ==> BlamesFirst(checks, fm, r))
  {
    hide BlamesFirst, StringField, FromDates, FromEntries, IsFine, Blames, TypeOf;
    var r := FromEntries(checks, fm, body);
    assert forall i | 0 <= i < 5 :: FIELDS[i] in FIELDS;
    var i := FirstOf(checks, fm);
    var id, title, entityType, status := BeforeDates(checks, fm, body);
    if i < 5 {
      var m :| Blames(checks, fm, FIELDS[i], m) && r == Err(ParseError(0, m));
      BlamedFirst(checks, fm, r, i, m);
    } else {
      DatesExactly(checks, fm, body, id, title, entityType, status);
    }
  }

  /** An accepted file reads as what its entries say; one without a status is active. */
  lemma AcceptedFields(checks: Checks, fm: seq<Entry>, body: string)
    requires FromEntries(checks, fm, body).Ok?
    ensures var e := FromEntries(checks, fm, body).value;
            && StringField(fm, "id") == Some(e.id) && StringField(fm, "title") == Some(e.title)
            && StringField(fm, "created_at") == Some(e.createdAt) && StringField(fm, "updated_at") == Some(e.updatedAt)
            && e.status == (match StringField(fm, "status") case Some(s) => s case None => "active")
            && StringField(fm, "type") == Some(match e.entityType
                                               case Observation => "observation"
                                               case Rule => "rule"
                                               case Knowledge => "knowledge")
            && e.references == (match Lookup(fm, "references") case Some(Array(items)) => items case _ => [])
            && e.frontmatter == fm && e.body == body
  {
    hide StringField, FirstInvalidReference;
  }

  // ─── The written text ───────────────────────────────────────────

  /** The extras are the entries that are no common field, in their order. */
  lemma {:induction false} ExtrasConcat(a: seq<Entry>, b: seq<Entry>)
    ensures Extras(a + b) == Extras(a) + Extras(b)
    ensures (forall e | e in a :: !IsCommon(e.0)) ==> Extras(a) == a
    ensures (forall e | e in a :: IsCommon(e.0)) ==> Extras(a) == []
  {
    hide IsCommon, Extras;
    if a == [] {
      assert a + b == b;
      NoExtras();
    } else {
      var tail := a[1..];
      assert (a + b)[0] == a[0] && (a + b)[1..] == tail + b;
      assert a == [a[0]] + tail;
      ExtrasConcat(tail, b);
      ExtrasStep(a);
      ExtrasStep(a + b);
    }
  }

  lemma ExtrasStep(a: seq<Entry>)
    requires a != []
    ensures Extras(a) == (if IsCommon(a[0].0) then [] else [a[0]]) + Extras(a[1..])
  {
    hide IsCommon;
  }

  lemma NoExtras()
    ensures Extras([]) == []
  {
  }

  function Line(key: string, text: string): string {
    key + ": " + text + "\n"
  }

  /** The text of a written file: the common fields in their order, the extras, a blank line, the body. */
  lemma WrittenText(e: EntityFile)
    requires DistinctKeys(e.frontmatter)
    ensures FileContent(e) ==
            "---\n"
            + (Line("id", PrintValue(String(e.id)))
            + (Line("title", PrintValue(String(e.title)))
            + (Line("type", match e.entityType
                            case Observation => "observation"
                            case Rule => "rule"
                            case Knowledge => "knowledge")
            + (Line("status", PrintValue(String(e.status)))
            + (Line("created_at", PrintValue(String(e.createdAt)))
            + (Line("updated_at", PrintValue(String(e.updatedAt)))
            + (Line("references", PrintValue(Array(e.references)))
            + Serialize(Extras(e.frontmatter)))))))))
            + "---\n\n" + e.body
  {
    hide PrintValue, CommonEntries, Serialize, Extras, Line;
    CanonicalShape(e);
    TypeIsBare(e.entityType);
    SerializeCommon(e, Extras(e.frontmatter));
  }

  lemma WordIsNoNumber(s: string)
    requires s != "" && s[0] in {'o', 'r', 'k'}
    ensures !IsFloatText(s) && ParseInt(s) == NotParsed
  {
    assert s[0] in s;
    assert LowerAll(s)[0] == s[0] && "inf"[0] == 'i' && "infinity"[0] == 'i' && "nan"[0] == 'n';
  }

  lemma WordIsBare(s: string)
    requires s != "" && s[0] in {'o', 'r', 'k'} && forall c | c in s :: 'a' <= c <= 'z'
    ensures PrintValue(String(s)) == s
  {
    hide IsFloatText, ParseInt;
    WordIsNoNumber(s);
    assert s[|s| - 1] in s;
    forall c | c in s ensures !IsSpecial(c) && !IsControl(c) {
      LetterIsPlain(c);
    }
    assert "true"[0] == 't' && "false"[0] == 'f' && "null"[0] == 'n' && "~"[0] == '~';
  }

  lemma LetterIsPlain(c: char)
    requires 'a' <= c <= 'z'
    ensures !IsSpecial(c) && !IsControl(c)
  {
  }

  lemma TypeIsBare(t: EntityType)
    ensures PrintValue(String(TypeName(t))) == TypeName(t)
  {
    hide PrintValue;
    WordIsBare(TypeName(t));
  }

  lemma SerializeCons(e: Entry, rest: seq<Entry>)
    ensures Serialize([e] + rest) == Line(e.0, PrintValue(e.1)) + Serialize(rest)
  {
    assert ([e] + rest)[1..] == rest;
  }

  lemma SerializeCommon(e: EntityFile, more: seq<Entry>)
    ensures Serialize(CommonEntries(e) + more) ==
            Line("id", PrintValue(String(e.id)))
            + (Line("title", PrintValue(String(e.title)))
            + (Line("type", PrintValue(String(TypeName(e.entityType))))
            + (Line("status", PrintValue(String(e.status)))
            + (Line("created_at", PrintValue(String(e.createdAt)))
            + (Line("updated_at", PrintValue(String(e.updatedAt)))
            + (Line("references", PrintValue(Array(e.references)))
            + Serialize(more)))))))
  {
    hide PrintValue, Serialize, Line;
    var c := CommonEntries(e);
    var r6 := [c[6]] + more;
    var r5 := [c[5]] + r6;
    var r4 := [c[4]] + r5;
    var r3 := [c[3]] + r4;
    var r2 := [c[2]] + r3;
    var r1 := [c[1]] + r2;
    assert c + more == [c[0]] + r1;
    SerializeCons(c[6], more);
    SerializeCons(c[5], r6);
    SerializeCons(c[4], r5);
    SerializeCons(c[3], r4);
    SerializeCons(c[2], r3);
    SerializeCons(c[1], r2);
    SerializeCons(c[0], r1);
  }

  /** A list prints as its quoted items between brackets, separated by a comma and a space. */
  lemma WrittenList(first: string, more: seq<string>)
    ensures PrintValue(Array([])) == "[]"
    ensures PrintValue(Array([first])) == "[" + Quoted(first) + "]"
    ensures more != [] ==>
              PrintValue(Array([first] + more)) == "[" + Quoted(first) + ", " + PrintValue(Array(more))[1..]
  {
    hide Quoted;
    assert QuotedAll([first]) == [Quoted(first)];
    if more != [] {
      var rest := Join(QuotedAll(more), ", ");
      assert QuotedAll([first] + more) == [Quoted(first)] + QuotedAll(more);
      assert PrintValue(Array(more))[1..] == rest + "]";
      JoinCons(Quoted(first), QuotedAll(more));
    }
  }

  lemma JoinCons(x: string, rest: seq<string>)
    requires rest != []
    ensures Join([x] + rest, ", ") == x + ", " + Join(rest, ", ")
  {
    assert ([x] + rest)[1..] == rest;
  }
}
