/** Entity files (src/files/entities.rs): frontmatter with seven common fields, type-specific extras,
    and a markdown body. */
module EntityFiles {
  import opened Text
  import opened Scalars
  import opened FrontmatterFormat
  import opened FrontmatterLaws
  import Parser = FrontmatterParser

  datatype EntityType = Observation | Rule | Knowledge

  function TypeName(t: EntityType): string {
    match t
    case Observation => "observation"
    case Rule => "rule"
    case Knowledge => "knowledge"
  }

  function TypeOf(s: string): Option<EntityType> {
    if s == "observation" then Some(Observation)
    else if s == "rule" then Some(Rule)
    else if s == "knowledge" then Some(Knowledge)
    else None
  }

  datatype EntityFile = EntityFile(
    id: string,
    title: string,
    entityType: EntityType,
    status: string,
    createdAt: string,
    updatedAt: string,
    references: seq<string>,
    frontmatter: seq<Entry>,
    body: string)

  /** Foreign syntax checks and the float printer. */
  datatype Checks = Checks(canon: Canonical, isUuid: string -> bool, isRfc3339: string -> bool)

  predicate IsValidStatus(s: string) {
    s in {"active", "stale", "superseded", "rejected", "pruned"}
  }

  predicate IsValidVolatility(s: string) {
    s == "living" || s == "record"
  }

  predicate IsCommon(key: string) {
    key in {"id", "title", "type", "status", "created_at", "updated_at", "references"}
  }

  // ─── Writing ────────────────────────────────────────────────────

  /** The common fields in canonical order. */
  function CommonEntries(e: EntityFile): seq<Entry> {
    [("id", String(e.id)), ("title", String(e.title)), ("type", String(TypeName(e.entityType))),
     ("status", String(e.status)), ("created_at", String(e.createdAt)), ("updated_at", String(e.updatedAt)),
     ("references", Array(e.references))]
  }

  function Extras(entries: seq<Entry>): seq<Entry> {
    if entries == [] then []
    else (if IsCommon(entries[0].0) then [] else [entries[0]]) + Extras(entries[1..])
  }

  /** The entries a written file holds. */
  function CanonicalEntries(e: EntityFile): seq<Entry> {
    PutAll(CommonEntries(e), Extras(e.frontmatter))
  }

  function FileContent(e: EntityFile): string {
    Framed(Serialize(CanonicalEntries(e)), e.body)
  }

  // ─── Reading ────────────────────────────────────────────────────

  function Fail<T>(message: Message): Result<T> {
    Err(ParseError(0, message))
  }

  function StringField(entries: seq<Entry>, key: string): Option<string> {
    match Lookup(entries, key)
    case Some(String(s)) => Some(s)
    case _ => None
  }

  function ReferenceField(entries: seq<Entry>): seq<string> {
    match Lookup(entries, "references")
    case Some(Array(items)) => items
    case _ => []
  }

  function FirstInvalidReference(isUuid: string -> bool, refs: seq<string>): Option<string> {
    if refs == [] then None
    else if !isUuid(refs[0]) then Some(refs[0])
    else FirstInvalidReference(isUuid, refs[1..])
  }

  /** The chain of lookups and checks on parsed frontmatter. */
  function FromEntries(checks: Checks, fm: seq<Entry>, body: string): Result<EntityFile> {
    var id := StringField(fm, "id");
    if id.None? then Fail(MissingField("id"))
    else if !checks.isUuid(id.value) then Fail(InvalidField("id", id.value))
    else
      var title := StringField(fm, "title");
      if title.None? then Fail(MissingField("title"))
      else
        var typeName := StringField(fm, "type");
        if typeName.None? then Fail(MissingField("type"))
        else if TypeOf(typeName.value).None? then Fail(InvalidField("type", typeName.value))
        else
          var status := if StringField(fm, "status").Some? then StringField(fm, "status").value else "active";
          if !IsValidStatus(status) then Fail(InvalidField("status", status))
          else if StringField(fm, "volatility").Some? && !IsValidVolatility(StringField(fm, "volatility").value) then
            Fail(InvalidField("volatility", StringField(fm, "volatility").value))
          else
            FromDates(checks, fm, body, id.value, title.value, TypeOf(typeName.value).value, status)
  }

  function FromDates(checks: Checks, fm: seq<Entry>, body: string,
                     id: string, title: string, entityType: EntityType, status: string): Result<EntityFile> {
    var created := StringField(fm, "created_at");
    if created.None? then Fail(MissingField("created_at"))
    else if !checks.isRfc3339(created.value) then Fail(InvalidField("created_at", created.value))
    else
      var updated := StringField(fm, "updated_at");
      if updated.None? then Fail(MissingField("updated_at"))
      else if !checks.isRfc3339(updated.value) then Fail(InvalidField("updated_at", updated.value))
      else
        var references := ReferenceField(fm);
        var bad := FirstInvalidReference(checks.isUuid, references);
        if bad.Some? then Fail(InvalidField("references", bad.value))
        else Ok(EntityFile(id, title, entityType, status, created.value, updated.value, references, fm, body))
  }

  function FromContent(checks: Checks, content: string): Result<EntityFile> {
    match Split(content)
    case Err(error) => Err(error)
    case Ok((text, body)) =>
      match Parse(checks.canon, text)
      case Err(error) => Err(error)
      case Ok(fm) => FromEntries(checks, fm, body)
  }

  /** Inserting a list of distinct keys one by one spells the list. */
  lemma PutNext(entries: seq<Entry>, k: nat)
    requires DistinctKeys(entries) && k < |entries|
    ensures Put(entries[..k], entries[k].0, entries[k].1) == entries[..k + 1]
  {
    PutFresh(entries[..k], entries[k].0, entries[k].1);
  }

  // ─── Methods ────────────────────────────────────────────────────

  method ToFileContent(e: EntityFile) returns (content: string)
    ensures content == FileContent(e)
  {
    var fm := new Parser.Frontmatter();
    var common := CommonEntries(e);
    PutNext(common, 0);
    fm.Insert("id", common[0].1);
    PutNext(common, 1);
    fm.Insert("title", common[1].1);
    PutNext(common, 2);
    fm.Insert("type", common[2].1);
    PutNext(common, 3);
    fm.Insert("status", common[3].1);
    PutNext(common, 4);
    fm.Insert("created_at", common[4].1);
    PutNext(common, 5);
    fm.Insert("updated_at", common[5].1);
    PutNext(common, 6);
    fm.Insert("references", common[6].1);
    assert common[..7] == common;
    var rest := e.frontmatter;
    for i := 0 to |rest|
      invariant fresh(fm)
      invariant PutAll(fm.entries, Extras(rest[i..])) == CanonicalEntries(e)
    {
      assert rest[i..][1..] == rest[i + 1..];
      ExtrasHead(rest[i..]);
      if !IsCommon(rest[i].0) {
        fm.Insert(rest[i].0, rest[i].1);
      }
    }
    var text := Parser.SerializeFrontmatter(fm);
    content := Framed(text, e.body);
  }

  lemma ExtrasHead(entries: seq<Entry>)
    requires entries != []
    ensures IsCommon(entries[0].0) ==> Extras(entries) == Extras(entries[1..])
    ensures !IsCommon(entries[0].0) ==>
              && Extras(entries) != [] && Extras(entries)[0] == entries[0]
              && Extras(entries)[1..] == Extras(entries[1..])
  {
  }

  /** Writes only what reads back: the text to store, or the reader's error. */
  method WriteEntityFile(checks: Checks, e: EntityFile) returns (r: Result<string>)
    ensures FromContent(checks, FileContent(e)).Ok? ==> r == Ok(FileContent(e))
    ensures FromContent(checks, FileContent(e)).Err? ==> r == Err(FromContent(checks, FileContent(e)).error)
  {
    var content := ToFileContent(e);
    var reread := FromContent(checks, content);
    r := if reread.Err? then Err(reread.error) else Ok(content);
  }
}
