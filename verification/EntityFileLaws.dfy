/** Writing an entity file and reading it back (src/files/entities.rs). */
module EntityFileLaws {
  import opened Text
  import opened Scalars
  import opened FrontmatterFormat
  import opened FrontmatterLaws
  import opened EntityFiles

  lemma {:induction false} ExtrasShape(entries: seq<Entry>)
    ensures forall x | x in Extras(entries) :: x in entries && !IsCommon(x.0)
    ensures forall x | x in entries && !IsCommon(x.0) :: x in Extras(entries)
  {
    if entries != [] {
      ExtrasShape(entries[1..]);
    }
  }

  lemma {:induction false} ExtrasDistinct(entries: seq<Entry>)
    requires DistinctKeys(entries)
    ensures DistinctKeys(Extras(entries))
  {
    if entries != [] {
      var rest := entries[1..];
      ExtrasDistinct(rest);
      ExtrasShape(rest);
      forall x | x in Extras(rest) ensures x.0 != entries[0].0 {
        var i :| 0 <= i < |rest| && rest[i] == x;
        assert entries[i + 1] == x;
      }
    }
  }

  lemma {:induction false} ExtrasAfterCommon(common: seq<Entry>, extras: seq<Entry>)
    requires forall x | x in common :: IsCommon(x.0)
    requires forall x | x in extras :: !IsCommon(x.0)
    ensures Extras(common + extras) == extras
    decreases |common| + |extras|
  {
    var all := common + extras;
    if common != [] {
      assert all[1..] == common[1..] + extras;
      assert all[0] in common;
      ExtrasAfterCommon(common[1..], extras);
    } else if extras != [] {
      assert all[1..] == common + extras[1..];
      assert all[0] in extras;
      ExtrasAfterCommon(common, extras[1..]);
    }
  }

  lemma CommonKeys(e: EntityFile)
    ensures DistinctKeys(CommonEntries(e))
    ensures forall x | x in CommonEntries(e) :: IsCommon(x.0)
    ensures forall x | x in CommonEntries(e) :: WellFormedKey(x.0)
  {
    var c := CommonEntries(e);
    forall i | 0 <= i < 7 ensures IsCommon(c[i].0) && WellFormedKey(c[i].0) {
      assert ':' !in c[i].0;
    }
  }

  /** The written entries: common fields first, then the extras in their own order. */
  lemma CanonicalShape(e: EntityFile)
    requires DistinctKeys(e.frontmatter)
    ensures CanonicalEntries(e) == CommonEntries(e) + Extras(e.frontmatter)
    ensures DistinctKeys(CanonicalEntries(e))
  {
    var c, x := CommonEntries(e), Extras(e.frontmatter);
    CommonKeys(e);
    ExtrasShape(e.frontmatter);
    ExtrasDistinct(e.frontmatter);
    var all: seq<Entry> := c + x;
    forall i, j | 0 <= i < j < |all| ensures all[i].0 != all[j].0 {
      if i < |c| <= j {
        assert c[i] in c && x[j - |c|] in x;
      }
    }
    PutAllFresh(c, x);
  }

  lemma {:induction false} LookupDistinct(entries: seq<Entry>, i: nat)
    requires DistinctKeys(entries) && i < |entries|
    ensures Lookup(entries, entries[i].0) == Some(entries[i].1)
  {
    if i > 0 {
      assert entries[0].0 != entries[i].0;
      LookupDistinct(entries[1..], i - 1);
    }
  }

  /** Entries whose common fields are those of `e`, with or without extras. */
  lemma LookupCommon(e: EntityFile, fm: seq<Entry>)
    requires DistinctKeys(fm) && CommonEntries(e) <= fm
    ensures StringField(fm, "id") == Some(e.id)
    ensures StringField(fm, "title") == Some(e.title)
    ensures StringField(fm, "type") == Some(TypeName(e.entityType))
    ensures StringField(fm, "status") == Some(e.status)
    ensures StringField(fm, "created_at") == Some(e.createdAt)
    ensures StringField(fm, "updated_at") == Some(e.updatedAt)
    ensures ReferenceField(fm) == e.references
  {
    var c := CommonEntries(e);
    forall i | 0 <= i < 7 ensures Lookup(fm, c[i].0) == Some(c[i].1) {
      assert fm[i] == c[i];
      LookupDistinct(fm, i);
    }
    assert c[0].0 == "id" && c[1].0 == "title" && c[2].0 == "type" && c[3].0 == "status";
    assert c[4].0 == "created_at" && c[5].0 == "updated_at" && c[6].0 == "references";
  }

  lemma {:induction false} NoInvalidReference(isUuid: string -> bool, refs: seq<string>)
    ensures FirstInvalidReference(isUuid, refs).None? <==> forall r | r in refs :: isUuid(r)
  {
    if refs != [] {
      NoInvalidReference(isUuid, refs[1..]);
    }
  }

  /** What the reader demands of the fields, as the caller of the writer sees them. */
  ghost predicate Acceptable(checks: Checks, e: EntityFile) {
    && checks.isUuid(e.id)
    && IsValidStatus(e.status)
    && (StringField(Extras(e.frontmatter), "volatility").Some? ==>
          IsValidVolatility(StringField(Extras(e.frontmatter), "volatility").value))
    && checks.isRfc3339(e.createdAt)
    && checks.isRfc3339(e.updatedAt)
    && (forall r | r in e.references :: checks.isUuid(r))
  }

  /** No text of the entity changes by being printed bare. */
  ghost predicate Writable(e: EntityFile) {
    && (forall s | s in {e.id, e.title, e.status, e.createdAt, e.updatedAt} :: Printable(String(s)))
    && (forall x | x in Extras(e.frontmatter) :: WellFormedKey(x.0) && Printable(x.1))
  }

  lemma {:induction false} LookupSkipsCommon(common: seq<Entry>, extras: seq<Entry>, key: string)
    requires forall x | x in common :: IsCommon(x.0)
    requires !IsCommon(key)
    ensures Lookup(common + extras, key) == Lookup(extras, key)
  {
    if common == [] {
      assert common + extras == extras;
    } else {
      assert common[0] in common;
      assert (common + extras)[1..] == common[1..] + extras;
      LookupSkipsCommon(common[1..], extras, key);
    }
  }

  lemma TypeNameRoundTrip(t: EntityType)
    ensures TypeOf(TypeName(t)) == Some(t)
  {
  }

  /** On canonical entries the chain of checks accepts exactly the acceptable entities, and returns them. */
  lemma FromCanonical(checks: Checks, e: EntityFile, body: string)
    requires DistinctKeys(e.frontmatter)
    ensures var r := FromEntries(checks, CanonicalEntries(e), body);
            && (r.Ok? <==> Acceptable(checks, e))
            && (r.Ok? ==> r.value == e.(frontmatter := CanonicalEntries(e), body := body))
  {
    hide CanonicalEntries, CommonEntries, Extras, Lookup, IsValidStatus, IsValidVolatility, FirstInvalidReference,
      TypeOf, TypeName, ReferenceField, DistinctKeys;
    CanonicalShape(e);
    LookupCommon(e, CanonicalEntries(e));
    CommonKeys(e);
    assert StringField(CanonicalEntries(e), "volatility") == StringField(Extras(e.frontmatter), "volatility") by {
      LookupSkipsCommon(CommonEntries(e), Extras(e.frontmatter), "volatility");
    }
    NoInvalidReference(checks.isUuid, e.references);
    TypeNameRoundTrip(e.entityType);
  }

  lemma CommonPrintable(e: EntityFile)
    ensures AllPrintable(CommonEntries(e)) <==>
            forall s | s in {e.id, e.title, e.status, e.createdAt, e.updatedAt} :: Printable(String(s))
  {
    var c := CommonEntries(e);
    assert c[0] in c && c[1] in c && c[3] in c && c[4] in c && c[5] in c;
    TypeIsPrintable(e.entityType);
  }

  lemma TypeIsPrintable(t: EntityType)
    ensures Printable(String(TypeName(t)))
  {
  }

  lemma CanonicalPrintable(e: EntityFile)
    requires DistinctKeys(e.frontmatter)
    ensures WellFormedKeys(CanonicalEntries(e)) && AllPrintable(CanonicalEntries(e)) <==> Writable(e)
  {
    CanonicalShape(e);
    CommonKeys(e);
    CommonPrintable(e);
    var c, x := CommonEntries(e), Extras(e.frontmatter);
    assert forall y | y in c + x :: y in c || y in x;
    assert forall y | y in c :: y in c + x;
    assert forall y | y in x :: y in c + x;
  }

  lemma FromEntriesKeeps(checks: Checks, fm: seq<Entry>, body: string)
    ensures var r := FromEntries(checks, fm, body); r.Ok? ==> r.value.frontmatter == fm && r.value.body == body
  {
  }

  lemma ReadBackIsWellFormed(checks: Checks, e: EntityFile)
    requires Lawful(checks.canon)
    requires FromContent(checks, FileContent(e)) == Ok(e.(frontmatter := CanonicalEntries(e)))
    ensures WellFormedKeys(CanonicalEntries(e))
  {
    var parts := Split(FileContent(e));
    ParsedIsWellFormed(checks.canon, parts.value.0);
    FromEntriesKeeps(checks, Parse(checks.canon, parts.value.0).value, parts.value.1);
  }

  lemma ReadBackWritten(checks: Checks, e: EntityFile)
    requires Lawful(checks.canon) && AllStored(checks.canon, CanonicalEntries(e)) && WellFormedKeys(CanonicalEntries(e))
    ensures FromContent(checks, FileContent(e)) ==
            FromEntries(checks, RereadAll(checks.canon, CanonicalEntries(e)), e.body)
    ensures RereadAll(checks.canon, CanonicalEntries(e)) == CanonicalEntries(e) <==> AllPrintable(CanonicalEntries(e))
  {
    ReadWritten(checks.canon, CanonicalEntries(e), e.body);
    ParseSerialized(checks.canon, CanonicalEntries(e));
    RoundTripExactly(checks.canon, CanonicalEntries(e));
  }

  lemma CanonicalStored(canon: Canonical, e: EntityFile)
    requires DistinctKeys(e.frontmatter) && AllStored(canon, e.frontmatter)
    ensures AllStored(canon, CanonicalEntries(e))
  {
    CanonicalShape(e);
    ExtrasShape(e.frontmatter);
  }

  /** Writing an entity and reading the file back returns every field, every extra and the exact body,
      exactly when its fields pass the reader's checks and its texts print unchanged. */
  lemma WriteThenReadExactly(checks: Checks, e: EntityFile)
    requires Lawful(checks.canon) && DistinctKeys(e.frontmatter) && AllStored(checks.canon, e.frontmatter)
    ensures FromContent(checks, FileContent(e)) == Ok(e.(frontmatter := CanonicalEntries(e)))
       <==> Acceptable(checks, e) && Writable(e)
  {
    CanonicalStored(checks.canon, e);
    CanonicalPrintable(e);
    FromCanonical(checks, e, e.body);
    if FromContent(checks, FileContent(e)) == Ok(e.(frontmatter := CanonicalEntries(e))) {
      ReadBackIsWellFormed(checks, e);
    }
    if WellFormedKeys(CanonicalEntries(e)) {
      ReadBackWritten(checks, e);
      FromEntriesKeeps(checks, RereadAll(checks.canon, CanonicalEntries(e)), e.body);
    }
  }

  /** A file once written is canonical: the entity read from it writes the identical text. */
  lemma RewriteIsIdentical(e: EntityFile)
    requires DistinctKeys(e.frontmatter)
    ensures FileContent(e.(frontmatter := CanonicalEntries(e))) == FileContent(e)
    ensures Extras(CanonicalEntries(e)) == Extras(e.frontmatter)
  {
    CanonicalShape(e);
    CommonKeys(e);
    ExtrasShape(e.frontmatter);
    ExtrasAfterCommon(CommonEntries(e), Extras(e.frontmatter));
  }
}
