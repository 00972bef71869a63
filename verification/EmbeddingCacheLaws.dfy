/** The cache agrees with the model it caches, text by text, and a batch with the texts one by one. */
module EmbeddingCacheLaws {
  import opened FrontmatterFormat
  import opened EmbeddingCache

  /** The model gives each text its own vector, whatever batch it comes in; a batch may fail. */
  ghost predicate IsPerText(answer: Answer, value: string -> Vector) {
    forall texts: seq<string> | answer(texts).Embedded? :: IsValues(value, texts, answer(texts).value)
  }

  ghost predicate IsValues(value: string -> Vector, texts: seq<string>, vectors: seq<Vector>) {
    |vectors| == |texts| && forall i | 0 <= i < |texts| :: vectors[i] == value(texts[i])
  }

  /** No two of these texts collide. */
  ghost predicate IsInjectiveOn(hash: Hash, known: set<string>) {
    forall a, b | a in known && b in known && hash(a) == hash(b) :: a == b
  }

  /** Whatever is cached for these texts is the model's vector. */
  ghost predicate Agrees(entries: Entries, hash: Hash, name: string, value: string -> Vector, known: set<string>) {
    forall t | t in known && Cached(entries, hash, name, t).Some? :: Cached(entries, hash, name, t).value == value(t)
  }

  ghost predicate AllKnown(texts: seq<string>, known: set<string>) {
    forall t | t in texts :: t in known
  }

  lemma {:induction false} UncachedExact(entries: Entries, hash: Hash, name: string, texts: seq<string>, t: string)
    ensures t in Uncached(entries, hash, name, texts) <==> t in texts && Cached(entries, hash, name, t).None?
  {
    hide Cached;
    if texts != [] {
      UncachedExact(entries, hash, name, texts[1..], t);
      assert texts == [texts[0]] + texts[1..];
    }
  }

  /** Storing keeps what was there, adds exactly the keys of the texts, and keeps agreement. */
  lemma {:induction false} PutEachAgrees(entries: Entries, hash: Hash, name: string, value: string -> Vector,
                                         known: set<string>, texts: seq<string>, vectors: seq<Vector>)
    requires Agrees(entries, hash, name, value, known) && IsInjectiveOn(hash, known) && AllKnown(texts, known)
    requires IsValues(value, texts, vectors)
    ensures var after := PutEach(entries, hash, name, texts, vectors);
            && Agrees(after, hash, name, value, known)
            && (forall key :: key in after <==> key in entries || exists t | t in texts :: key == KeyOf(hash, name, t))
            && forall key | key in entries && (forall t | t in texts :: key != KeyOf(hash, name, t)) ::
                 after[key] == entries[key]
    decreases |texts|
  {
    if texts != [] {
      assert texts[0] in texts;
      var next := entries[KeyOf(hash, name, texts[0]) := vectors[0]];
      assert texts == [texts[0]] + texts[1..];
      PutEachAgrees(next, hash, name, value, known, texts[1..], vectors[1..]);
    }
  }

  lemma {:induction false} FilledAgrees(entries: Entries, hash: Hash, name: string, value: string -> Vector,
                                        known: set<string>, texts: seq<string>, vectors: seq<Vector>)
    requires Agrees(entries, hash, name, value, known) && AllKnown(texts, known)
    requires IsValues(value, Uncached(entries, hash, name, texts), vectors)
    ensures IsValues(value, texts, Filled(entries, hash, name, texts, vectors))
  {
    hide Cached, IsValues, AllKnown, Agrees;
    if texts == [] {
      NoValues(value);
    } else {
      var rest := texts[1..];
      ValuesLength(value, Uncached(entries, hash, name, texts), vectors);
      KnownHead(texts, known);
      AgreesAt(entries, hash, name, value, known, texts[0]);
      if Cached(entries, hash, name, texts[0]).Some? {
        assert Uncached(entries, hash, name, texts) == Uncached(entries, hash, name, rest);
        FilledAgrees(entries, hash, name, value, known, rest, vectors);
        ValuesCons(value, texts, Filled(entries, hash, name, rest, vectors));
      } else {
        assert Uncached(entries, hash, name, texts) == [texts[0]] + Uncached(entries, hash, name, rest);
        ValuesTail(value, texts[0], Uncached(entries, hash, name, rest), vectors);
        FilledAgrees(entries, hash, name, value, known, rest, vectors[1..]);
        ValuesCons(value, texts, Filled(entries, hash, name, rest, vectors[1..]));
      }
    }
  }

  lemma NoValues(value: string -> Vector)
    ensures IsValues(value, [], [])
  {
  }

  lemma ValuesLength(value: string -> Vector, texts: seq<string>, vectors: seq<Vector>)
    requires IsValues(value, texts, vectors)
    ensures |vectors| == |texts|
  {
  }

  lemma KnownHead(texts: seq<string>, known: set<string>)
    requires AllKnown(texts, known) && texts != []
    ensures texts[0] in known && AllKnown(texts[1..], known)
  {
    assert texts[0] in texts;
  }

  lemma AgreesAt(entries: Entries, hash: Hash, name: string, value: string -> Vector, known: set<string>, t: string)
    requires Agrees(entries, hash, name, value, known) && t in known
    ensures Cached(entries, hash, name, t).Some? ==> Cached(entries, hash, name, t).value == value(t)
  {
  }

  lemma ValuesCons(value: string -> Vector, texts: seq<string>, rest: seq<Vector>)
    requires texts != [] && IsValues(value, texts[1..], rest)
    ensures IsValues(value, texts, [value(texts[0])] + rest)
  {
  }

  lemma ValuesTail(value: string -> Vector, t: string, texts: seq<string>, vectors: seq<Vector>)
    requires IsValues(value, [t] + texts, vectors)
    ensures vectors != [] && vectors[0] == value(t) && IsValues(value, texts, vectors[1..])
  {
    forall i | 0 <= i < |texts| ensures vectors[1..][i] == value(texts[i]) {
      assert ([t] + texts)[i + 1] == texts[i];
    }
  }

  /** A batch gives every text, repeated or not, the model's own vector; it fails exactly when the one
      model call fails, and then stores nothing. Agreement and other models' entries are kept either way,
      and after a success every text is cached. */
  lemma BatchAgrees(entries: Entries, hash: Hash, name: string, answer: Answer, value: string -> Vector,
                    known: set<string>, texts: seq<string>)
    requires Agrees(entries, hash, name, value, known) && IsInjectiveOn(hash, known) && AllKnown(texts, known)
    requires IsPerText(answer, value)
    ensures var (r, after) := Batch(entries, hash, name, answer, texts);
            var missing := Uncached(entries, hash, name, texts);
            && Agrees(after, hash, name, value, known)
            && (r.Embedded? <==> missing == [] || answer(missing).Embedded?)
            && (r.Embedded? ==> IsValues(value, texts, r.value) && Uncached(after, hash, name, texts) == [])
            && (r.Refused? ==> after == entries)
            && forall key: Key | key.0 != name :: (key in after <==> key in entries)
                                                  && (key in entries ==> after[key] == entries[key])
  {
    hide Cached, Uncached, Filled, PutEach, Agrees, IsInjectiveOn, AllKnown;
    var missing := Uncached(entries, hash, name, texts);
    var (r, after) := Batch(entries, hash, name, answer, texts);
    if missing == [] {
      FilledAgrees(entries, hash, name, value, known, texts, []);
    } else if answer(missing).Embedded? {
      var vectors := answer(missing).value;
      assert IsValues(value, missing, vectors);
      FilledAgrees(entries, hash, name, value, known, texts, vectors);
      MissingKnown(entries, hash, name, known, texts);
      PutEachAgrees(entries, hash, name, value, known, missing, vectors);
      AllCachedAfter(entries, hash, name, texts, after);
    }
  }

  /** A batch is refused exactly when the one model call is, for its reason, or answers with another number of
      vectors than it was asked for; nothing is stored then. */
  lemma BatchRefusedExactly(entries: Entries, hash: Hash, name: string, answer: Answer, texts: seq<string>,
                            failure: Failure)
    ensures var missing := Uncached(entries, hash, name, texts);
            var (r, after) := Batch(entries, hash, name, answer, texts);
            && (r == Refused(failure) <==>
                  missing != [] && (match answer(missing)
                                    case Refused(f) => failure == f
                                    case Embedded(vectors) => |vectors| != |missing|
                                                              && failure == WrongCount(|missing|, |vectors|)))
            && (r.Refused? ==> after == entries)
  {
    hide Uncached, Filled, PutEach;
  }

  lemma MissingKnown(entries: Entries, hash: Hash, name: string, known: set<string>, texts: seq<string>)
    requires AllKnown(texts, known)
    ensures AllKnown(Uncached(entries, hash, name, texts), known)
  {
    hide Uncached, Cached;
    forall t | t in Uncached(entries, hash, name, texts) ensures t in known {
      UncachedExact(entries, hash, name, texts, t);
    }
  }

  lemma AllCachedAfter(entries: Entries, hash: Hash, name: string, texts: seq<string>, after: Entries)
    requires forall key ::
               key in after <==>
               key in entries || exists t | t in Uncached(entries, hash, name, texts) :: key == KeyOf(hash, name, t)
    ensures Uncached(after, hash, name, texts) == []
  {
    hide Uncached;
    forall t ensures t !in Uncached(after, hash, name, texts) {
      UncachedExact(entries, hash, name, texts, t);
      UncachedExact(after, hash, name, texts, t);
      assert t in Uncached(entries, hash, name, texts) ==> KeyOf(hash, name, t) in after;
    }
    NobodyIn(Uncached(after, hash, name, texts));
  }

  lemma NobodyIn(s: seq<string>)
    ensures s == [] || s[0] in s
  {
  }

  lemma SingleAgrees(entries: Entries, hash: Hash, name: string, answer: Answer, value: string -> Vector,
                     known: set<string>, text: string)
    requires Agrees(entries, hash, name, value, known) && IsInjectiveOn(hash, known) && text in known
    requires IsPerText(answer, value)
    ensures var (r, after) := Single(entries, hash, name, answer, text);
            && Agrees(after, hash, name, value, known)
            && (r.Embedded? <==> Cached(entries, hash, name, text).Some? || answer([text]).Embedded?)
            && (r.Embedded? ==> r.value == value(text)
                                && after == entries[KeyOf(hash, name, text) := value(text)])
            && (r.Refused? ==> after == entries)
  {
    if Cached(entries, hash, name, text).None? && answer([text]).Embedded? {
      assert IsValues(value, [text], answer([text]).value);
    }
    assert Cached(entries, hash, name, text).Some? ==> entries[KeyOf(hash, name, text) := value(text)] == entries;
  }

  // ─── Batch and one by one ───────────────────────────────────────

  /** `embed_cached` on each text in turn. */
  function OneByOne(entries: Entries, hash: Hash, name: string, answer: Answer, texts: seq<string>)
    : (Reply<seq<Vector>>, Entries)
    decreases |texts|
  {
    if texts == [] then (Embedded([]), entries)
    else
      var (first, next) := Single(entries, hash, name, answer, texts[0]);
      if first.Refused? then (Refused(first.failure), next)
      else
        var (rest, after) := OneByOne(next, hash, name, answer, texts[1..]);
        (if rest.Refused? then rest else Embedded([first.value] + rest.value), after)
  }

  lemma {:induction false} OneByOneExact(entries: Entries, hash: Hash, name: string, answer: Answer,
                                         value: string -> Vector, known: set<string>, texts: seq<string>)
    requires Agrees(entries, hash, name, value, known) && IsInjectiveOn(hash, known) && AllKnown(texts, known)
    requires IsPerText(answer, value) && forall ts: seq<string> :: answer(ts).Embedded?
    ensures var (r, after) := OneByOne(entries, hash, name, answer, texts);
            && r.Embedded? && IsValues(value, texts, r.value) && Agrees(after, hash, name, value, known)
            && (forall key :: key in after <==> key in entries || exists t | t in texts :: key == KeyOf(hash, name, t))
            && forall key | key in entries && (forall t | t in texts :: key != KeyOf(hash, name, t)) ::
                 after[key] == entries[key]
    decreases |texts|
  {
    hide Single, IsInjectiveOn, Agrees, IsPerText, AllKnown, IsValues;
    if texts == [] {
      NoValues(value);
    } else {
      KnownHead(texts, known);
      assert texts == [texts[0]] + texts[1..];
      SingleAgrees(entries, hash, name, answer, value, known, texts[0]);
      var next := Single(entries, hash, name, answer, texts[0]).1;
      OneByOneExact(next, hash, name, answer, value, known, texts[1..]);
      ValuesCons(value, texts, OneByOne(next, hash, name, answer, texts[1..]).0.value);
    }
  }

  /** With a model that does not fail, a batch returns and stores what its texts would one by one. */
  lemma BatchIsOneByOne(entries: Entries, hash: Hash, name: string, answer: Answer, value: string -> Vector,
                        known: set<string>, texts: seq<string>)
    requires Agrees(entries, hash, name, value, known) && IsInjectiveOn(hash, known) && AllKnown(texts, known)
    requires IsPerText(answer, value) && forall ts: seq<string> :: answer(ts).Embedded?
    ensures Batch(entries, hash, name, answer, texts).0 == OneByOne(entries, hash, name, answer, texts).0
    ensures Batch(entries, hash, name, answer, texts).1 == OneByOne(entries, hash, name, answer, texts).1
  {
    hide Uncached, Filled, PutEach, IsInjectiveOn, IsPerText, OneByOne;
    BatchAgrees(entries, hash, name, answer, value, known, texts);
    OneByOneExact(entries, hash, name, answer, value, known, texts);
    var (r, one) := OneByOne(entries, hash, name, answer, texts);
    var batch := Batch(entries, hash, name, answer, texts).1;
    assert Batch(entries, hash, name, answer, texts).0.value == r.value;
    BatchKeys(entries, hash, name, answer, value, known, texts);
    forall key | key in one ensures one[key] == batch[key] {
      if t :| t in texts && key == KeyOf(hash, name, t) {
        assert one[key] == Cached(one, hash, name, t).value && batch[key] == Cached(batch, hash, name, t).value;
      }
    }
  }

  lemma BatchKeys(entries: Entries, hash: Hash, name: string, answer: Answer, value: string -> Vector,
                  known: set<string>, texts: seq<string>)
    requires Agrees(entries, hash, name, value, known) && IsInjectiveOn(hash, known) && AllKnown(texts, known)
    requires IsPerText(answer, value) && forall ts: seq<string> :: answer(ts).Embedded?
    ensures var after := Batch(entries, hash, name, answer, texts).1;
            && (forall key :: key in after <==> key in entries || exists t | t in texts :: key == KeyOf(hash, name, t))
            && forall key | key in entries && (forall t | t in texts :: key != KeyOf(hash, name, t)) ::
                 after[key] == entries[key]
  {
    hide Uncached, Filled, PutEach, IsInjectiveOn, Agrees, AllKnown;
    var missing := Uncached(entries, hash, name, texts);
    forall t ensures t in missing <==> t in texts && KeyOf(hash, name, t) !in entries {
      UncachedExact(entries, hash, name, texts, t);
    }
    if missing == [] {
      assert forall t | t in texts :: KeyOf(hash, name, t) in entries;
    } else {
      MissingKnown(entries, hash, name, known, texts);
      assert IsValues(value, missing, answer(missing).value);
      PutEachAgrees(entries, hash, name, value, known, missing, answer(missing).value);
    }
  }

  // ─── Collisions ─────────────────────────────────────────────────

  /** Starting empty, embedding one text and then another answers the second one rightly for every model
      exactly when their hashes differ or they are the same text. */
  lemma RightForAllModelsIff(hash: Hash, name: string, a: string, b: string)
    ensures (forall value: string -> Vector :: SecondAnswer(hash, name, value, a, b) == value(b))
            <==> (hash(a) == hash(b) ==> a == b)
  {
    if hash(a) == hash(b) && a != b {
      var value := (t: string) => if t == a then Vector([1.0]) else Vector([]);
      assert SecondAnswer(hash, name, value, a, b) == value(a);
    }
  }

  /** The vector `b` gets after `a` was embedded with an empty cache. */
  function SecondAnswer(hash: Hash, name: string, value: string -> Vector, a: string, b: string): Vector {
    var answer: Answer :=
      (texts: seq<string>) => Embedded(seq(|texts|, i requires 0 <= i < |texts| => value(texts[i])));
    var entries := Single(map[], hash, name, answer, a).1;
    var second := Single(entries, hash, name, answer, b).0;
    assert |answer([b]).value| == 1;
    second.value
  }
}
