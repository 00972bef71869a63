/** The content-hash embedding cache (src/embed/cache.rs). */
module EmbeddingCache {
  import opened FrontmatterFormat

  datatype Vector = Vector(components: seq<real>)

  datatype Failure = Inference(message: string) | EmptyResult | WrongCount(expected: nat, got: nat)

  datatype Reply<T> = Embedded(value: T) | Refused(failure: Failure)

  type Hash = string -> string

  /** Model name and content hash. */
  type Key = (string, string)

  type Entries = map<Key, Vector>

  type Answer = seq<string> -> Reply<seq<Vector>>

  // ─── Specification ──────────────────────────────────────────────

  function KeyOf(hash: Hash, name: string, text: string): Key {
    (name, hash(text))
  }

  function Cached(entries: Entries, hash: Hash, name: string, text: string): Option<Vector> {
    var key := KeyOf(hash, name, text);
    if key in entries then Some(entries[key]) else None
  }

  /** The texts the cache does not hold, in order, repeats included. */
  function Uncached(entries: Entries, hash: Hash, name: string, texts: seq<string>): seq<string> {
    if texts == [] then []
    else
      (if Cached(entries, hash, name, texts[0]).Some? then [] else [texts[0]])
      + Uncached(entries, hash, name, texts[1..])
  }

  /** Cached vectors at their places, fresh ones in order at the others. */
  function Filled(entries: Entries, hash: Hash, name: string, texts: seq<string>, vectors: seq<Vector>): seq<Vector>
    requires |vectors| == |Uncached(entries, hash, name, texts)|
  {
    if texts == [] then []
    else
      match Cached(entries, hash, name, texts[0])
      case Some(v) => [v] + Filled(entries, hash, name, texts[1..], vectors)
      case None => [vectors[0]] + Filled(entries, hash, name, texts[1..], vectors[1..])
  }

  function PutEach(entries: Entries, hash: Hash, name: string, texts: seq<string>, vectors: seq<Vector>): Entries
    requires |texts| == |vectors|
    decreases |texts|
  {
    if texts == [] then entries
    else PutEach(entries[KeyOf(hash, name, texts[0]) := vectors[0]], hash, name, texts[1..], vectors[1..])
  }

  /** What a batch returns and the entries it leaves. */
  function Batch(entries: Entries, hash: Hash, name: string, answer: Answer, texts: seq<string>)
    : (Reply<seq<Vector>>, Entries)
  {
    var missing := Uncached(entries, hash, name, texts);
    if missing == [] then (Embedded(Filled(entries, hash, name, texts, [])), entries)
    else
      match answer(missing)
      case Refused(failure) => (Refused(failure), entries)
      case Embedded(vectors) =>
        if |vectors| != |missing| then (Refused(WrongCount(|missing|, |vectors|)), entries)
        else (Embedded(Filled(entries, hash, name, texts, vectors)), PutEach(entries, hash, name, missing, vectors))
  }

  /** What one text returns and the entries it leaves. */
  function Single(entries: Entries, hash: Hash, name: string, answer: Answer, text: string): (Reply<Vector>, Entries) {
    match Cached(entries, hash, name, text)
    case Some(v) => (Embedded(v), entries)
    case None =>
      match answer([text])
      case Refused(failure) => (Refused(failure), entries)
      case Embedded(vectors) =>
        if vectors == [] then (Refused(EmptyResult), entries)
        else (Embedded(vectors[0]), entries[KeyOf(hash, name, text) := vectors[0]])
  }

  // ─── Model and cache objects ────────────────────────────────────

  /** A model answers a batch as a whole; `calls` is what it has been asked. */
  class EmbeddingModel {
    const name: string
    const answer: Answer
    ghost var calls: seq<seq<string>>

    constructor (name: string, answer: Answer)
      ensures this.name == name && this.answer == answer && calls == []
    {
      this.name, this.answer, this.calls := name, answer, [];
    }

    method Embed(texts: seq<string>) returns (r: Reply<seq<Vector>>)
      modifies this`calls
      ensures r == answer(texts) && calls == old(calls) + [texts]
    {
      calls := calls + [texts];
      r := answer(texts);
    }
  }

  class Cache {
    const hash: Hash
    var entries: Entries
    var hits: nat
    var misses: nat

    constructor (hash: Hash)
      ensures this.hash == hash && entries == map[] && hits == 0 && misses == 0
    {
      this.hash, entries, hits, misses := hash, map[], 0, 0;
    }

    method Get(name: string, text: string) returns (r: Option<Vector>)
      modifies this`hits, this`misses
      ensures r == Cached(entries, hash, name, text)
      ensures hits == old(hits) + (if r.Some? then 1 else 0) && misses == old(misses) + (if r.Some? then 0 else 1)
    {
      var key := KeyOf(hash, name, text);
      if key in entries {
        hits := hits + 1;
        r := Some(entries[key]);
      } else {
        misses := misses + 1;
        r := None;
      }
    }

    method Put(name: string, text: string, embedding: Vector)
      modifies this`entries
      ensures entries == old(entries)[KeyOf(hash, name, text) := embedding]
    {
      entries := entries[KeyOf(hash, name, text) := embedding];
    }

    method EmbedCached(model: EmbeddingModel, text: string) returns (r: Reply<Vector>)
      modifies this, model`calls
      ensures (r, entries) == Single(old(entries), hash, model.name, model.answer, text)
      ensures hits == old(hits) + (if Cached(old(entries), hash, model.name, text).Some? then 1 else 0)
      ensures hits + misses == old(hits) + old(misses) + 1
      ensures model.calls == old(model.calls)
                             + if Cached(old(entries), hash, model.name, text).Some? then [] else [[text]]
    {
      var cached := Get(model.name, text);
      if cached.Some? {
        return Embedded(cached.value);
      }
      var reply := model.Embed([text]);
      if reply.Refused? {
        return Refused(reply.failure);
      }
      if reply.value == [] {
        return Refused(EmptyResult);
      }
      Put(model.name, text, reply.value[0]);
      r := Embedded(reply.value[0]);
    }

    /** One model call for all texts not cached; nothing is stored when it fails. */
    method EmbedBatchCached(model: EmbeddingModel, texts: seq<string>) returns (r: Reply<seq<Vector>>)
      modifies this, model`calls
      ensures r == Batch(old(entries), hash, model.name, model.answer, texts).0
      ensures entries == Batch(old(entries), hash, model.name, model.answer, texts).1
      ensures misses == old(misses) + |Uncached(old(entries), hash, model.name, texts)|
      ensures hits + misses == old(hits) + old(misses) + |texts|
      ensures model.calls == old(model.calls)
                             + (var missing := Uncached(old(entries), hash, model.name, texts);
                                if missing == [] then [] else [missing])
    {
      hide Filled, PutEach, Uncached, Cached;
      var results := new Option<Vector>[|texts|](_ => None);
      var indices, missing := ScanTexts(model.name, texts, results);
      var embeddings: seq<Vector> := [];
      if missing != [] {
        var reply := model.Embed(missing);
        if reply.Refused? {
          return Refused(reply.failure);
        }
        embeddings := reply.value;
        if |embeddings| != |indices| {
          return Refused(WrongCount(|indices|, |embeddings|));
        }
        StoreFresh(model.name, texts, indices, missing, embeddings, results);
      }
      FilledLength(old(entries), hash, model.name, texts, embeddings);
      forall j | 0 <= j < |texts|
        ensures results[j].Some? && Filled(old(entries), hash, model.name, texts, embeddings)[j] == results[j].value
      {
        FilledAt(old(entries), hash, model.name, texts, embeddings, j);
        if missing == [] {
          PlacedNone(old(entries), hash, model.name, texts, embeddings, j);
        }
      }
      r := Embedded(Collect(results[..]));
      assert r.value == Filled(old(entries), hash, model.name, texts, embeddings);
    }

    /** First loop: look every text up, remembering the places of those not found. */
    method ScanTexts(name: string, texts: seq<string>, results: array<Option<Vector>>)
      returns (indices: seq<nat>, missing: seq<string>)
      requires results.Length == |texts| && forall j | 0 <= j < |texts| :: results[j].None?
      modifies this`hits, this`misses, results
      ensures missing == Uncached(entries, hash, name, texts) && |indices| == |missing|
      ensures ArePlaces(entries, hash, name, texts, |texts|, indices)
      ensures forall j | 0 <= j < |texts| :: results[j] == Cached(entries, hash, name, texts[j])
      ensures misses == old(misses) + |missing| && hits + misses == old(hits) + old(misses) + |texts|
    {
      hide Uncached, Cached, ArePlaces;
      indices, missing := [], [];
      UncachedNone(entries, hash, name, texts);
      for i := 0 to |texts|
        invariant missing == Uncached(entries, hash, name, texts[..i])
        invariant ArePlaces(entries, hash, name, texts, i, indices)
        invariant forall j | 0 <= j < |texts| ::
                    results[j] == if j < i then Cached(entries, hash, name, texts[j]) else None
        invariant misses == old(misses) + |missing| && hits + misses == old(hits) + old(misses) + i
      {
        UncachedStep(entries, hash, name, texts, i, indices);
        var cached := Get(name, texts[i]);
        if cached.Some? {
          results[i] := cached;
        } else {
          indices := indices + [i];
          missing := missing + [texts[i]];
        }
      }
      assert texts[..|texts|] == texts;
      PlacesCover(entries, hash, name, texts, indices);
    }

    /** Second loop: store the model's vectors and put them in their places. */
    method StoreFresh(name: string, texts: seq<string>, indices: seq<nat>, ghost missing: seq<string>,
                      embeddings: seq<Vector>, results: array<Option<Vector>>)
      requires results.Length == |texts| && missing == Uncached(entries, hash, name, texts)
      requires |embeddings| == |missing| && ArePlaces(entries, hash, name, texts, |texts|, indices)
      requires forall j | 0 <= j < |texts| :: results[j] == Cached(entries, hash, name, texts[j])
      modifies this`entries, results
      ensures entries == PutEach(old(entries), hash, name, missing, embeddings)
      ensures forall j | 0 <= j < |texts| ::
                results[j] == Placed(old(entries), hash, name, texts, embeddings, |embeddings|, j)
    {
      hide Uncached, Cached, PutEach, Placed;
      ghost var start := entries;
      assert |indices| == |embeddings| by { PlacesCover(start, hash, name, texts, indices); }
      forall j | 0 <= j < |texts| ensures results[j] == Placed(start, hash, name, texts, embeddings, 0, j) {
        PlacedNone(start, hash, name, texts, embeddings, j);
      }
      for k := 0 to |indices|
        invariant PutEach(start, hash, name, missing, embeddings)
                  == PutEach(entries, hash, name, missing[k..], embeddings[k..])
        invariant forall j | 0 <= j < |texts| :: results[j] == Placed(start, hash, name, texts, embeddings, k, j)
      {
        PlacesAt(start, hash, name, texts, indices, k);
        PutEachHead(entries, hash, name, missing, embeddings, k);
        forall j | 0 <= j < |texts|
          ensures Placed(start, hash, name, texts, embeddings, k + 1, j)
                  == if j == indices[k] then Some(embeddings[k]) else Placed(start, hash, name, texts, embeddings, k, j)
        {
          PlacedNext(start, hash, name, texts, indices, embeddings, k, j);
        }
        Put(name, texts[indices[k]], embeddings[k]);
        results[indices[k]] := Some(embeddings[k]);
      }
      PutEachNone(entries, hash, name);
    }
  }

  function Collect(results: seq<Option<Vector>>): (r: seq<Vector>)
    requires forall o | o in results :: o.Some?
    ensures |r| == |results|
  {
    seq(|results|, j requires 0 <= j < |results| => results[j].value)
  }

  // ─── Places ─────────────────────────────────────────────────────

  /** How many texts before this one are not cached. */
  ghost function Rank(entries: Entries, hash: Hash, name: string, texts: seq<string>, j: nat): nat
    requires j <= |texts|
  {
    |Uncached(entries, hash, name, texts[..j])|
  }

  /** The uncached places among the first `n`, in order. */
  ghost predicate ArePlaces(entries: Entries, hash: Hash, name: string, texts: seq<string>, n: nat, indices: seq<nat>)
    requires n <= |texts|
  {
    && |indices| == Rank(entries, hash, name, texts, n)
    && (forall k | 0 <= k < |indices| :: indices[k] < n && Cached(entries, hash, name, texts[indices[k]]).None?
                                         && Rank(entries, hash, name, texts, indices[k]) == k)
    && forall j | 0 <= j < n && Cached(entries, hash, name, texts[j]).None? ::
         Rank(entries, hash, name, texts, j) < |indices| && indices[Rank(entries, hash, name, texts, j)] == j
  }

  /** The content of a place once `k` fresh vectors are stored. */
  ghost function Placed(entries: Entries, hash: Hash, name: string, texts: seq<string>, vectors: seq<Vector>,
                        k: nat, j: nat)
    : Option<Vector>
    requires j < |texts| && k <= |vectors|
  {
    if Cached(entries, hash, name, texts[j]).Some? then Cached(entries, hash, name, texts[j])
    else if Rank(entries, hash, name, texts, j) < k then Some(vectors[Rank(entries, hash, name, texts, j)])
    else None
  }

  lemma {:induction false} UncachedConcat(entries: Entries, hash: Hash, name: string, a: seq<string>, b: seq<string>)
    ensures Uncached(entries, hash, name, a + b) == Uncached(entries, hash, name, a) + Uncached(entries, hash, name, b)
  {
    hide Cached, Uncached;
    if a == [] {
      assert a + b == b;
      UncachedNone(entries, hash, name, a);
      assert a[..0] == a;
    } else {
      UncachedConcat(entries, hash, name, a[1..], b);
      assert (a + b)[0] == a[0] && (a + b)[1..] == a[1..] + b;
      UncachedHead(entries, hash, name, a);
      UncachedHead(entries, hash, name, a + b);
    }
  }

  lemma UncachedHead(entries: Entries, hash: Hash, name: string, texts: seq<string>)
    requires texts != []
    ensures Uncached(entries, hash, name, texts)
            == (if Cached(entries, hash, name, texts[0]).Some? then [] else [texts[0]])
               + Uncached(entries, hash, name, texts[1..])
  {
  }

  lemma UncachedNone(entries: Entries, hash: Hash, name: string, texts: seq<string>)
    ensures Uncached(entries, hash, name, texts[..0]) == [] && ArePlaces(entries, hash, name, texts, 0, [])
  {
  }

  lemma UncachedOne(entries: Entries, hash: Hash, name: string, text: string)
    ensures Uncached(entries, hash, name, [text]) == if Cached(entries, hash, name, text).Some? then [] else [text]
  {
    hide Cached;
    assert Uncached(entries, hash, name, [text][1..]) == [];
  }

  lemma UncachedStep(entries: Entries, hash: Hash, name: string, texts: seq<string>, i: nat, indices: seq<nat>)
    requires i < |texts| && ArePlaces(entries, hash, name, texts, i, indices)
    ensures var found := Cached(entries, hash, name, texts[i]).Some?;
            && Uncached(entries, hash, name, texts[..i + 1])
               == Uncached(entries, hash, name, texts[..i]) + (if found then [] else [texts[i]])
            && ArePlaces(entries, hash, name, texts, i + 1, if found then indices else indices + [i])
  {
    hide Cached, Uncached, Rank, ArePlaces;
    RankNext(entries, hash, name, texts, i);
    if Cached(entries, hash, name, texts[i]).Some? {
      PlacesSkip(entries, hash, name, texts, i, indices);
    } else {
      PlacesAdd(entries, hash, name, texts, i, indices);
    }
  }

  lemma PlacesSkip(entries: Entries, hash: Hash, name: string, texts: seq<string>, i: nat, indices: seq<nat>)
    requires i < |texts| && ArePlaces(entries, hash, name, texts, i, indices)
    requires Cached(entries, hash, name, texts[i]).Some?
    requires Rank(entries, hash, name, texts, i + 1) == Rank(entries, hash, name, texts, i)
    ensures ArePlaces(entries, hash, name, texts, i + 1, indices)
  {
    hide Cached, Rank;
  }

  lemma PlacesAdd(entries: Entries, hash: Hash, name: string, texts: seq<string>, i: nat, indices: seq<nat>)
    requires i < |texts| && ArePlaces(entries, hash, name, texts, i, indices)
    requires Cached(entries, hash, name, texts[i]).None?
    requires Rank(entries, hash, name, texts, i + 1) == Rank(entries, hash, name, texts, i) + 1
    ensures ArePlaces(entries, hash, name, texts, i + 1, indices + [i])
  {
    hide Cached, Rank;
    var longer := indices + [i];
    assert longer[|indices|] == i && forall k | 0 <= k < |indices| :: longer[k] == indices[k];
    forall j | 0 <= j < i + 1 && Cached(entries, hash, name, texts[j]).None?
      ensures Rank(entries, hash, name, texts, j) < |longer| && longer[Rank(entries, hash, name, texts, j)] == j
    {
    }
  }

  lemma RankNext(entries: Entries, hash: Hash, name: string, texts: seq<string>, i: nat)
    requires i < |texts|
    ensures var found := Cached(entries, hash, name, texts[i]).Some?;
            && Uncached(entries, hash, name, texts[..i + 1])
               == Uncached(entries, hash, name, texts[..i]) + (if found then [] else [texts[i]])
            && Rank(entries, hash, name, texts, i + 1) == Rank(entries, hash, name, texts, i) + (if found then 0 else 1)
  {
    hide Cached, Uncached;
    assert texts[..i + 1] == texts[..i] + [texts[i]];
    UncachedConcat(entries, hash, name, texts[..i], [texts[i]]);
    UncachedOne(entries, hash, name, texts[i]);
  }

  /** An uncached text stands in the missing list at its rank. */
  lemma UncachedAt(entries: Entries, hash: Hash, name: string, texts: seq<string>, j: nat)
    requires j < |texts| && Cached(entries, hash, name, texts[j]).None?
    ensures Rank(entries, hash, name, texts, j) < |Uncached(entries, hash, name, texts)|
    ensures Uncached(entries, hash, name, texts)[Rank(entries, hash, name, texts, j)] == texts[j]
  {
    hide Cached;
    assert texts == texts[..j] + texts[j..];
    UncachedConcat(entries, hash, name, texts[..j], texts[j..]);
  }

  lemma PlacesCover(entries: Entries, hash: Hash, name: string, texts: seq<string>, indices: seq<nat>)
    requires ArePlaces(entries, hash, name, texts, |texts|, indices)
    ensures |indices| == |Uncached(entries, hash, name, texts)|
  {
    hide Uncached, Cached;
    assert texts[..|texts|] == texts;
  }

  lemma PlacesAt(entries: Entries, hash: Hash, name: string, texts: seq<string>, indices: seq<nat>, k: nat)
    requires ArePlaces(entries, hash, name, texts, |texts|, indices) && k < |indices|
    ensures |indices| == |Uncached(entries, hash, name, texts)|
    ensures indices[k] < |texts| && texts[indices[k]] == Uncached(entries, hash, name, texts)[k]
  {
    hide Uncached, Cached;
    PlacesCover(entries, hash, name, texts, indices);
    UncachedAt(entries, hash, name, texts, indices[k]);
  }

  lemma PlacedNone(entries: Entries, hash: Hash, name: string, texts: seq<string>, vectors: seq<Vector>, j: nat)
    requires j < |texts|
    ensures Placed(entries, hash, name, texts, vectors, 0, j) == Cached(entries, hash, name, texts[j])
  {
    hide Uncached;
  }

  lemma PlacedNext(entries: Entries, hash: Hash, name: string, texts: seq<string>, indices: seq<nat>,
                   vectors: seq<Vector>, k: nat, j: nat)
    requires ArePlaces(entries, hash, name, texts, |texts|, indices)
    requires j < |texts| && k < |indices| == |vectors|
    ensures Placed(entries, hash, name, texts, vectors, k + 1, j)
            == if j == indices[k] then Some(vectors[k]) else Placed(entries, hash, name, texts, vectors, k, j)
  {
    hide Uncached, Cached;
  }

  lemma PutEachHead(entries: Entries, hash: Hash, name: string, missing: seq<string>, vectors: seq<Vector>, k: nat)
    requires |missing| == |vectors| && k < |missing|
    ensures PutEach(entries, hash, name, missing[k..], vectors[k..])
            == PutEach(entries[KeyOf(hash, name, missing[k]) := vectors[k]], hash, name,
                       missing[k + 1..], vectors[k + 1..])
  {
    assert missing[k..][1..] == missing[k + 1..] && vectors[k..][1..] == vectors[k + 1..];
  }

  lemma PutEachNone(entries: Entries, hash: Hash, name: string)
    ensures PutEach(entries, hash, name, [], []) == entries
  {
  }

  lemma RankShift(entries: Entries, hash: Hash, name: string, texts: seq<string>, j: nat)
    requires 0 < j <= |texts|
    ensures Rank(entries, hash, name, texts, j)
            == (if Cached(entries, hash, name, texts[0]).Some? then 0 else 1)
               + Rank(entries, hash, name, texts[1..], j - 1)
  {
    hide Cached;
    assert texts[..j][1..] == texts[1..][..j - 1];
  }

  /** What a batch returns for one of its texts. */
  lemma {:induction false} FilledAt(entries: Entries, hash: Hash, name: string, texts: seq<string>,
                                    vectors: seq<Vector>, j: nat)
    requires |vectors| == |Uncached(entries, hash, name, texts)| && j < |texts|
    ensures |Filled(entries, hash, name, texts, vectors)| == |texts|
    ensures Placed(entries, hash, name, texts, vectors, |vectors|, j)
            == Some(Filled(entries, hash, name, texts, vectors)[j])
  {
    hide Cached;
    FilledLength(entries, hash, name, texts, vectors);
    if j > 0 {
      var rest := if Cached(entries, hash, name, texts[0]).Some? then vectors else vectors[1..];
      FilledAt(entries, hash, name, texts[1..], rest, j - 1);
      RankShift(entries, hash, name, texts, j);
    }
  }

  lemma {:induction false} FilledLength(entries: Entries, hash: Hash, name: string, texts: seq<string>,
                                        vectors: seq<Vector>)
    requires |vectors| == |Uncached(entries, hash, name, texts)|
    ensures |Filled(entries, hash, name, texts, vectors)| == |texts|
  {
    hide Cached;
    if texts != [] {
      FilledLength(entries, hash, name, texts[1..],
                   if Cached(entries, hash, name, texts[0]).Some? then vectors else vectors[1..]);
    }
  }
}
