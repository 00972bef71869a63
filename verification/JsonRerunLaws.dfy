/** For one given patch: when is configuring a second time a no-op, on every existing JSON config? */
module JsonRerunLaws {
  import opened Text
  import opened CommandKeys
  import opened CommandKeyLaws
  import opened CommandNames
  import opened HookKeys
  import opened JsonMerge
  import opened JsonMergeLaws

  ghost predicate RerunsWith(patch: Value, bin: string) {
    forall base :: Configure(Configure(base, patch, bin), patch, bin) == Configure(base, patch, bin)
  }

  // ─── Scalars and objects ────────────────────────────────────────

  lemma ScalarReruns(patch: Value, bin: string)
    requires !patch.Object? && !patch.Array?
    ensures RerunsWith(patch, bin)
  {
  }

  lemma NoCommandNoServer(fields: Fields)
    requires "command" !in fields
    ensures !IsCogzServer(fields)
  {
  }

  function UpgradeField(k: string, v: Value, bin: string): Value {
    if k == "command" then UpgradeCommand(v, bin) else Upgrade(v, bin)
  }

  /** A run of an object patch that is no server, field by field. */
  lemma FieldsOfRun(b: Fields, p: Fields, bin: string)
    requires !(IsCogzServer(b) && IsCogzServer(p))
    ensures var r := Configure(Object(b), Object(p), bin);
            && r.Object? && r.fields.Keys == b.Keys + p.Keys
            && forall k | k in r.fields ::
                 r.fields[k]
                 == UpgradeField(k, if k !in p then b[k] else if k !in b then p[k] else Merge(b[k], p[k]), bin)
  {
    hide IsCogzServer, UpgradeCommand;
  }

  lemma FieldSettles(k: string, v: Value, bin: string)
    requires RewriteSettles(bin)
    ensures UpgradeField(k, UpgradeField(k, v, bin), bin) == UpgradeField(k, v, bin)
  {
    hide Rewrite;
    if k == "command" {
      if v.String? { assert Rewrite(Rewrite(v.s, bin), bin) == Rewrite(v.s, bin); }
    } else {
      UpgradeSettles(v, bin);
    }
  }

  /** Merging a value into itself changes nothing. */
  lemma MergeSelf(v: Value)
    ensures Merge(v, v) == v
  {
    InstalledInItself(v);
    MergeIsNoOpIffInstalled(v, v);
  }

  /** Where the patch is the first to put something, a second run keeps it. */
  lemma FreshReruns(patch: Value, bin: string)
    requires RerunsWith(patch, bin)
    ensures Configure(Upgrade(patch, bin), patch, bin) == Upgrade(patch, bin)
  {
    MergeSelf(patch);
    assert Configure(patch, patch, bin) == Upgrade(patch, bin);
  }

  lemma RerunOfField(k: string, base: Value, patch: Value, bin: string)
    requires k != "command" && RerunsWith(patch, bin)
    ensures UpgradeField(k, Merge(UpgradeField(k, Merge(base, patch), bin), patch), bin)
            == UpgradeField(k, Merge(base, patch), bin)
  {
    assert Configure(Configure(base, patch, bin), patch, bin) == Configure(base, patch, bin);
  }

  /** An object patch reruns when its fields do, on any base it is merged into field by field. */
  lemma ObjectRunTwice(b: Fields, p: Fields, bin: string)
    requires RewriteSettles(bin) && "command" !in p && forall k | k in p :: RerunsWith(p[k], bin)
    ensures var r := Configure(Object(b), Object(p), bin); Configure(r, Object(p), bin) == r
  {
    hide IsCogzServer, UpgradeField, RerunsWith, RewriteSettles, Configure;
    NoCommandNoServer(p);
    FieldsOfRun(b, p, bin);
    var r := Configure(Object(b), Object(p), bin).fields;
    FieldsOfRun(r, p, bin);
    var again := Configure(Object(r), Object(p), bin).fields;
    forall k | k in r ensures again[k] == r[k] {
      if k !in p {
        FieldSettles(k, b[k], bin);
      } else if k in b {
        RerunOfField(k, b[k], p[k], bin);
      } else {
        FreshField(k, p[k], bin);
      }
    }
    assert again == r;
  }

  lemma FreshField(k: string, patch: Value, bin: string)
    requires k != "command" && RerunsWith(patch, bin)
    ensures UpgradeField(k, Merge(UpgradeField(k, patch, bin), patch), bin) == UpgradeField(k, patch, bin)
  {
    FreshReruns(patch, bin);
  }

  lemma NonObjectRun(base: Value, p: Fields, bin: string)
    requires !base.Object?
    ensures Configure(base, Object(p), bin) == Configure(Object(map[]), Object(p), bin)
  {
    assert Merge(Object(map[]), Object(p)).fields == p;
  }

  /** A rerun of the whole reruns every field. */
  lemma FieldReruns(p: Fields, k: string, bin: string)
    requires "command" !in p && k in p && RerunsWith(Object(p), bin)
    ensures RerunsWith(p[k], bin)
  {
    hide IsCogzServer, Merge, Upgrade;
    NoCommandNoServer(p);
    forall base ensures Configure(Configure(base, p[k], bin), p[k], bin) == Configure(base, p[k], bin) {
      var b := map[k := base];
      FieldsOfRun(b, p, bin);
      var r := Configure(Object(b), Object(p), bin);
      FieldsOfRun(r.fields, p, bin);
      assert Configure(r, Object(p), bin) == r;
    }
  }

  lemma RerunSettles(p: Fields, bin: string)
    requires "command" !in p && RerunsWith(Object(p), bin)
    ensures RewriteSettles(bin)
  {
    hide IsCogzServer, Merge, Upgrade, Rewrite;
    NoCommandNoServer(p);
    forall s ensures Rewrite(Rewrite(s, bin), bin) == Rewrite(s, bin) {
      var b := map["command" := String(s)];
      FieldsOfRun(b, p, bin);
      var r := Configure(Object(b), Object(p), bin);
      FieldsOfRun(r.fields, p, bin);
      assert Configure(r, Object(p), bin) == r;
    }
  }

  /** An object patch without a command of its own reruns as a no-op exactly when the rewrite settles and
      each of its fields does. */
  lemma ObjectRerunsExactly(p: Fields, bin: string)
    requires "command" !in p
    ensures RerunsWith(Object(p), bin) <==> RewriteSettles(bin) && forall k | k in p :: RerunsWith(p[k], bin)
  {
    hide Configure, RewriteSettles;
    if RerunsWith(Object(p), bin) {
      RerunSettles(p, bin);
      forall k | k in p ensures RerunsWith(p[k], bin) { FieldReruns(p, k, bin); }
    }
    if RewriteSettles(bin) && forall k | k in p :: RerunsWith(p[k], bin) {
      forall base
        ensures Configure(Configure(base, Object(p), bin), Object(p), bin) == Configure(base, Object(p), bin)
      {
        if base.Object? {
          ObjectRunTwice(base.fields, p, bin);
        } else {
          NonObjectRun(base, p, bin);
          ObjectRunTwice(map[], p, bin);
        }
      }
    }
  }

  // ─── Arrays ─────────────────────────────────────────────────────

  /** Whatever covers the item still does after the repair. */
  ghost predicate IsStableItem(item: Value, bin: string) {
    forall x | Covers(x, item) :: Covers(Upgrade(x, bin), item)
  }

  lemma CoverageSurvives(items: seq<Value>, item: Value, bin: string)
    requires IsStableItem(item, bin) && CoveredBy(items, item)
    ensures CoveredBy(Upgrade(Array(items), bin).items, item)
  {
    hide Covers;
    var x :| x in items && Covers(x, item);
    var i :| 0 <= i < |items| && items[i] == x;
    var upgraded := Upgrade(Array(items), bin).items;
    assert upgraded[i] == Upgrade(x, bin) && upgraded[i] in upgraded;
  }

  lemma StableArrayReruns(p: seq<Value>, bin: string)
    requires RewriteSettles(bin) && forall item | item in p :: IsStableItem(item, bin)
    ensures RerunsWith(Array(p), bin)
  {
    hide CoveredBy, IsStableItem, RewriteSettles;
    forall base ensures Configure(Configure(base, Array(p), bin), Array(p), bin) == Configure(base, Array(p), bin) {
      var m := Merge(base, Array(p));
      MergeInstalls(base, Array(p));
      forall item | item in p ensures CoveredBy(Upgrade(m, bin).items, item) {
        CoverageSurvives(m.items, item, bin);
      }
      MergeIsNoOpIffInstalled(Upgrade(m, bin), Array(p));
      UpgradeSettles(m, bin);
    }
  }

  /** Items that are no hooks and that the repair leaves alone are stable. */
  lemma FixedItemIsStable(item: Value, bin: string)
    requires HookKeyOf(item).None? && Upgrade(item, bin) == item
    ensures IsStableItem(item, bin)
  {
    hide HookKeyOf, Upgrade;
  }

  // ─── Hook keys through the repair ───────────────────────────────

  lemma UpgradedCommand(h: Value, bin: string)
    ensures HookCommand(Upgrade(h, bin)) ==
            if HookCommand(h).Some? then JsonMerge.Some(Rewrite(HookCommand(h).value, bin)) else JsonMerge.None
  {
    hide Rewrite;
    if h.Object? { UpgradeFields(h.fields, bin); }
  }

  /** What one command of a hook element becomes. */
  ghost predicate IsRewrittenKey(before: string, after: string, bin: string) {
    exists s :: CommandKey(s) == before && CommandKey(Rewrite(s, bin)) == after
  }

  lemma UpgradedGroup(hooks: seq<Value>, bin: string)
    ensures var upgraded := Upgrade(Array(hooks), bin).items;
            && |upgraded| == |hooks|
            && ((exists h | h in upgraded :: HookCommand(h).None?) <==> (exists h | h in hooks :: HookCommand(h).None?))
            && forall i | 0 <= i < |hooks| && HookCommand(hooks[i]).Some? ::
                 HookCommand(upgraded[i]) == JsonMerge.Some(Rewrite(HookCommand(hooks[i]).value, bin))
  {
    hide HookCommand, Rewrite;
    var upgraded := Upgrade(Array(hooks), bin).items;
    forall i | 0 <= i < |hooks|
      ensures HookCommand(upgraded[i])
              == if HookCommand(hooks[i]).None? then JsonMerge.None
                 else JsonMerge.Some(Rewrite(HookCommand(hooks[i]).value, bin))
    {
      UpgradedCommand(hooks[i], bin);
    }
    if h :| h in hooks && HookCommand(h).None? {
      var i :| 0 <= i < |hooks| && hooks[i] == h;
      assert upgraded[i] in upgraded;
    }
    if h :| h in upgraded && HookCommand(h).None? {
      var i :| 0 <= i < |hooks| && upgraded[i] == h;
      assert hooks[i] in hooks;
    }
  }

  /** The repair keeps an element's matcher and the number of its commands, and rewrites each key. */
  lemma UpgradedHookKey(v: Value, bin: string)
    ensures HookKeyOf(Upgrade(v, bin)).Some? == HookKeyOf(v).Some?
    ensures HookKeyOf(v).Some? ==>
              var (a, b) := (HookKeyOf(v).value, HookKeyOf(Upgrade(v, bin)).value);
              && a.matcher == b.matcher && |a.commands| == |b.commands|
              && forall i | 0 <= i < |a.commands| :: IsRewrittenKey(a.commands[i], b.commands[i], bin)
  {
    hide CommandKey, Rewrite;
    if v.Object? {
      UpgradeFields(v.fields, bin);
      UpgradedCommand(v, bin);
      if "hooks" in v.fields && v.fields["hooks"].Array? {
        var hooks := v.fields["hooks"].items;
        UpgradedGroup(hooks, bin);
        if HookKeyOf(v).Some? {
          GroupKeysRewritten(v, bin);
        }
      }
    }
  }

  lemma GroupKeysRewritten(v: Value, bin: string)
    requires v.Object? && "hooks" in v.fields && v.fields["hooks"].Array? && HookKeyOf(v).Some?
    ensures var w := Upgrade(v, bin);
            && HookKeyOf(w).Some? && |HookKeyOf(w).value.commands| == |HookKeyOf(v).value.commands|
            && forall i | 0 <= i < |HookKeyOf(v).value.commands| ::
                 IsRewrittenKey(HookKeyOf(v).value.commands[i], HookKeyOf(w).value.commands[i], bin)
  {
    hide CommandKey, Rewrite;
    UpgradeFields(v.fields, bin);
    var hooks := v.fields["hooks"].items;
    UpgradedGroup(hooks, bin);
    var upgraded := Upgrade(v, bin).fields["hooks"].items;
    assert upgraded == Upgrade(Array(hooks), bin).items;
    forall i | 0 <= i < |hooks|
      ensures IsRewrittenKey(HookKeyOf(v).value.commands[i], HookKeyOf(Upgrade(v, bin)).value.commands[i], bin)
    {
      assert hooks[i] in hooks && upgraded[i] in upgraded;
      var s := HookCommand(hooks[i]).value;
      assert CommandKey(s) == HookKeyOf(v).value.commands[i];
    }
  }

  /** Covering a one-command hook is having its matcher and its key. */
  lemma CoversKeyed(x: Value, item: Value, matcher: string, key: string)
    requires HookKeyOf(item) == JsonMerge.Some(HookKey(matcher, [key]))
    ensures Covers(x, item) <==>
            HookKeyOf(x).Some? && HookKeyOf(x).value.matcher == matcher && key in HookKeyOf(x).value.commands
  {
    hide HookKeyOf;
    assert key in [key] && forall c | c in [key] :: c == key;
  }

  lemma StableKeyIsStableItem(item: Value, matcher: string, key: string, bin: string)
    requires HookKeyOf(item) == JsonMerge.Some(HookKey(matcher, [key])) && IsStableKey(key, bin)
    ensures IsStableItem(item, bin)
  {
    hide HookKeyOf, Covers, Upgrade, CommandKey, Rewrite;
    forall x | Covers(x, item) ensures Covers(Upgrade(x, bin), item) {
      CoversKeyed(x, item, matcher, key);
      CoversKeyed(Upgrade(x, bin), item, matcher, key);
      UpgradedHookKey(x, bin);
      var a, b := HookKeyOf(x).value.commands, HookKeyOf(Upgrade(x, bin)).value.commands;
      var i :| 0 <= i < |a| && a[i] == key;
      assert IsRewrittenKey(a[i], b[i], bin);
      assert b[i] in b;
    }
  }

  // ─── Hook lists ─────────────────────────────────────────────────

  datatype Keyed = Keyed(matcher: string, key: string)

  /** Each item is a hook of one command, no two with the same matcher. */
  ghost predicate AreKeyed(items: seq<Value>, keys: seq<Keyed>) {
    && |items| == |keys|
    && (forall i | 0 <= i < |items| :: HookKeyOf(items[i]) == JsonMerge.Some(HookKey(keys[i].matcher, [keys[i].key])))
    && forall i, j | 0 <= i < j < |keys| :: keys[i].matcher != keys[j].matcher
  }

  /** A config that already holds a command with the key of one of the hooks shows any change of that key. */
  lemma RerunKeepsItemKey(items: seq<Value>, keys: seq<Keyed>, k: nat, s: string, bin: string)
    requires AreKeyed(items, keys) && k < |keys| && RerunsWith(Array(items), bin) && CommandKey(s) == keys[k].key
    ensures CommandKey(Rewrite(s, bin)) == keys[k].key
  {
    hide CommandKey, Rewrite, Upgrade, Covers, HookKeyOf, FlatOf;
    var m := JsonMerge.Some(keys[k].matcher);
    var f := FlatOf(m, s);
    var a := AppendUncovered([f], items);
    UpgradeKeepsLength(Array(a), bin);
    var r := Upgrade(Array(a), bin).items;
    FlatKey(m, s);
    CoversKeyed(f, items[k], keys[k].matcher, keys[k].key);
    AppendCovers([f], items);
    assert f == [f][0] && a[0] == f;
    RunOfArray([f], items, bin);
    assert Configure(Array([f]), Array(items), bin) == Array(r);
    assert Configure(Array(r), Array(items), bin) == Array(r);
    SecondRunAppendsNothing(r, items, bin);
    assert items[k] in items && CoveredBy(r, items[k]);
    var x :| x in r && Covers(x, items[k]);
    var t :| 0 <= t < |r| && r[t] == x;
    UpgradedAt(a, t, bin);
    CoversKeyed(x, items[k], keys[k].matcher, keys[k].key);
    UpgradedHookKey(a[t], bin);
    if t > 0 {
      OthersHaveOtherMatchers(f, items, keys, k, t);
    }
    FlatUpgradedKey(m, s, bin);
  }

  lemma RunOfArray(b: seq<Value>, p: seq<Value>, bin: string)
    ensures Configure(Array(b), Array(p), bin) == Upgrade(Array(AppendUncovered(b, p)), bin)
  {
  }

  lemma UpgradedAt(a: seq<Value>, t: nat, bin: string)
    requires t < |a|
    ensures var r := Upgrade(Array(a), bin); r.Array? && |r.items| == |a| && r.items[t] == Upgrade(a[t], bin)
  {
  }

  lemma SecondRunAppendsNothing(r: seq<Value>, p: seq<Value>, bin: string)
    requires Configure(Array(r), Array(p), bin) == Array(r)
    ensures forall item | item in p :: CoveredBy(r, item)
  {
    hide CoveredBy;
    var m := AppendUncovered(r, p);
    AppendCovers(r, p);
    UpgradeKeepsLength(Array(m), bin);
    assert |m| == |r| && m == r;
    AppendNothingIffCovered(r, p);
  }

  /** What was appended next to a covering hook has another matcher than the hook it covers. */
  lemma OthersHaveOtherMatchers(f: Value, items: seq<Value>, keys: seq<Keyed>, k: nat, t: nat)
    requires AreKeyed(items, keys) && k < |keys| && Covers(f, items[k])
    requires 0 < t < |AppendUncovered([f], items)|
    ensures var x := AppendUncovered([f], items)[t];
            HookKeyOf(x).Some? && HookKeyOf(x).value.matcher != keys[k].matcher
  {
    hide Covers, HookKeyOf;
    var a := AppendUncovered([f], items);
    AppendCovers([f], items);
    AppendsOnlyUncovered([f], items, t);
    assert [f][0] == f && a[..t][0] == f && f in a[..t];
    assert CoveredBy(a[..t], items[k]) && !CoveredBy(a[..t], a[t]);
    var j :| 0 <= j < |items| && items[j] == a[t];
    assert HookKeyOf(items[j]) == JsonMerge.Some(HookKey(keys[j].matcher, [keys[j].key]));
    assert j < k ==> keys[j].matcher != keys[k].matcher;
    assert k < j ==> keys[k].matcher != keys[j].matcher;
  }

  lemma FlatUpgradedKey(m: JsonMerge.Option<string>, s: string, bin: string)
    ensures HookKeyOf(Upgrade(FlatOf(m, s), bin))
            == JsonMerge.Some(HookKey(MatcherText(m), [CommandKey(Rewrite(s, bin))]))
  {
    hide CommandKey, Rewrite, HookKeyOf;
    FlatKey(m, Rewrite(s, bin));
    assert Upgrade(FlatOf(m, s), bin).fields == FlatOf(m, Rewrite(s, bin)).fields;
  }

  lemma ArrayRerunSettles(items: seq<Value>, bin: string)
    requires RerunsWith(Array(items), bin)
    ensures RewriteSettles(bin)
  {
    hide Rewrite, Upgrade, Merge, CoveredBy;
    forall s ensures Rewrite(Rewrite(s, bin), bin) == Rewrite(s, bin) {
      FirstOfRun(s, [], items, bin);
      assert [Entry(s)] + [] == [Entry(s)];
      var r := Configure(Array([Entry(s)]), Array(items), bin);
      FirstOfRun(Rewrite(s, bin), r.items[1..], items, bin);
      assert r.items == [r.items[0]] + r.items[1..];
      assert Configure(r, Array(items), bin) == r;
      assert Entry(Rewrite(s, bin)).fields["command"] == String(Rewrite(s, bin));
      assert Entry(Rewrite(Rewrite(s, bin), bin)).fields["command"] == String(Rewrite(Rewrite(s, bin), bin));
    }
  }

  lemma FirstOfRun(s: string, more: seq<Value>, items: seq<Value>, bin: string)
    ensures var r := Configure(Array([Entry(s)] + more), Array(items), bin);
            r.Array? && r.items != [] && r.items[0] == Entry(Rewrite(s, bin))
  {
    hide Rewrite, Upgrade, CoveredBy;
    var b := [Entry(s)] + more;
    AppendCovers(b, items);
    RunOfArray(b, items, bin);
    var a := AppendUncovered(b, items);
    assert a[0] == b[0] == Entry(s);
    UpgradedAt(a, 0, bin);
    EntryFacts(s, bin);
  }

  /** A list of one-command hooks with different matchers reruns as a no-op on every config exactly when the
      rewrite settles and changes no command that has one of their keys. */
  lemma HookListRerunsExactly(items: seq<Value>, keys: seq<Keyed>, bin: string)
    requires AreKeyed(items, keys)
    ensures RerunsWith(Array(items), bin) <==>
            RewriteSettles(bin) && forall i | 0 <= i < |keys| :: IsStableKey(keys[i].key, bin)
  {
    hide RewriteSettles, RerunsWith, CommandKey, Rewrite, HookKeyOf, IsStableItem;
    if RerunsWith(Array(items), bin) {
      ArrayRerunSettles(items, bin);
      forall i | 0 <= i < |keys| ensures IsStableKey(keys[i].key, bin) {
        forall s | CommandKey(s) == keys[i].key ensures CommandKey(Rewrite(s, bin)) == keys[i].key {
          RerunKeepsItemKey(items, keys, i, s, bin);
        }
      }
    }
    if RewriteSettles(bin) && forall i | 0 <= i < |keys| :: IsStableKey(keys[i].key, bin) {
      forall item | item in items ensures IsStableItem(item, bin) {
        var i :| 0 <= i < |items| && items[i] == item;
        StableKeyIsStableItem(item, keys[i].matcher, keys[i].key, bin);
      }
      StableArrayReruns(items, bin);
    }
  }
}
