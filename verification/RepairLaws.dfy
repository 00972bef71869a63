/** What the repair of a config touches, path by path (src/configure/apply.rs): the string under a `command` that
    no other `command` is above, and nothing else, at any depth. */
module RepairLaws {
  import opened CommandKeys
  import Json = JsonMerge
  import Toml = TomlMerge

  datatype Step = Key(key: string) | Place(n: nat)

  /** The path ends at a `command` and passes through none. */
  predicate IsCommandPath(path: seq<Step>) {
    && path != [] && path[|path| - 1] == Key("command")
    && forall i | 0 <= i < |path| - 1 :: path[i] != Key("command")
  }

  lemma CommandPathTail(path: seq<Step>)
    requires |path| > 1
    ensures IsCommandPath(path) <==> path[0] != Key("command") && IsCommandPath(path[1..])
  {
    var tail := path[1..];
    assert tail[|tail| - 1] == path[|path| - 1];
    if path[0] != Key("command") && IsCommandPath(tail) {
      forall i | 0 <= i < |path| - 1 ensures path[i] != Key("command") {
        if i > 0 { assert path[i] == tail[i - 1]; }
      }
    }
    if IsCommandPath(path) {
      forall i | 0 <= i < |tail| - 1 ensures tail[i] != Key("command") { assert tail[i] == path[i + 1]; }
    }
  }

  // ─── JSON ───────────────────────────────────────────────────────

  predicate HasJson(v: Json.Value, path: seq<Step>)
    decreases path
  {
    path == [] ||
    match (v, path[0])
    case (Object(f), Key(k)) => k in f && HasJson(f[k], path[1..])
    case (Array(items), Place(n)) => n < |items| && HasJson(items[n], path[1..])
    case _ => false
  }

  function JsonAt(v: Json.Value, path: seq<Step>): Json.Value
    requires HasJson(v, path)
    decreases path
  {
    if path == [] then v
    else
      match (v, path[0])
      case (Object(f), Key(k)) => JsonAt(f[k], path[1..])
      case (Array(items), Place(n)) => JsonAt(items[n], path[1..])
  }

  predicate IsScalar(v: Json.Value) {
    !v.Object? && !v.Array?
  }

  /** The repair keeps every path. A scalar at its end is as it was, but for a string under a command path,
      which is rewritten. */
  lemma {:induction false} JsonRepairExactly(v: Json.Value, path: seq<Step>, bin: string)
    requires HasJson(v, path)
    ensures HasJson(Json.Upgrade(v, bin), path)
    ensures var (was, now) := (JsonAt(v, path), JsonAt(Json.Upgrade(v, bin), path));
            IsScalar(was) ==>
              now == if was.String? && IsCommandPath(path) then Json.String(Rewrite(was.s, bin)) else was
    ensures forall k :: HasJson(v, path + [k]) <==> HasJson(Json.Upgrade(v, bin), path + [k])
    decreases path
  {
    hide Rewrite, IsCommandPath;
    if path == [] {
      forall k ensures HasJson(v, [] + [k]) <==> HasJson(Json.Upgrade(v, bin), [] + [k]) {
        assert [] + [k] == [k] && [k][1..] == [];
      }
      assert !IsCommandPath(path) by { NoCommandPath(); }
    } else if path[0] == Key("command") {
      BelowCommand(path);
      CommandField(v, path, bin);
    } else {
      var next := if v.Object? then v.fields[path[0].key] else v.items[path[0].n];
      JsonRepairExactly(next, path[1..], bin);
      forall k ensures HasJson(v, path + [k]) <==> HasJson(Json.Upgrade(v, bin), path + [k]) {
        assert (path + [k])[1..] == path[1..] + [k];
      }
      if |path| > 1 { CommandPathTail(path); } else { OneStepPath(path); }
    }
  }

  lemma NoCommandPath()
    ensures !IsCommandPath([])
  {
  }

  lemma OneStepPath(path: seq<Step>)
    requires |path| == 1
    ensures IsCommandPath(path) <==> path[0] == Key("command")
    ensures !IsCommandPath(path[1..])
  {
  }

  lemma BelowCommand(path: seq<Step>)
    requires path != [] && path[0] == Key("command")
    ensures IsCommandPath(path) <==> |path| == 1
  {
  }

  lemma CommandField(v: Json.Value, path: seq<Step>, bin: string)
    requires HasJson(v, path) && path != [] && path[0] == Key("command")
    ensures HasJson(Json.Upgrade(v, bin), path)
    ensures JsonAt(Json.Upgrade(v, bin), path)
            == if |path| == 1 then Json.UpgradeCommand(JsonAt(v, path), bin) else JsonAt(v, path)
    ensures forall k :: HasJson(v, path + [k]) <==> HasJson(Json.Upgrade(v, bin), path + [k])
  {
    hide Rewrite;
    var c := v.fields["command"];
    assert |path| > 1 ==> !c.String?;
    forall k ensures HasJson(v, path + [k]) <==> HasJson(Json.Upgrade(v, bin), path + [k]) {
      assert (path + [k])[1..] == path[1..] + [k];
      assert c.String? ==> !HasJson(c, path[1..] + [k]) && !HasJson(Json.UpgradeCommand(c, bin), path[1..] + [k]);
    }
  }

  // ─── TOML ───────────────────────────────────────────────────────

  predicate HasToml(i: Toml.Item, path: seq<Step>)
    decreases path
  {
    path == [] ||
    match (i, path[0])
    case (Table(t), Key(k)) => k in t && HasToml(t[k], path[1..])
    case (Tables(ts), Place(n)) => n < |ts| && HasToml(ts[n], path[1..])
    case _ => false
  }

  function TomlAt(i: Toml.Item, path: seq<Step>): Toml.Item
    requires HasToml(i, path)
    decreases path
  {
    if path == [] then i
    else
      match (i, path[0])
      case (Table(t), Key(k)) => TomlAt(t[k], path[1..])
      case (Tables(ts), Place(n)) => TomlAt(ts[n], path[1..])
  }

  /** The same on TOML, where a leaf is any inline value. */
  lemma {:induction false} TomlRepairExactly(i: Toml.Item, path: seq<Step>, bin: string)
    requires HasToml(i, path)
    ensures HasToml(Toml.UpgradeItem(i, bin), path)
    ensures var (was, now) := (TomlAt(i, path), TomlAt(Toml.UpgradeItem(i, bin), path));
            was.Leaf? || was.Missing? ==>
              now == if was.Leaf? && was.v.TString? && IsCommandPath(path)
                     then Toml.Leaf(Toml.TString(Rewrite(was.v.s, bin))) else was
    ensures forall k :: HasToml(i, path + [k]) <==> HasToml(Toml.UpgradeItem(i, bin), path + [k])
    decreases path
  {
    hide Rewrite, IsCommandPath;
    if path == [] {
      forall k ensures HasToml(i, [] + [k]) <==> HasToml(Toml.UpgradeItem(i, bin), [] + [k]) {
        assert [] + [k] == [k] && [k][1..] == [];
      }
      assert !IsCommandPath(path) by { NoCommandPath(); }
    } else if path[0] == Key("command") {
      BelowCommand(path);
      CommandItem(i, path, bin);
    } else {
      var next := if i.Table? then i.t[path[0].key] else i.ts[path[0].n];
      TomlRepairExactly(next, path[1..], bin);
      forall k ensures HasToml(i, path + [k]) <==> HasToml(Toml.UpgradeItem(i, bin), path + [k]) {
        assert (path + [k])[1..] == path[1..] + [k];
      }
      if |path| > 1 { CommandPathTail(path); } else { OneStepPath(path); }
    }
  }

  lemma CommandItem(i: Toml.Item, path: seq<Step>, bin: string)
    requires HasToml(i, path) && path != [] && path[0] == Key("command")
    ensures HasToml(Toml.UpgradeItem(i, bin), path)
    ensures TomlAt(Toml.UpgradeItem(i, bin), path)
            == if |path| == 1 then Toml.UpgradeLeaf(TomlAt(i, path), bin) else TomlAt(i, path)
    ensures forall k :: HasToml(i, path + [k]) <==> HasToml(Toml.UpgradeItem(i, bin), path + [k])
  {
    hide Rewrite;
    var c := i.t["command"];
    assert |path| > 1 ==> !c.Leaf?;
    forall k ensures HasToml(i, path + [k]) <==> HasToml(Toml.UpgradeItem(i, bin), path + [k]) {
      assert (path + [k])[1..] == path[1..] + [k];
      assert c.Leaf? ==> !HasToml(c, path[1..] + [k]) && !HasToml(Toml.UpgradeLeaf(c, bin), path[1..] + [k]);
    }
  }
}
