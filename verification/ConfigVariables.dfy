/**
 Flattening of a configuration into environment variables as the program does it
 (infrastructure/via/src/config.ts:65-99).
 */
module ConfigVariables {
  import opened ConfigMerge
  import opened ObjectKeys
  import opened ConfigLeaves
  import opened ConfigWays

  /** The loop of the program, whatever it runs over, computes exactly the last-wins map of the leaves: a variable for
      every way through the configuration to a plain value, named in capitals after the steps of the way. */
  method CollectVariables(order: KeyOrder, config: Value, prefix: string) returns (variables: map<string, string>)
    requires IsEnumeration(order)
    ensures variables == LastWins(Leaves(order, config, prefix))
    ensures AreVariablesOf(variables, config, prefix)
    ensures HasNoLower(prefix) ==> forall name :: name in variables ==> HasNoLower(name)
    decreases config, 2
  {
    LeavesGiveVariables(order, config, prefix);
    match config
    case Table(_) => variables := CollectTable(order, config, prefix);
    case Array(_) => variables := CollectItems(order, config, prefix);
    case Text(_) => variables := CollectText(order, config, prefix);
    case Scalar(_) => variables := map[];
  }

  // One more key.
  lemma {:induction false} NextKey(order: KeyOrder, config: Value, keys: seq<string>, i: nat, prefix: string)
    requires IsEnumeration(order) && config.Table? && i < |keys|
    requires forall j :: 0 <= j < |keys| ==> keys[j] in config.fields
    ensures LastWins(LeavesOfKeys(order, config, keys[..i + 1], prefix))
            == LastWins(LeavesOfKeys(order, config, keys[..i], prefix))
               + LastWins(LeavesOfProperty(order, config.fields[keys[i]], prefix + Upper(keys[i])))
  {
    assert keys[..i + 1][..i] == keys[..i];
    LastWinsAppend(LeavesOfKeys(order, config, keys[..i], prefix),
                   LeavesOfProperty(order, config.fields[keys[i]], prefix + Upper(keys[i])));
  }

  // The loop over the keys of a table.
  method CollectTable(order: KeyOrder, config: Value, prefix: string) returns (variables: map<string, string>)
    requires IsEnumeration(order) && config.Table?
    ensures variables == LastWins(Leaves(order, config, prefix))
    decreases config, 1
  {
    assert Enumerates(order(config.fields), config.fields);
    variables := CollectKeys(order, config, order(config.fields), prefix);
  }

  method CollectKeys(order: KeyOrder, config: Value, keys: seq<string>, prefix: string)
    returns (variables: map<string, string>)
    requires IsEnumeration(order) && config.Table?
    requires forall j :: 0 <= j < |keys| ==> keys[j] in config.fields
    ensures variables == LastWins(LeavesOfKeys(order, config, keys, prefix))
    decreases config, 0
  {
    variables := map[];
    for i := 0 to |keys|
      invariant variables == LastWins(LeavesOfKeys(order, config, keys[..i], prefix))
    {
      var nestedEntries := CollectProperty(order, config.fields[keys[i]], prefix + Upper(keys[i]));
      NextKey(order, config, keys, i, prefix);
      variables := variables + nestedEntries;
    }
    assert keys[..|keys|] == keys;
  }

  // The loop over the indices of an array.
  method CollectItems(order: KeyOrder, config: Value, prefix: string) returns (variables: map<string, string>)
    requires IsEnumeration(order) && config.Array?
    ensures variables == LastWins(Leaves(order, config, prefix))
    decreases config, 1
  {
    variables := map[];
    for i := 0 to |config.items|
      invariant variables == LastWins(LeavesOfItems(order, config, i, prefix))
    {
      var name := prefix + Decimal(i);
      var nestedEntries := CollectProperty(order, config.items[i], name);
      LastWinsAppend(LeavesOfItems(order, config, i, prefix), LeavesOfProperty(order, config.items[i], name));
      variables := variables + nestedEntries;
    }
  }

  // The loop over the indices of a string.
  method CollectText(order: KeyOrder, config: Value, prefix: string) returns (variables: map<string, string>)
    requires IsEnumeration(order) && config.Text?
    ensures variables == LastWins(Leaves(order, config, prefix))
    decreases config, 1
  {
    variables := map[];
    var s := config.text;
    ghost var leaves := Leaves(order, config, prefix);
    for i := 0 to |s|
      invariant variables == LastWins(leaves[..i])
    {
      assert leaves[..i + 1][..i] == leaves[..i];
      variables := variables[prefix + Decimal(i) := [s[i]]];
    }
    assert leaves[..|s|] == leaves;
  }

  // The loop over the elements of an array of objects.
  method CollectObjects(order: KeyOrder, value: Value, name: string) returns (variables: map<string, string>)
    requires IsEnumeration(order) && value.Array?
    ensures variables == LastWins(LeavesOfObjects(order, value, |value.items|, name))
    decreases value, 2
  {
    variables := map[];
    for i := 0 to |value.items|
      invariant variables == LastWins(LeavesOfObjects(order, value, i, name))
    {
      var newPrefix := name + "_" + Decimal(i) + "_";
      var nestedEntries := CollectVariables(order, value.items[i], newPrefix);
      LastWinsAppend(LeavesOfObjects(order, value, i, name), Leaves(order, value.items[i], newPrefix));
      variables := variables + nestedEntries;
    }
  }

  // The body of the loop: what one property contributes.
  method CollectProperty(order: KeyOrder, value: Value, name: string) returns (variables: map<string, string>)
    requires IsEnumeration(order)
    ensures variables == LastWins(LeavesOfProperty(order, value, name))
    decreases value, 3
  {
    if value.Table? {
      variables := CollectVariables(order, value, name + "_");
    } else if value.Array? {
      if value.items != [] && IsObject(value.items[0]) {
        variables := CollectObjects(order, value, name);
      } else {
        variables := map[name := "\"" + Join(value.items) + "\""];
        LastWinsOne(Leaf(name, "\"" + Join(value.items) + "\""));
      }
    } else {
      variables := map[name := value.text];
      LastWinsOne(Leaf(name, value.text));
    }
  }
}

/**
 From the files on disk to one environment variable (infrastructure/via/src/config.ts:113-121).
 */
module ConfigCompilation {
  import opened ConfigMerge
  import opened ConfigNesting
  import opened ConfigLoader
  import opened ConfigImports
  import opened ConfigLeaves

  /** The variable of a setting has the value that the last file to speak about the setting gives it, in depth-first
      post-order of the imports, if no other setting shows through in its place and no other leaf takes its name. */
  lemma {:induction false} VariableComesFromLastFile(fs: Disk, root: string, order: KeyOrder, path: seq<string>)
    requires IsEnumeration(order) && path != []
    requires LoadConfigFile(fs, [], root).Loaded? && !ShowsThrough(LoadConfigFile(fs, [], root).tree, path)
    requires var setting := Decided(Files(LoadConfigFile(fs, [], root).tree), path);
             && setting.Set? && IsPlain(setting.value)
             && HasNameAlone(Leaves(order, LoadConfigFile(fs, [], root).value, ""), NameOf(path), Shown(setting.value))
    ensures var r := LoadConfigFile(fs, [], root);
            var variables := LastWins(Leaves(order, r.value, ""));
            && NameOf(path) in variables
            && variables[NameOf(path)] == Shown(Decided(Files(r.tree), path).value)
  {
    var r := LoadConfigFile(fs, [], root);
    FileIsNested(fs, [], root);
    NestedDecidesIff(r.tree, path);
    NestedIsTable(r.tree);
    SettingIsLeaf(order, r.value, "", path);
    assert "" + NameOf(path) == NameOf(path);
    var leaf := ConfigLeaves.Leaf.Leaf(NameOf(path), Shown(At(r.value, path).value));
    SingleValueIsKept(Leaves(order, r.value, ""), leaf);
  }

  // No leaf of this name has another value.
  ghost predicate HasNameAlone(leaves: seq<Leaf>, name: string, value: string) {
    forall leaf :: leaf in leaves && leaf.name == name ==> leaf.value == value
  }
}
