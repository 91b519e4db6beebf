/**
 Which environment variables a configuration has, told by the ways through it (infrastructure/via/src/config.ts:65-99).
 */
module ConfigWays {
  import opened Wrappers
  import opened ConfigMerge
  import opened ObjectKeys
  import opened ConfigLeaves

  // ---------- Ways through a configuration ----------

  datatype Step = Key(key: string) | Item(index: nat)

  function StepName(step: Step): string {
    match step
    case Key(key) => Upper(key)
    case Item(index) => Decimal(index)
  }

  // The names of the steps, each after an underscore.
  function Suffix(way: seq<Step>): string {
    if way == [] then "" else "_" + StepName(way[0]) + Suffix(way[1..])
  }

  // The names of the steps, joined by underscores.
  function WayName(way: seq<Step>): string
    requires way != []
  {
    StepName(way[0]) + Suffix(way[1..])
  }

  // The texts of the elements, from the first to the last, with a comma before each but the first.
  function Listed(items: seq<Value>): string
    decreases items
  {
    if items == [] then ""
    else if |items| == 1 then TextOf(items[0])
    else TextOf(items[0]) + "," + Listed(items[1..])
  }

  function TextOf(v: Value): string
    decreases v
  {
    match v
    case Text(s) => s
    case Scalar(s) => s
    case Array(items) => Listed(items)
    case Table(_) => "[object Object]"
  }

  // What the program looks into: a table, or an array that starts with a table or an array.
  predicate IsEntered(v: Value) {
    v.Table? || (v.Array? && |v.items| > 0 && (v.items[0].Table? || v.items[0].Array?))
  }

  // The value at the end of a way from a property. An array of objects is entered by an index, and its elements are
  // not properties themselves.
  function FromProperty(v: Value, way: seq<Step>): Option<string>
    decreases |way|, 1
  {
    if way == [] then
      if IsEntered(v) then None
      else if v.Array? then Some("\"" + Listed(v.items) + "\"")
      else Some(v.text)
    else if !IsEntered(v) then None
    else if v.Table? then FromObject(v, way)
    else if way[0].Item? && way[0].index < |v.items| then FromObject(v.items[way[0].index], way[1..])
    else None
  }

  // The value at the end of a way from an object whose properties are enumerated: a table by its keys, an array and a
  // string by their indices.
  function FromObject(v: Value, way: seq<Step>): Option<string>
    decreases |way|, 0
  {
    if way == [] then None
    else
      match way[0]
      case Key(key) =>
        if v.Table? && key in v.fields then FromProperty(v.fields[key], way[1..]) else None
      case Item(i) =>
        if v.Array? && i < |v.items| then FromProperty(v.items[i], way[1..])
        else if v.Text? && i < |v.text| && |way| == 1 then Some([v.text[i]])
        else None
  }

  // A way leads to a leaf.
  ghost predicate Leads(config: Value, prefix: string, leaf: Leaf, way: seq<Step>) {
    way != [] && FromObject(config, way) == Some(leaf.value) && leaf.name == prefix + WayName(way)
  }

  ghost predicate LeadsOn(value: Value, name: string, leaf: Leaf, way: seq<Step>) {
    FromProperty(value, way) == Some(leaf.value) && leaf.name == name + Suffix(way)
  }

  // ---------- The text of an array ----------

  lemma {:induction false} ListedAppend(items: seq<Value>)
    requires |items| > 1
    ensures Listed(items) == Listed(items[..|items| - 1]) + "," + TextOf(items[|items| - 1])
  {
    var n := |items| - 1;
    if n == 1 {
      assert items[1..] == [items[1]] && items[..1] == [items[0]];
    } else {
      ListedAppend(items[1..]);
      assert items[1..][..n - 1] == items[..n][1..];
    }
  }

  lemma {:induction false} JoinIsListed(items: seq<Value>)
    ensures Join(items) == Listed(items)
    decreases items
  {
    if items != [] {
      PrintedIsText(items[|items| - 1]);
      if |items| > 1 {
        JoinIsListed(items[..|items| - 1]);
        ListedAppend(items);
      }
    }
  }

  lemma {:induction false} PrintedIsText(v: Value)
    ensures Printed(v) == TextOf(v)
    decreases v
  {
    if v.Array? { JoinIsListed(v.items); }
  }

  // ---------- Every leaf has a way ----------

  lemma {:induction false} WayOfLeaf(order: KeyOrder, config: Value, prefix: string, leaf: Leaf)
    returns (way: seq<Step>)
    requires IsEnumeration(order) && leaf in Leaves(order, config, prefix)
    ensures Leads(config, prefix, leaf, way)
    decreases config, 2
  {
    match config
    case Table(fields) =>
      assert Enumerates(order(fields), fields);
      way := WayOfKeyLeaf(order, config, order(fields), prefix, leaf);
    case Array(items) => way := WayOfItemLeaf(order, config, |items|, prefix, leaf);
    case Text(s) =>
      var i :| 0 <= i < |s| && leaf == Leaf(prefix + Decimal(i), [s[i]]);
      way := [Item(i)];
      assert WayName(way) == Decimal(i);
  }

  lemma {:induction false} WayOfKeyLeaf(order: KeyOrder, config: Value, keys: seq<string>, prefix: string, leaf: Leaf)
    returns (way: seq<Step>)
    requires IsEnumeration(order) && config.Table?
    requires forall i :: 0 <= i < |keys| ==> keys[i] in config.fields
    requires leaf in LeavesOfKeys(order, config, keys, prefix)
    ensures Leads(config, prefix, leaf, way)
    decreases config, 1, |keys|
  {
    var key := keys[|keys| - 1];
    if leaf in LeavesOfKeys(order, config, keys[..|keys| - 1], prefix) {
      way := WayOfKeyLeaf(order, config, keys[..|keys| - 1], prefix, leaf);
    } else {
      var rest := WayOfPropertyLeaf(order, config.fields[key], prefix + Upper(key), leaf);
      way := [Key(key)] + rest;
      StepIsTaken(config, prefix, leaf, Key(key), rest);
    }
  }

  lemma {:induction false} WayOfItemLeaf(order: KeyOrder, config: Value, n: nat, prefix: string, leaf: Leaf)
    returns (way: seq<Step>)
    requires IsEnumeration(order) && config.Array? && n <= |config.items|
    requires leaf in LeavesOfItems(order, config, n, prefix)
    ensures Leads(config, prefix, leaf, way)
    decreases config, 1, n
  {
    if leaf in LeavesOfItems(order, config, n - 1, prefix) {
      way := WayOfItemLeaf(order, config, n - 1, prefix, leaf);
    } else {
      var rest := WayOfPropertyLeaf(order, config.items[n - 1], prefix + Decimal(n - 1), leaf);
      way := [Item(n - 1)] + rest;
      StepIsTaken(config, prefix, leaf, Item(n - 1), rest);
    }
  }

  // The property that a step leads to.
  function Property(config: Value, step: Step): Option<Value> {
    if config.Table? && step.Key? && step.key in config.fields then Some(config.fields[step.key])
    else if config.Array? && step.Item? && step.index < |config.items| then Some(config.items[step.index])
    else None
  }

  lemma StepIsTaken(config: Value, prefix: string, leaf: Leaf, step: Step, rest: seq<Step>)
    requires Property(config, step).Some?
    ensures Leads(config, prefix, leaf, [step] + rest) <==>
            LeadsOn(Property(config, step).value, prefix + StepName(step), leaf, rest)
  {
    var way := [step] + rest;
    assert way[0] == step && way[1..] == rest;
    PlusAssociates(prefix, StepName(step), Suffix(rest));
  }

  lemma {:induction false} WayOfPropertyLeaf(order: KeyOrder, value: Value, name: string, leaf: Leaf)
    returns (way: seq<Step>)
    requires IsEnumeration(order) && leaf in LeavesOfProperty(order, value, name)
    ensures LeadsOn(value, name, leaf, way)
    decreases value, 3
  {
    if value.Table? {
      way := WayOfLeaf(order, value, name + "_", leaf);
      NameGoesOn(name, way);
    } else if IsEntered(value) {
      way := WayOfObjectLeaf(order, value, |value.items|, name, leaf);
    } else {
      way := [];
      assert name + "" == name;
      if value.Array? { JoinIsListed(value.items); }
    }
  }

  lemma {:induction false} NameGoesOn(name: string, way: seq<Step>)
    requires way != []
    ensures name + "_" + WayName(way) == name + Suffix(way)
  {
    Regroup(name, "_", StepName(way[0]), Suffix(way[1..]));
  }

  lemma PlusAssociates(a: string, b: string, c: string)
    ensures a + (b + c) == a + b + c
  {
  }

  lemma Regroup(a: string, b: string, c: string, d: string)
    ensures a + b + (c + d) == a + (b + c + d) && a + b + c + d == a + (b + c + d)
  {
  }

  lemma {:induction false} WayOfObjectLeaf(order: KeyOrder, value: Value, n: nat, name: string, leaf: Leaf)
    returns (way: seq<Step>)
    requires IsEnumeration(order) && value.Array? && IsEntered(value) && n <= |value.items|
    requires leaf in LeavesOfObjects(order, value, n, name)
    ensures LeadsOn(value, name, leaf, way)
    decreases value, 2, n
  {
    if leaf in LeavesOfObjects(order, value, n - 1, name) {
      way := WayOfObjectLeaf(order, value, n - 1, name, leaf);
    } else {
      var rest := WayOfLeaf(order, value.items[n - 1], name + "_" + Decimal(n - 1) + "_", leaf);
      way := [Item(n - 1)] + rest;
      ItemIsTaken(name, n - 1, rest);
    }
  }

  lemma {:induction false} ItemIsTaken(name: string, i: nat, rest: seq<Step>)
    requires rest != []
    ensures ([Item(i)] + rest)[1..] == rest
    ensures name + "_" + Decimal(i) + "_" + WayName(rest) == name + Suffix([Item(i)] + rest)
  {
    var number, way := Decimal(i), [Item(i)] + rest;
    assert way[1..] == rest && way[0] == Item(i);
    NameGoesOn(name + "_" + number, rest);
    Regroup(name, "_", number, Suffix(rest));
    assert Suffix(way) == "_" + number + Suffix(rest);
  }

  // ---------- Every way has a leaf ----------

  lemma {:induction false} ItemContributes(order: KeyOrder, config: Value, n: nat, prefix: string, i: nat, leaf: Leaf)
    requires IsEnumeration(order) && config.Array? && i < n <= |config.items|
    requires leaf in LeavesOfProperty(order, config.items[i], prefix + Decimal(i))
    ensures leaf in LeavesOfItems(order, config, n, prefix)
  {
    if i < n - 1 {
      ItemContributes(order, config, n - 1, prefix, i, leaf);
    }
  }

  lemma {:induction false} ObjectContributes(order: KeyOrder, value: Value, n: nat, name: string, i: nat, leaf: Leaf)
    requires IsEnumeration(order) && value.Array? && i < n <= |value.items|
    requires leaf in Leaves(order, value.items[i], name + "_" + Decimal(i) + "_")
    ensures leaf in LeavesOfObjects(order, value, n, name)
  {
    if i < n - 1 {
      ObjectContributes(order, value, n - 1, name, i, leaf);
    }
  }

  lemma {:induction false} LeafOfWay(order: KeyOrder, config: Value, prefix: string, leaf: Leaf, way: seq<Step>)
    requires IsEnumeration(order) && Leads(config, prefix, leaf, way)
    ensures leaf in Leaves(order, config, prefix)
    decreases |way|, 0
  {
    var step, rest := way[0], way[1..];
    assert way == [step] + rest;
    if Property(config, step).Some? {
      StepIsTaken(config, prefix, leaf, step, rest);
      LeafOfPropertyWay(order, Property(config, step).value, prefix + StepName(step), leaf, rest);
      if step.Key? {
        assert Enumerates(order(config.fields), config.fields);
        KeyContributes(order, config, order(config.fields), prefix, step.key, leaf);
      } else {
        ItemContributes(order, config, |config.items|, prefix, step.index, leaf);
      }
    } else {
      assert Suffix(rest) == "";
      assert Leaves(order, config, prefix)[step.index] == leaf;
    }
  }

  lemma {:induction false} LeafOfPropertyWay(order: KeyOrder, value: Value, name: string, leaf: Leaf, way: seq<Step>)
    requires IsEnumeration(order) && LeadsOn(value, name, leaf, way)
    ensures leaf in LeavesOfProperty(order, value, name)
    decreases |way|, 1
  {
    if way == [] {
      assert leaf.name == name;
      if value.Array? { JoinIsListed(value.items); }
    } else if value.Table? {
      NameGoesOn(name, way);
      LeafOfWay(order, value, name + "_", leaf, way);
    } else {
      var i, rest := way[0].index, way[1..];
      assert FromObject(value.items[i], rest) == Some(leaf.value) && rest != [];
      assert way == [Item(i)] + rest;
      ItemIsTaken(name, i, rest);
      LeafOfWay(order, value.items[i], name + "_" + Decimal(i) + "_", leaf, rest);
      ObjectContributes(order, value, |value.items|, name, i, leaf);
    }
  }

  /** The leaves of a configuration are exactly the ends of the ways through it, each under the prefix and the names of
      its steps joined by underscores. */
  lemma {:induction false} LeavesAreEndsOfWays(order: KeyOrder, config: Value, prefix: string, leaf: Leaf)
    requires IsEnumeration(order)
    ensures leaf in Leaves(order, config, prefix) <==> exists way :: Leads(config, prefix, leaf, way)
  {
    if leaf in Leaves(order, config, prefix) {
      var way := WayOfLeaf(order, config, prefix, leaf);
    }
    if way :| Leads(config, prefix, leaf, way) {
      LeafOfWay(order, config, prefix, leaf, way);
    }
  }

  // ---------- Names in capitals ----------

  lemma {:induction false} SuffixHasNoLower(way: seq<Step>)
    ensures HasNoLower(Suffix(way))
  {
    if way != [] {
      SuffixHasNoLower(way[1..]);
    }
  }

  lemma WayNameHasNoLower(prefix: string, way: seq<Step>)
    requires way != [] && HasNoLower(prefix)
    ensures HasNoLower(prefix + WayName(way))
  {
    SuffixHasNoLower(way[1..]);
  }

  // ---------- The variables ----------

  // The variables are named after the ways through the configuration, and each has the value at the end of one of them.
  ghost predicate AreVariablesOf(variables: map<string, string>, config: Value, prefix: string) {
    && (forall name :: name in variables ==> exists way :: Leads(config, prefix, Leaf(name, variables[name]), way))
    && (forall way :: way != [] && FromObject(config, way).Some? ==> prefix + WayName(way) in variables)
  }

  lemma {:induction false} VariableIsLeaf(leaves: seq<Leaf>, name: string)
    requires name in LastWins(leaves)
    ensures Leaf(name, LastWins(leaves)[name]) in leaves
  {
    var init, last := leaves[..|leaves| - 1], leaves[|leaves| - 1];
    if last.name != name {
      VariableIsLeaf(init, name);
    }
  }

  /** The variables of a configuration are named after the ways through it, in capitals. */
  lemma {:induction false} LeavesGiveVariables(order: KeyOrder, config: Value, prefix: string)
    requires IsEnumeration(order)
    ensures AreVariablesOf(LastWins(Leaves(order, config, prefix)), config, prefix)
    ensures HasNoLower(prefix) ==>
              forall name :: name in LastWins(Leaves(order, config, prefix)) ==> HasNoLower(name)
  {
    var leaves := Leaves(order, config, prefix);
    forall name | name in LastWins(leaves)
      ensures exists way :: Leads(config, prefix, Leaf(name, LastWins(leaves)[name]), way)
      ensures HasNoLower(prefix) ==> HasNoLower(name)
    {
      VariableIsLeaf(leaves, name);
      var way := WayOfLeaf(order, config, prefix, Leaf(name, LastWins(leaves)[name]));
      if HasNoLower(prefix) { WayNameHasNoLower(prefix, way); }
    }
    forall way | way != [] && FromObject(config, way).Some? ensures prefix + WayName(way) in LastWins(leaves) {
      var leaf := Leaf(prefix + WayName(way), FromObject(config, way).value);
      LeafOfWay(order, config, prefix, leaf, way);
      LastWinsKeys(leaves);
    }
  }
}
