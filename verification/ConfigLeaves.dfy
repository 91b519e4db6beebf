/**
 The leaves of a configuration, which become environment variables (infrastructure/via/src/config.ts:65-99). The order
 in which the engine enumerates the keys of an object is a parameter.
 */
module ConfigLeaves {
  import opened FiniteSets
  import opened ConfigMerge
  import opened ObjectKeys

  type KeyOrder = map<string, Value> -> seq<string>

  // The enumeration lists every key of an object exactly once.
  ghost predicate IsEnumeration(order: KeyOrder) {
    forall fields :: Enumerates(order(fields), fields)
  }

  ghost predicate Enumerates(keys: seq<string>, fields: map<string, Value>) {
    && (forall i :: 0 <= i < |keys| ==> keys[i] in fields)
    && (forall key :: key in fields ==> key in keys)
    && (forall i, j :: 0 <= i < j < |keys| ==> keys[i] != keys[j])
  }

  datatype Leaf = Leaf(name: string, value: string)

  // `toUpperCase`, on the letters of ASCII.
  function Upper(s: string): (r: string)
    ensures |r| == |s| && HasNoLower(r)
    ensures forall i :: 0 <= i < |s| && 'a' <= s[i] <= 'z' ==> s[i] as int - r[i] as int == 32
    ensures forall i :: 0 <= i < |s| && !('a' <= s[i] <= 'z') ==> r[i] == s[i]
  {
    seq(|s|, i requires 0 <= i < |s| =>
      if 'a' <= s[i] <= 'z' then (s[i] as int - 'a' as int + 'A' as int) as char else s[i])
  }

  // No letter from `a` to `z`.
  predicate HasNoLower(s: string) {
    forall i :: 0 <= i < |s| ==> s[i] < 'a' || 'z' < s[i]
  }

  // `typeof v === 'object'`
  predicate IsObject(v: Value) {
    v.Array? || v.Table?
  }

  // The elements joined by commas, as `Array.prototype.join` prints them.
  function Join(items: seq<Value>): string {
    if items == [] then ""
    else if |items| == 1 then Printed(items[0])
    else Join(items[..|items| - 1]) + "," + Printed(items[|items| - 1])
  }

  function Printed(v: Value): string {
    match v
    case Text(s) => s
    case Scalar(s) => s
    case Array(items) => Join(items)
    case Table(_) => "[object Object]"
  }

  // ---------- The leaves of a configuration ----------

  // The leaves below `config`, whose name is `prefix` so far.
  function Leaves(order: KeyOrder, config: Value, prefix: string): seq<Leaf>
    requires IsEnumeration(order)
    decreases config, 2
  {
    match config
    case Table(fields) => LeavesOfKeys(order, config, order(fields), prefix)
    case Array(items) => LeavesOfItems(order, config, |items|, prefix)
    case Text(s) => seq(|s|, i requires 0 <= i < |s| => Leaf(prefix + Decimal(i), [s[i]]))
    case Scalar(_) => []
  }

  function LeavesOfKeys(order: KeyOrder, config: Value, keys: seq<string>, prefix: string): seq<Leaf>
    requires IsEnumeration(order) && config.Table?
    requires forall i :: 0 <= i < |keys| ==> keys[i] in config.fields
    decreases config, 1, |keys|
  {
    if keys == [] then []
    else
      var key := keys[|keys| - 1];
      LeavesOfKeys(order, config, keys[..|keys| - 1], prefix)
        + LeavesOfProperty(order, config.fields[key], prefix + Upper(key))
  }

  // Enumerating an array enumerates its indices.
  function LeavesOfItems(order: KeyOrder, config: Value, n: nat, prefix: string): seq<Leaf>
    requires IsEnumeration(order) && config.Array? && n <= |config.items|
    decreases config, 1, n
  {
    if n == 0 then []
    else
      LeavesOfItems(order, config, n - 1, prefix)
        + LeavesOfProperty(order, config.items[n - 1], prefix + Decimal(n - 1))
  }

  // The leaves of one property.
  function LeavesOfProperty(order: KeyOrder, value: Value, name: string): seq<Leaf>
    requires IsEnumeration(order)
    decreases value, 3
  {
    match value
    case Table(_) => Leaves(order, value, name + "_")
    case Array(items) =>
      if items != [] && IsObject(items[0]) then LeavesOfObjects(order, value, |items|, name)
      else [Leaf(name, "\"" + Join(items) + "\"")]
    case Text(s) => [Leaf(name, s)]
    case Scalar(s) => [Leaf(name, s)]
  }

  function LeavesOfObjects(order: KeyOrder, value: Value, n: nat, name: string): seq<Leaf>
    requires IsEnumeration(order) && value.Array? && n <= |value.items|
    decreases value, 2, n
  {
    if n == 0 then []
    else
      LeavesOfObjects(order, value, n - 1, name)
        + Leaves(order, value.items[n - 1], name + "_" + Decimal(n - 1) + "_")
  }

  // ---------- The map of variables ----------

  // Each name with the value of its last leaf.
  function LastWins(leaves: seq<Leaf>): map<string, string> {
    if leaves == [] then map[]
    else LastWins(leaves[..|leaves| - 1])[leaves[|leaves| - 1].name := leaves[|leaves| - 1].value]
  }

  lemma {:induction false} LastWinsAppend(xs: seq<Leaf>, ys: seq<Leaf>)
    ensures LastWins(xs + ys) == LastWins(xs) + LastWins(ys)
  {
    if ys == [] {
      assert xs + ys == xs;
    } else {
      LastWinsAppend(xs, ys[..|ys| - 1]);
      assert (xs + ys)[..|xs + ys| - 1] == xs + ys[..|ys| - 1];
      UpdateLast(LastWins(xs), LastWins(ys[..|ys| - 1]), ys[|ys| - 1]);
    }
  }

  lemma UpdateLast(a: map<string, string>, b: map<string, string>, leaf: Leaf)
    ensures (a + b)[leaf.name := leaf.value] == a + b[leaf.name := leaf.value]
  {
  }

  lemma LastWinsOne(leaf: Leaf)
    ensures LastWins([leaf]) == map[leaf.name := leaf.value]
  {
    assert [leaf][..0] == [];
  }

  ghost predicate DistinctNames(leaves: seq<Leaf>) {
    forall i, j :: 0 <= i < j < |leaves| ==> leaves[i].name != leaves[j].name
  }

  lemma {:induction false} LastWinsKeys(leaves: seq<Leaf>)
    ensures forall name :: name in LastWins(leaves) <==> exists i :: 0 <= i < |leaves| && leaves[i].name == name
    ensures |LastWins(leaves)| <= |leaves|
  {
    if leaves != [] {
      var init, last := leaves[..|leaves| - 1], leaves[|leaves| - 1];
      LastWinsKeys(init);
      assert forall i :: 0 <= i < |init| ==> leaves[i] == init[i];
    }
  }

  /** No variable is lost if and only if the joined names of all leaves are distinct. */
  lemma {:induction false} NothingLostIff(leaves: seq<Leaf>)
    ensures |LastWins(leaves)| == |leaves| <==> DistinctNames(leaves)
  {
    if leaves != [] {
      var init, last := leaves[..|leaves| - 1], leaves[|leaves| - 1];
      NothingLostIff(init);
      LastWinsKeys(init);
      assert forall i :: 0 <= i < |init| ==> leaves[i] == init[i];
      var m := LastWins(init);
      if last.name in m {
        assert m[last.name := last.value].Keys == m.Keys;
        assert |LastWins(leaves)| == |m|;
      } else {
        assert |LastWins(leaves)| == |m| + 1;
        assert DistinctNames(leaves) <==> DistinctNames(init);
      }
    }
  }

  // A name under which all leaves have the same value gets this value.
  lemma {:induction false} SingleValueIsKept(leaves: seq<Leaf>, leaf: Leaf)
    requires leaf in leaves && forall other :: other in leaves && other.name == leaf.name ==> other == leaf
    ensures leaf.name in LastWins(leaves) && LastWins(leaves)[leaf.name] == leaf.value
  {
    var init, last := leaves[..|leaves| - 1], leaves[|leaves| - 1];
    assert last in leaves && forall other :: other in init ==> other in leaves;
    if last.name != leaf.name {
      assert leaf in init;
      SingleValueIsKept(init, leaf);
    }
  }

  /** A variable has the value of the last leaf of its name; so with distinct names the variables are exactly the
      leaves. */
  lemma {:induction false} LastLeafIsKept(leaves: seq<Leaf>, i: nat)
    requires i < |leaves| && forall j :: i < j < |leaves| ==> leaves[j].name != leaves[i].name
    ensures leaves[i].name in LastWins(leaves) && LastWins(leaves)[leaves[i].name] == leaves[i].value
  {
    if i < |leaves| - 1 {
      LastLeafIsKept(leaves[..|leaves| - 1], i);
    }
  }

  lemma {:induction false} LeavesOfMoreKeys(order: KeyOrder, config: Value, keys: seq<string>, more: seq<string>,
                                            prefix: string)
    requires IsEnumeration(order) && config.Table?
    requires forall i :: 0 <= i < |keys| ==> keys[i] in config.fields
    requires forall i :: 0 <= i < |more| ==> more[i] in config.fields
    ensures LeavesOfKeys(order, config, keys + more, prefix)
            == LeavesOfKeys(order, config, keys, prefix) + LeavesOfKeys(order, config, more, prefix)
  {
    if more == [] {
      assert keys + more == keys;
    } else {
      var init, all := more[..|more| - 1], keys + more;
      LeavesOfMoreKeys(order, config, keys, init, prefix);
      assert all[..|all| - 1] == keys + init && all[|all| - 1] == more[|more| - 1];
    }
  }

  /** Where properties of a table come to the same name, those that are enumerated later override the earlier ones. */
  lemma LaterKeysOverride(order: KeyOrder, config: Value, n: nat, prefix: string)
    requires IsEnumeration(order) && config.Table? && n <= |order(config.fields)|
    ensures Enumerates(order(config.fields), config.fields)
    ensures LastWins(Leaves(order, config, prefix))
            == LastWins(LeavesOfKeys(order, config, order(config.fields)[..n], prefix))
               + LastWins(LeavesOfKeys(order, config, order(config.fields)[n..], prefix))
  {
    var keys := order(config.fields);
    assert Enumerates(keys, config.fields) && keys == keys[..n] + keys[n..];
    LeavesOfMoreKeys(order, config, keys[..n], keys[n..], prefix);
    LastWinsAppend(LeavesOfKeys(order, config, keys[..n], prefix), LeavesOfKeys(order, config, keys[n..], prefix));
  }

  // ---------- Names ----------

  // The name of the variable for a path of keys.
  function NameOf(path: seq<string>): string
    requires path != []
  {
    if |path| == 1 then Upper(path[0]) else Upper(path[0]) + "_" + NameOf(path[1..])
  }

  // A setting that becomes one variable: anything but a table or a list of objects.
  predicate IsPlain(v: Value) {
    !v.Table? && (v.Array? ==> v.items == [] || !IsObject(v.items[0]))
  }

  function Shown(v: Value): string
    requires IsPlain(v)
  {
    if v.Array? then "\"" + Join(v.items) + "\"" else v.text
  }

  lemma {:induction false} KeyContributes(order: KeyOrder, config: Value, keys: seq<string>, prefix: string,
                                          key: string, leaf: Leaf)
    requires IsEnumeration(order) && config.Table?
    requires forall i :: 0 <= i < |keys| ==> keys[i] in config.fields
    requires key in keys && leaf in LeavesOfProperty(order, config.fields[key], prefix + Upper(key))
    ensures leaf in LeavesOfKeys(order, config, keys, prefix)
  {
    if key != keys[|keys| - 1] {
      KeyContributes(order, config, keys[..|keys| - 1], prefix, key, leaf);
    }
  }

  /** Every plain setting of a configuration becomes a leaf under the name that joins its path. */
  lemma {:induction false} SettingIsLeaf(order: KeyOrder, config: Value, prefix: string, path: seq<string>)
    requires IsEnumeration(order) && config.Table? && path != []
    requires At(config, path).Set? && IsPlain(At(config, path).value)
    ensures Leaf(prefix + NameOf(path), Shown(At(config, path).value)) in Leaves(order, config, prefix)
    decreases |path|
  {
    var key := path[0];
    var value := config.fields[key];
    var leaf := Leaf(prefix + NameOf(path), Shown(At(config, path).value));
    assert Enumerates(order(config.fields), config.fields);
    if value.Table? {
      SettingIsLeaf(order, value, prefix + Upper(key) + "_", path[1..]);
      assert prefix + NameOf(path) == prefix + Upper(key) + "_" + NameOf(path[1..]);
    } else {
      assert |path| == 1;
      assert leaf in LeavesOfProperty(order, value, prefix + Upper(key));
    }
    KeyContributes(order, config, order(config.fields), prefix, key, leaf);
  }

  // ---------- Orders exist ----------

  // There is an order that enumerates the keys of every object.
  lemma EnumerationExists()
    ensures exists order :: IsEnumeration(order)
  {
    ghost var order: KeyOrder := (fields: map<string, Value>) => AnyOrder(fields.Keys);
    forall fields ensures Enumerates(order(fields), fields) {
      AnyOrderEnumerates(fields.Keys);
      assert forall i :: 0 <= i < |order(fields)| ==> order(fields)[i] in order(fields);
    }
    assert IsEnumeration(order);
  }
}
