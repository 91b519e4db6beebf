/**
 Merging of configuration trees as `deepExtend` does it: tables are merged key by key, and anything else is
 replaced by the later value (infrastructure/via/src/config.ts:47-51 and 62).
 */
module ConfigMerge {

  // A parsed TOML or dotenv value. Scalars are numbers and booleans, in their printed form.
  datatype Value =
    | Text(text: string)
    | Scalar(text: string)
    | Array(items: seq<Value>)
    | Table(fields: map<string, Value>)

  const EMPTY_TABLE: Value := Table(map[])

  // `deepExtend(a, b)`, where `a` already holds earlier values.
  function Merge(a: Value, b: Value): Value {
    if a.Table? && b.Table? then
      Table(map key | key in a.fields.Keys + b.fields.Keys ::
              if key in a.fields && key in b.fields then Merge(a.fields[key], b.fields[key])
              else if key in b.fields then b.fields[key]
              else a.fields[key])
    else b
  }

  // `deepExtend({}, ...values)`
  function MergeAll(values: seq<Value>): Value {
    if values == [] then EMPTY_TABLE
    else Merge(MergeAll(values[..|values| - 1]), values[|values| - 1])
  }

  lemma {:induction false} MergeTables(a: Value, b: Value)
    requires a.Table? && b.Table?
    ensures Merge(a, b).Table? && Merge(a, b).fields.Keys == a.fields.Keys + b.fields.Keys
    ensures Merge(EMPTY_TABLE, b) == b && Merge(a, EMPTY_TABLE) == a
  {
    assert Merge(EMPTY_TABLE, b).fields == b.fields;
    assert Merge(a, EMPTY_TABLE).fields == a.fields;
  }

  // ---------- When merging is associative ----------

  // Every key of `a` is a key of `c`, through all tables that they share.
  predicate Covered(a: Value, c: Value)
    requires a.Table? && c.Table?
  {
    forall key :: key in a.fields ==>
      && key in c.fields
      && (a.fields[key].Table? && c.fields[key].Table? ==> Covered(a.fields[key], c.fields[key]))
  }

  /** A later table hides an earlier one completely exactly if it covers all its keys. */
  lemma {:induction false} CoveredIffHidden(a: Value, c: Value)
    requires a.Table? && c.Table?
    ensures Merge(a, c) == c <==> Covered(a, c)
  {
    forall key | key in a.fields && key in c.fields && a.fields[key].Table? && c.fields[key].Table?
      ensures Merge(a.fields[key], c.fields[key]) == c.fields[key] <==> Covered(a.fields[key], c.fields[key])
    {
      CoveredIffHidden(a.fields[key], c.fields[key]);
    }
    var m := Merge(a, c);
    if Covered(a, c) {
      MergeTables(a, c);
      forall key | key in c.fields ensures m.fields[key] == c.fields[key] {
        if key in a.fields { assert Merge(a.fields[key], c.fields[key]) == c.fields[key]; }
      }
      assert m.fields == c.fields;
    } else {
      var key :| key in a.fields && !(key in c.fields
        && (a.fields[key].Table? && c.fields[key].Table? ==> Covered(a.fields[key], c.fields[key])));
      assert key in m.fields;
    }
  }

  // No value that is not a table stands between two tables of which the later one leaves out a key.
  predicate Associates(a: Value, b: Value, c: Value) {
    if !c.Table? then true
    else if !b.Table? then a.Table? ==> Covered(a, c)
    else if !a.Table? then true
    else forall key :: key in a.fields && key in b.fields && key in c.fields ==>
           Associates(a.fields[key], b.fields[key], c.fields[key])
  }

  /** The order of merging three values matters exactly if `Associates` fails. */
  lemma {:induction false} MergeIsAssociativeIff(a: Value, b: Value, c: Value)
    ensures Merge(Merge(a, b), c) == Merge(a, Merge(b, c)) <==> Associates(a, b, c)
  {
    if c.Table? && !b.Table? && a.Table? {
      CoveredIffHidden(a, c);
    } else if c.Table? && b.Table? && a.Table? {
      var l, r := Merge(Merge(a, b), c), Merge(a, Merge(b, c));
      MergeTables(a, b);
      MergeTables(b, c);
      MergeTables(Merge(a, b), c);
      MergeTables(a, Merge(b, c));
      forall key | key in l.fields
        ensures l.fields[key] == r.fields[key] <==>
                  (key in a.fields && key in b.fields && key in c.fields ==>
                     Associates(a.fields[key], b.fields[key], c.fields[key]))
      {
        if key in a.fields && key in b.fields && key in c.fields {
          MergeIsAssociativeIff(a.fields[key], b.fields[key], c.fields[key]);
        }
      }
      if Associates(a, b, c) {
        assert l.fields == r.fields;
      } else {
        var key :| key in a.fields && key in b.fields && key in c.fields &&
          !Associates(a.fields[key], b.fields[key], c.fields[key]);
        assert l.fields[key] != r.fields[key];
      }
    }
  }

  /** A file that turns a table into a plain value makes the result depend on how the merge is nested. */
  lemma MergeIsNotAssociative()
    ensures var a := Table(map["k" := Table(map["x" := Text("1")])]);
            var b := Table(map["k" := Text("2")]);
            var c := Table(map["k" := EMPTY_TABLE]);
            Merge(Merge(a, b), c) != Merge(a, Merge(b, c))
  {
    var a := Table(map["k" := Table(map["x" := Text("1")])]);
    var b := Table(map["k" := Text("2")]);
    var c := Table(map["k" := EMPTY_TABLE]);
    assert !Covered(a.fields["k"], c.fields["k"]) by {
      assert "x" in a.fields["k"].fields;
    }
    assert !Associates(a.fields["k"], b.fields["k"], c.fields["k"]);
    assert "k" in a.fields;
    assert !Associates(a, b, c);
    MergeIsAssociativeIff(a, b, c);
  }

  // ---------- Values that agree on which keys are tables ----------

  predicate Agree(a: Value, b: Value) {
    && (a.Table? <==> b.Table?)
    && (a.Table? ==> forall key :: key in a.fields && key in b.fields ==> Agree(a.fields[key], b.fields[key]))
  }

  lemma {:induction false} AgreementAssociates(a: Value, b: Value, c: Value)
    requires Agree(b, c)
    ensures Associates(a, b, c)
  {
    if a.Table? && b.Table? && c.Table? {
      forall key | key in a.fields && key in b.fields && key in c.fields
        ensures Associates(a.fields[key], b.fields[key], c.fields[key])
      {
        AgreementAssociates(a.fields[key], b.fields[key], c.fields[key]);
      }
    }
  }

  lemma {:induction false} MergeAgrees(a: Value, b: Value, c: Value)
    requires Agree(a, c) && Agree(b, c)
    ensures Agree(Merge(a, b), c)
  {
    if c.Table? {
      var m := Merge(a, b);
      forall key | key in m.fields && key in c.fields ensures Agree(m.fields[key], c.fields[key]) {
        if key in a.fields && key in b.fields {
          MergeAgrees(a.fields[key], b.fields[key], c.fields[key]);
        }
      }
    }
  }

  // Every later value agrees with every earlier one; all are tables.
  ghost predicate AllAgree(values: seq<Value>) {
    && (forall i :: 0 <= i < |values| ==> values[i].Table?)
    && (forall i, j :: 0 <= i < j < |values| ==> Agree(values[i], values[j]))
  }

  lemma {:induction false} MergeAllAgrees(values: seq<Value>, c: Value)
    requires c.Table? && forall i :: 0 <= i < |values| ==> Agree(values[i], c)
    ensures Agree(MergeAll(values), c)
  {
    if values != [] {
      MergeAllAgrees(values[..|values| - 1], c);
      MergeAgrees(MergeAll(values[..|values| - 1]), values[|values| - 1], c);
    }
  }

  lemma {:induction false} MergeAllIsTable(values: seq<Value>)
    requires forall i :: 0 <= i < |values| ==> values[i].Table?
    ensures MergeAll(values).Table?
  {
    if values != [] {
      MergeAllIsTable(values[..|values| - 1]);
    }
  }

  /** Merging two lists one after the other is merging their results, if the second list agrees with itself. */
  lemma {:induction false} MergeAllAppend(xs: seq<Value>, ys: seq<Value>)
    requires forall i :: 0 <= i < |xs| ==> xs[i].Table?
    requires AllAgree(ys)
    ensures MergeAll(xs + ys) == Merge(MergeAll(xs), MergeAll(ys))
  {
    MergeAllIsTable(xs);
    if ys == [] {
      MergeTables(MergeAll(xs), EMPTY_TABLE);
      assert xs + ys == xs;
    } else {
      var init, last := ys[..|ys| - 1], ys[|ys| - 1];
      MergeAllAppend(xs, init);
      assert (xs + ys)[..|xs + ys| - 1] == xs + init;
      MergeAllAgrees(init, last);
      AgreementAssociates(MergeAll(xs), MergeAll(init), last);
      MergeIsAssociativeIff(MergeAll(xs), MergeAll(init), last);
    }
  }

  // ---------- Where a setting comes from ----------

  datatype Setting = Unset | Set(value: Value)

  // The setting at a path of keys: a value that is not a table.
  function At(v: Value, path: seq<string>): Setting {
    if path == [] then (if v.Table? then Unset else Set(v))
    else if v.Table? && path[0] in v.fields then At(v.fields[path[0]], path[1..])
    else Unset
  }

  lemma {:induction false} MergeOverrides(a: Value, b: Value, path: seq<string>)
    requires Agree(a, b)
    ensures At(Merge(a, b), path) == if At(b, path).Set? then At(b, path) else At(a, path)
  {
    if path != [] && a.Table? && path[0] in a.fields && path[0] in b.fields {
      MergeOverrides(a.fields[path[0]], b.fields[path[0]], path[1..]);
    }
  }

  // The setting of the last value in the list that has one.
  function LastAt(values: seq<Value>, path: seq<string>): Setting {
    if values == [] then Unset
    else if At(values[|values| - 1], path).Set? then At(values[|values| - 1], path)
    else LastAt(values[..|values| - 1], path)
  }

  /** In a merge of values that agree, each setting is the one of the last value that sets it. */
  lemma {:induction false} LastSettingWins(values: seq<Value>, path: seq<string>)
    requires AllAgree(values)
    ensures At(MergeAll(values), path) == LastAt(values, path)
  {
    if values != [] {
      var init, last := values[..|values| - 1], values[|values| - 1];
      LastSettingWins(init, path);
      MergeAllAgrees(init, last);
      MergeOverrides(MergeAll(init), last, path);
    }
  }
}
