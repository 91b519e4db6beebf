/**
 Merging along an import tree, compared with one flat merge of all files (infrastructure/via/src/config.ts:35-63).
 */
module ConfigNesting {
  import opened ConfigMerge

  // What was merged: the own content of a file, or a list of things merged in order. A file with imports is the list
  // of its imports followed by its own content.
  datatype Tree = Leaf(own: Value) | Node(children: seq<Tree>)

  function Append(tree: Tree, child: Tree): Tree {
    if tree.Node? then Node(tree.children + [child]) else Node([tree, child])
  }

  // The merge as the loader nests it.
  function Nested(tree: Tree): Value
    decreases tree
  {
    match tree
    case Leaf(own) => own
    case Node(children) => NestedAll(children)
  }

  function NestedAll(trees: seq<Tree>): Value
    decreases trees
  {
    if trees == [] then EMPTY_TABLE
    else Merge(NestedAll(trees[..|trees| - 1]), Nested(trees[|trees| - 1]))
  }

  // The files in the order in which the loader finishes them: depth first, imports before the file.
  function Files(tree: Tree): seq<Value>
    decreases tree
  {
    match tree
    case Leaf(own) => [own]
    case Node(children) => FilesOfAll(children)
  }

  function FilesOfAll(trees: seq<Tree>): seq<Value>
    decreases trees
  {
    if trees == [] then [] else FilesOfAll(trees[..|trees| - 1]) + Files(trees[|trees| - 1])
  }

  ghost predicate AllTables(values: seq<Value>) {
    forall i :: 0 <= i < |values| ==> values[i].Table?
  }

  // ---------- What a value does to a path ----------

  // `Blocks`: a plain value stands where the path needs a table. `Opens`: a table stands at the path itself.
  datatype Effect = Keeps | Blocks | Opens | Sets(value: Value)

  function EffectOf(v: Value, path: seq<string>): Effect {
    if path == [] then (if v.Table? then Opens else Sets(v))
    else if !v.Table? then Blocks
    else if path[0] !in v.fields then Keeps
    else EffectOf(v.fields[path[0]], path[1..])
  }

  predicate Speaks(v: Value, path: seq<string>) {
    !EffectOf(v, path).Keeps?
  }

  ghost predicate SomeSpeaks(values: seq<Value>, path: seq<string>) {
    exists i :: 0 <= i < |values| && Speaks(values[i], path)
  }

  lemma {:induction false} AtIsEffect(v: Value, path: seq<string>)
    ensures At(v, path) == if EffectOf(v, path).Sets? then Set(EffectOf(v, path).value) else Unset
  {
    if path != [] && v.Table? && path[0] in v.fields {
      AtIsEffect(v.fields[path[0]], path[1..]);
    }
  }

  // A plain value of `a` on the way to the path is a table in `b`.
  predicate Reopens(a: Value, b: Value, path: seq<string>) {
    && path != [] && b.Table?
    && (!a.Table? ||
        (path[0] in a.fields && path[0] in b.fields && Reopens(a.fields[path[0]], b.fields[path[0]], path[1..])))
  }

  // The one case in which a merge forgets: a silent table in place of a plain value.
  lemma {:induction false} MergeEffect(a: Value, b: Value, path: seq<string>)
    ensures EffectOf(Merge(a, b), path) ==
            if Speaks(b, path) then EffectOf(b, path) else if Reopens(a, b, path) then Keeps else EffectOf(a, path)
  {
    if a.Table? && b.Table? && path != [] && path[0] in a.fields && path[0] in b.fields {
      MergeEffect(a.fields[path[0]], b.fields[path[0]], path[1..]);
    }
  }

  lemma {:induction false} ReopenedIsBlocked(a: Value, b: Value, path: seq<string>)
    requires Reopens(a, b, path) && !Speaks(b, path)
    ensures EffectOf(a, path) == Blocks
  {
    if a.Table? {
      ReopenedIsBlocked(a.fields[path[0]], b.fields[path[0]], path[1..]);
    }
  }

  /** A merge has at a path the setting of the later value, if that one speaks about the path, and otherwise the
      setting of the earlier one; for all values, whether they agree or not. */
  lemma {:induction false} MergeAt(a: Value, b: Value, path: seq<string>)
    ensures At(Merge(a, b), path) == if Speaks(b, path) then At(b, path) else At(a, path)
  {
    AtIsEffect(a, path);
    AtIsEffect(b, path);
    AtIsEffect(Merge(a, b), path);
    MergeEffect(a, b, path);
    if !Speaks(b, path) && Reopens(a, b, path) {
      ReopenedIsBlocked(a, b, path);
    }
  }

  // The setting of the last value that speaks about a path.
  function Decided(values: seq<Value>, path: seq<string>): Setting {
    if values == [] then Unset
    else if Speaks(values[|values| - 1], path) then At(values[|values| - 1], path)
    else Decided(values[..|values| - 1], path)
  }

  /** In a flat merge the last value that speaks about a path decides its setting. */
  lemma {:induction false} FlatMergeDecides(values: seq<Value>, path: seq<string>)
    ensures At(MergeAll(values), path) == Decided(values, path)
  {
    if values != [] {
      FlatMergeDecides(values[..|values| - 1], path);
      MergeAt(MergeAll(values[..|values| - 1]), values[|values| - 1], path);
    }
  }

  lemma {:induction false} DecidedAppend(xs: seq<Value>, ys: seq<Value>, path: seq<string>)
    ensures Decided(xs + ys, path) == if SomeSpeaks(ys, path) then Decided(ys, path) else Decided(xs, path)
    ensures SomeSpeaks(xs + ys, path) <==> SomeSpeaks(xs, path) || SomeSpeaks(ys, path)
  {
    var all := xs + ys;
    assert forall i :: 0 <= i < |xs| ==> all[i] == xs[i];
    assert forall i :: 0 <= i < |ys| ==> all[|xs| + i] == ys[i];
    if ys == [] {
      assert all == xs;
    } else {
      var init, last := ys[..|ys| - 1], ys[|ys| - 1];
      DecidedAppend(xs, init, path);
      assert all[..|all| - 1] == xs + init;
      assert SomeSpeaks(ys, path) <==> SomeSpeaks(init, path) || Speaks(last, path) by {
        assert ys == init + [last];
        assert forall i :: 0 <= i < |init| ==> ys[i] == init[i];
      }
    }
  }

  // ---------- How far a value follows a path ----------

  // `Missing(d)`: tables up to key `d` of the path, which is missing. `Plain(d)`: a plain value after `d` keys.
  // `Branch`: a table at the path itself.
  datatype Stop = Missing(depth: nat) | Plain(depth: nat) | Branch

  function StopOf(v: Value, path: seq<string>): Stop {
    if path == [] then (if v.Table? then Branch else Plain(0))
    else if !v.Table? then Plain(0)
    else if path[0] !in v.fields then Missing(0)
    else Deeper(StopOf(v.fields[path[0]], path[1..]))
  }

  function Deeper(stop: Stop): Stop {
    match stop
    case Missing(d) => Missing(d + 1)
    case Plain(d) => Plain(d + 1)
    case Branch => Branch
  }

  // Where a merge stops, from where its two parts do. A plain value is forgotten exactly if the later part has a table
  // in its place and says nothing about the path.
  function Over(earlier: Stop, later: Stop): Stop {
    match later
    case Missing(d) =>
      (match earlier
       case Missing(e) => Missing(if d >= e then d else e)
       case Plain(e) => if e <= d then Missing(d) else Plain(e)
       case Branch => Branch)
    case _ => later
  }

  lemma {:induction false} MergeStops(a: Value, b: Value, path: seq<string>)
    ensures StopOf(Merge(a, b), path) == Over(StopOf(a, path), StopOf(b, path))
  {
    if a.Table? && b.Table? && path != [] && path[0] in a.fields && path[0] in b.fields {
      MergeStops(a.fields[path[0]], b.fields[path[0]], path[1..]);
    }
  }

  lemma {:induction false} StopIsEffect(v: Value, path: seq<string>)
    ensures StopOf(v, path).Missing? <==> !Speaks(v, path)
    ensures StopOf(v, path) == Plain(|path|) <==> At(v, path).Set?
    ensures StopOf(v, path).Plain? ==> StopOf(v, path).depth <= |path|
  {
    if path != [] && v.Table? && path[0] in v.fields {
      StopIsEffect(v.fields[path[0]], path[1..]);
    }
  }

  // Where the files of an import stop, put together in the order of the merges.
  function TreeStop(tree: Tree, path: seq<string>): Stop
    decreases tree
  {
    match tree
    case Leaf(own) => StopOf(own, path)
    case Node(children) => ListStop(children, path)
  }

  function ListStop(trees: seq<Tree>, path: seq<string>): Stop
    decreases trees
  {
    if trees == [] then Missing(0)
    else Over(ListStop(trees[..|trees| - 1], path), TreeStop(trees[|trees| - 1], path))
  }

  lemma {:induction false} NestedStops(tree: Tree, path: seq<string>)
    requires path != []
    ensures StopOf(Nested(tree), path) == TreeStop(tree, path)
    decreases tree
  {
    match tree
    case Leaf(_) =>
    case Node(children) => NestedAllStops(children, path);
  }

  lemma {:induction false} NestedAllStops(trees: seq<Tree>, path: seq<string>)
    requires path != []
    ensures StopOf(NestedAll(trees), path) == ListStop(trees, path)
    decreases trees
  {
    if trees != [] {
      NestedAllStops(trees[..|trees| - 1], path);
      NestedStops(trees[|trees| - 1], path);
      MergeStops(NestedAll(trees[..|trees| - 1]), Nested(trees[|trees| - 1]), path);
    }
  }

  // ---------- When nesting matters ----------

  ghost predicate AllMissing(files: seq<Value>, path: seq<string>) {
    forall i :: 0 <= i < |files| ==> StopOf(files[i], path).Missing?
  }

  // A setting shows through an import whose files together lack the path, although one of them alone does not. All of
  // this can be told from where each file stops on the path.
  ghost predicate ShowsThrough(tree: Tree, path: seq<string>)
    decreases tree
  {
    tree.Node? && ShowsThroughSome(tree.children, path)
  }

  ghost predicate ShowsThroughSome(trees: seq<Tree>, path: seq<string>)
    decreases trees
  {
    && trees != []
    && var before, last := trees[..|trees| - 1], trees[|trees| - 1];
       if !TreeStop(last, path).Missing? then ShowsThrough(last, path)
       else if !AllMissing(Files(last), path) then ListStop(before, path) == Plain(|path|)
       else ShowsThroughSome(before, path)
  }

  // The same in terms of what the merges of the imports say.
  lemma {:induction false} StopsTell(before: seq<Tree>, last: Tree, path: seq<string>)
    requires path != []
    ensures TreeStop(last, path).Missing? <==> !Speaks(Nested(last), path)
    ensures AllMissing(Files(last), path) <==> !SomeSpeaks(Files(last), path)
    ensures ListStop(before, path) == Plain(|path|) <==> At(NestedAll(before), path).Set?
  {
    NestedStops(last, path);
    StopIsEffect(Nested(last), path);
    NestedAllStops(before, path);
    StopIsEffect(NestedAll(before), path);
    forall i | 0 <= i < |Files(last)| ensures StopOf(Files(last)[i], path).Missing? <==> !Speaks(Files(last)[i], path) {
      StopIsEffect(Files(last)[i], path);
    }
  }

  // Files that are all silent make a silent import.
  lemma {:induction false} SilentFiles(tree: Tree, path: seq<string>)
    requires path != [] && !SomeSpeaks(Files(tree), path)
    ensures !Speaks(Nested(tree), path)
    decreases tree
  {
    match tree
    case Leaf(own) => assert Files(tree)[0] == own;
    case Node(children) => AllSilent(children, path);
  }

  lemma {:induction false} AllSilent(trees: seq<Tree>, path: seq<string>)
    requires path != [] && !SomeSpeaks(FilesOfAll(trees), path)
    ensures !Speaks(NestedAll(trees), path)
    decreases trees
  {
    if trees != [] {
      var before, last := trees[..|trees| - 1], trees[|trees| - 1];
      DecidedAppend(FilesOfAll(before), Files(last), path);
      AllSilent(before, path);
      SilentFiles(last, path);
      MergeEffect(NestedAll(before), Nested(last), path);
    }
  }

  // A setting that the last speaking file makes is never lost by nesting.
  lemma {:induction false} SettingPrevails(tree: Tree, path: seq<string>)
    requires path != [] && Decided(Files(tree), path).Set?
    ensures EffectOf(Nested(tree), path) == Sets(Decided(Files(tree), path).value)
    decreases tree
  {
    match tree
    case Leaf(own) =>
      AtIsEffect(own, path);
      assert Files(tree)[..0] == [];
    case Node(children) => SettingPrevailsInAll(children, path);
  }

  lemma {:induction false} SettingPrevailsInAll(trees: seq<Tree>, path: seq<string>)
    requires path != [] && Decided(FilesOfAll(trees), path).Set?
    ensures EffectOf(NestedAll(trees), path) == Sets(Decided(FilesOfAll(trees), path).value)
    decreases trees
  {
    if trees != [] {
      var before, last := trees[..|trees| - 1], trees[|trees| - 1];
      DecidedAppend(FilesOfAll(before), Files(last), path);
      MergeEffect(NestedAll(before), Nested(last), path);
      if SomeSpeaks(Files(last), path) {
        SettingPrevails(last, path);
      } else {
        SettingPrevailsInAll(before, path);
        SilentFiles(last, path);
        if Reopens(NestedAll(before), Nested(last), path) {
          ReopenedIsBlocked(NestedAll(before), Nested(last), path);
        }
      }
    }
  }

  /** The nested merge has at a path the setting that the last speaking file gives it, if and only if no setting shows
      through there, which is told from where each file stops on the path. */
  lemma {:induction false} NestedDecidesIff(tree: Tree, path: seq<string>)
    requires path != []
    ensures At(Nested(tree), path) == Decided(Files(tree), path) <==> !ShowsThrough(tree, path)
    decreases tree
  {
    match tree
    case Leaf(own) =>
      AtIsEffect(own, path);
      assert Files(tree)[..0] == [];
    case Node(children) => AllDecideIff(children, path);
  }

  lemma {:induction false} AllDecideIff(trees: seq<Tree>, path: seq<string>)
    requires path != []
    ensures At(NestedAll(trees), path) == Decided(FilesOfAll(trees), path) <==> !ShowsThroughSome(trees, path)
    decreases trees
  {
    if trees != [] {
      var before, last := trees[..|trees| - 1], trees[|trees| - 1];
      DecidedAppend(FilesOfAll(before), Files(last), path);
      MergeAt(NestedAll(before), Nested(last), path);
      StopsTell(before, last, path);
      if !SomeSpeaks(Files(last), path) {
        SilentFiles(last, path);
        AllDecideIff(before, path);
      } else if Speaks(Nested(last), path) {
        NestedDecidesIff(last, path);
      } else if Decided(Files(last), path).Set? {
        SettingPrevails(last, path);
      }
    }
  }

  // ---------- Why a setting shows through ----------

  // A file makes a plain value of what the path needs as a table, and a later one turns it back into a table.
  ghost predicate TurnsBack(files: seq<Value>, path: seq<string>) {
    exists i, j, n :: IsTurnedBack(files, path, i, j, n)
  }

  ghost predicate IsTurnedBack(files: seq<Value>, path: seq<string>, i: nat, j: nat, n: nat) {
    && i < j < |files| && n < |path|
    && EffectOf(files[i], path[..n]).Sets? && EffectOf(files[j], path[..n]).Opens?
  }

  lemma {:induction false} ReopenedAt(a: Value, b: Value, path: seq<string>) returns (n: nat)
    requires Reopens(a, b, path)
    ensures n < |path| && EffectOf(a, path[..n]).Sets? && EffectOf(b, path[..n]).Opens?
  {
    if a.Table? {
      var m := ReopenedAt(a.fields[path[0]], b.fields[path[0]], path[1..]);
      n := m + 1;
      assert path[..n][0] == path[0] && path[..n][1..] == path[1..][..m];
    } else {
      n := 0;
    }
  }

  // Whatever a merge says at a path, one of its files says.
  lemma {:induction false} EffectHasOrigin(tree: Tree, path: seq<string>) returns (i: nat)
    requires path != [] && Speaks(Nested(tree), path)
    ensures i < |Files(tree)| && EffectOf(Files(tree)[i], path) == EffectOf(Nested(tree), path)
    decreases tree
  {
    match tree
    case Leaf(_) => i := 0;
    case Node(children) => i := OriginInAll(children, path);
  }

  lemma {:induction false} OriginInAll(trees: seq<Tree>, path: seq<string>) returns (i: nat)
    requires path != [] && Speaks(NestedAll(trees), path)
    ensures i < |FilesOfAll(trees)| && EffectOf(FilesOfAll(trees)[i], path) == EffectOf(NestedAll(trees), path)
    decreases trees
  {
    var before, last := trees[..|trees| - 1], trees[|trees| - 1];
    MergeEffect(NestedAll(before), Nested(last), path);
    if Speaks(Nested(last), path) {
      var j := EffectHasOrigin(last, path);
      i := |FilesOfAll(before)| + j;
    } else {
      i := OriginInAll(before, path);
    }
  }

  lemma TurnsBackInPart(xs: seq<Value>, ys: seq<Value>, path: seq<string>)
    requires TurnsBack(xs, path) || TurnsBack(ys, path)
    ensures TurnsBack(xs + ys, path)
  {
    if i: nat, j: nat, n: nat :| IsTurnedBack(xs, path, i, j, n) {
      assert IsTurnedBack(xs + ys, path, i, j, n);
    } else {
      var i, j, n :| IsTurnedBack(ys, path, i, j, n);
      assert IsTurnedBack(xs + ys, path, |xs| + i, |xs| + j, n);
    }
  }

  /** An import that is silent about a path as a whole, although one of its files is not, contains a file with a plain
      value on the way to the path, and a later file that turns this value back into a table. */
  lemma {:induction false} SilentImportTurnsBack(tree: Tree, path: seq<string>)
    requires path != [] && AllTables(Files(tree))
    requires !Speaks(Nested(tree), path) && SomeSpeaks(Files(tree), path)
    ensures TurnsBack(Files(tree), path)
    decreases tree
  {
    if tree.Node? {
      SilentImportsTurnBack(tree.children, path);
    }
  }

  lemma {:induction false} SilentImportsTurnBack(trees: seq<Tree>, path: seq<string>)
    requires path != [] && AllTables(FilesOfAll(trees))
    requires !Speaks(NestedAll(trees), path) && SomeSpeaks(FilesOfAll(trees), path)
    ensures TurnsBack(FilesOfAll(trees), path)
    decreases trees
  {
    var before, last := trees[..|trees| - 1], trees[|trees| - 1];
    TablesOfParts(FilesOfAll(before), Files(last));
    DecidedAppend(FilesOfAll(before), Files(last), path);
    MergeEffect(NestedAll(before), Nested(last), path);
    if SomeSpeaks(Files(last), path) {
      SilentImportTurnsBack(last, path);
      TurnsBackInPart(FilesOfAll(before), Files(last), path);
    } else if !Speaks(NestedAll(before), path) {
      SilentImportsTurnBack(before, path);
      TurnsBackInPart(FilesOfAll(before), Files(last), path);
    } else {
      TurnedBackBetween(before, last, path);
    }
  }

  lemma TablesOfParts(xs: seq<Value>, ys: seq<Value>)
    requires AllTables(xs + ys)
    ensures AllTables(xs) && AllTables(ys)
  {
    var all := xs + ys;
    assert forall i :: 0 <= i < |xs| ==> all[i] == xs[i];
    assert forall i :: 0 <= i < |ys| ==> all[|xs| + i] == ys[i];
  }

  lemma {:induction false} NestedIsTable(tree: Tree)
    requires AllTables(Files(tree))
    ensures Nested(tree).Table?
    decreases tree
  {
    match tree
    case Leaf(own) => assert Files(tree)[0] == own;
    case Node(children) => NestedAllIsTable(children);
  }

  lemma {:induction false} NestedAllIsTable(trees: seq<Tree>)
    requires AllTables(FilesOfAll(trees))
    ensures NestedAll(trees).Table?
    decreases trees
  {
    if trees != [] {
      TablesOfParts(FilesOfAll(trees[..|trees| - 1]), Files(trees[|trees| - 1]));
      NestedAllIsTable(trees[..|trees| - 1]);
      NestedIsTable(trees[|trees| - 1]);
    }
  }

  // The plain value comes from an earlier import, and the table from the last one.
  lemma {:induction false} TurnedBackBetween(before: seq<Tree>, last: Tree, path: seq<string>)
    requires path != [] && Reopens(NestedAll(before), Nested(last), path)
    requires AllTables(FilesOfAll(before))
    ensures TurnsBack(FilesOfAll(before) + Files(last), path)
  {
    var n := ReopenedAt(NestedAll(before), Nested(last), path);
    NestedAllIsTable(before);
    var i := OriginInAll(before, path[..n]);
    var j := EffectHasOrigin(last, path[..n]);
    assert IsTurnedBack(FilesOfAll(before) + Files(last), path, i, |FilesOfAll(before)| + j, n);
  }

  // No import after the first one, at any level, turns a plain value back into a table.
  ghost predicate IsSteady(tree: Tree, path: seq<string>)
    decreases tree
  {
    tree.Node? ==>
      && (forall i :: 0 <= i < |tree.children| ==> IsSteady(tree.children[i], path))
      && (forall i :: 1 <= i < |tree.children| ==> !TurnsBack(Files(tree.children[i]), path))
  }

  /** Without such an import a setting is always that of the last speaking file. */
  lemma {:induction false} SteadyImportsShowNothing(tree: Tree, path: seq<string>)
    requires path != [] && IsSteady(tree, path) && AllTables(Files(tree))
    ensures !ShowsThrough(tree, path)
    decreases tree
  {
    if tree.Node? {
      SteadyListShowsNothing(tree.children, path);
    }
  }

  lemma {:induction false} SteadyListShowsNothing(trees: seq<Tree>, path: seq<string>)
    requires path != [] && AllTables(FilesOfAll(trees))
    requires forall i :: 0 <= i < |trees| ==> IsSteady(trees[i], path)
    requires forall i :: 1 <= i < |trees| ==> !TurnsBack(Files(trees[i]), path)
    ensures !ShowsThroughSome(trees, path)
    decreases trees
  {
    if trees != [] {
      var before, last := trees[..|trees| - 1], trees[|trees| - 1];
      TablesOfParts(FilesOfAll(before), Files(last));
      SteadyListShowsNothing(before, path);
      SteadyImportsShowNothing(last, path);
      StopsTell(before, last, path);
      if !Speaks(Nested(last), path) && SomeSpeaks(Files(last), path) {
        SilentImportTurnsBack(last, path);
        assert before == [];
      }
    }
  }

  // ---------- Whole values ----------

  // The files of each import after the first one, at any level, agree on which keys are tables.
  ghost predicate LaterImportsAgree(tree: Tree)
    decreases tree
  {
    tree.Node? ==>
      && (forall i :: 0 <= i < |tree.children| ==> LaterImportsAgree(tree.children[i]))
      && (forall i :: 1 <= i < |tree.children| ==> AllAgree(Files(tree.children[i])))
  }

  /** Then the nested merges come to one flat merge of all files; the first import may do as it likes. */
  lemma {:induction false} NestedIsFlat(tree: Tree)
    requires LaterImportsAgree(tree) && AllTables(Files(tree))
    ensures Nested(tree) == MergeAll(Files(tree))
    decreases tree
  {
    match tree
    case Leaf(own) =>
      assert Files(tree)[0] == own;
      assert [own][..0] == [];
      MergeTables(EMPTY_TABLE, own);
    case Node(children) => ListIsFlat(children);
  }

  lemma {:induction false} ListIsFlat(trees: seq<Tree>)
    requires AllTables(FilesOfAll(trees))
    requires forall i :: 0 <= i < |trees| ==> LaterImportsAgree(trees[i])
    requires forall i :: 1 <= i < |trees| ==> AllAgree(Files(trees[i]))
    ensures NestedAll(trees) == MergeAll(FilesOfAll(trees))
    decreases trees
  {
    if trees != [] {
      var before, last := trees[..|trees| - 1], trees[|trees| - 1];
      TablesOfParts(FilesOfAll(before), Files(last));
      ListIsFlat(before);
      NestedIsFlat(last);
      if before == [] {
        NestedIsTable(last);
        MergeTables(EMPTY_TABLE, Nested(last));
        assert FilesOfAll(trees) == Files(last);
      } else {
        MergeAllAppend(FilesOfAll(before), Files(last));
      }
    }
  }
}
