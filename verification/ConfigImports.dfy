/**
 What the loader guarantees for every finite set of files and folders: when it succeeds, when it reports a
 cycle, and what the loaded configuration is (infrastructure/via/src/config.ts:10-63).
 */
module ConfigImports {
  import opened Wrappers
  import opened ConfigMerge
  import opened ConfigNesting
  import opened ConfigLoader

  // ---------- Import chains ----------

  // The files that one import loads.
  function TargetsOf(fs: Disk, path: string): seq<string> {
    if path !in fs then [] else if fs[path].Dir? then Listing(path, fs[path].names) else [path]
  }

  // The files that a list of imports loads.
  function Targets(fs: Disk, imports: seq<Value>): seq<string>
    requires forall i :: 0 <= i < |imports| ==> imports[i].Text?
  {
    if imports == [] then []
    else Targets(fs, imports[..|imports| - 1]) + TargetsOf(fs, imports[|imports| - 1].text)
  }

  // File `f` imports file `g`, by its path or as a member of a folder.
  predicate ImportsFile(fs: Disk, f: string, g: string) {
    Loadable(fs, f) && g in Targets(fs, Imports(fs[f].content.value))
  }

  // An import chain.
  predicate Chain(fs: Disk, w: seq<string>) {
    |w| > 0 && (|w| > 1 ==> ImportsFile(fs, w[0], w[1]) && Chain(fs, w[1..]))
  }

  ghost predicate AllLoadable(fs: Disk, w: seq<string>) {
    forall i :: 0 <= i < |w| ==> Loadable(fs, w[i])
  }

  ghost predicate Revisits(w: seq<string>) {
    exists i, j :: 0 <= i < j < |w| && w[i] == w[j]
  }

  // A chain along which nothing goes wrong, for a loader that is in the middle of `stack`.
  ghost predicate Fine(fs: Disk, stack: seq<string>, w: seq<string>) {
    AllLoadable(fs, w) && !Revisits(w) && forall i :: 0 <= i < |w| ==> w[i] !in stack
  }

  ghost predicate ChainsFine(fs: Disk, stack: seq<string>, path: string) {
    forall w :: Chain(fs, w) && w[0] == path ==> Fine(fs, stack, w)
  }

  // Chains from a loadable file are the file itself, followed by a chain from one of its imports.
  lemma FineCons(fs: Disk, stack: seq<string>, path: string, w: seq<string>)
    requires w != []
    ensures Fine(fs, stack, [path] + w) <==> Loadable(fs, path) && path !in stack && Fine(fs, stack + [path], w)
  {
    if Fine(fs, stack, [path] + w) {
      FineRest(fs, stack, path, w);
    }
    if Loadable(fs, path) && path !in stack && Fine(fs, stack + [path], w) {
      FineWhole(fs, stack, path, w);
    }
  }

  lemma FineRest(fs: Disk, stack: seq<string>, path: string, w: seq<string>)
    requires Fine(fs, stack, [path] + w)
    ensures Loadable(fs, path) && path !in stack && Fine(fs, stack + [path], w)
  {
    var v := [path] + w;
    assert v[0] == path;
    forall i | 0 <= i < |w| ensures Loadable(fs, w[i]) && w[i] !in stack + [path] {
      assert v[i + 1] == w[i] && Loadable(fs, v[i + 1]) && v[i + 1] != v[0];
    }
    forall i, j | 0 <= i < j < |w| ensures w[i] != w[j] {
      assert v[i + 1] == w[i] && v[j + 1] == w[j];
    }
  }

  lemma FineWhole(fs: Disk, stack: seq<string>, path: string, w: seq<string>)
    requires Loadable(fs, path) && path !in stack && Fine(fs, stack + [path], w)
    ensures Fine(fs, stack, [path] + w)
  {
    var v := [path] + w;
    forall i | 0 <= i < |v| ensures Loadable(fs, v[i]) && v[i] !in stack {
      if i > 0 { assert v[i] == w[i - 1]; }
    }
    forall i, j | 0 <= i < j < |v| ensures v[i] != v[j] {
      assert v[j] == w[j - 1];
      if i > 0 { assert v[i] == w[i - 1]; }
    }
  }

  lemma {:induction false} ChainsFineStep(fs: Disk, stack: seq<string>, path: string)
    ensures ChainsFine(fs, stack, path) <==>
              && Loadable(fs, path) && path !in stack
              && forall g :: g in Targets(fs, Imports(fs[path].content.value)) ==> ChainsFine(fs, stack + [path], g)
  {
    assert Chain(fs, [path]);
    if ChainsFine(fs, stack, path) {
      assert Fine(fs, stack, [path]) && [path][0] == path;
      forall g | g in Targets(fs, Imports(fs[path].content.value)) ensures ChainsFine(fs, stack + [path], g) {
        forall w | Chain(fs, w) && w[0] == g ensures Fine(fs, stack + [path], w) {
          assert ([path] + w)[1..] == w;
          assert Chain(fs, [path] + w);
          FineCons(fs, stack, path, w);
        }
      }
    }
    if Loadable(fs, path) && path !in stack
      && forall g :: g in Targets(fs, Imports(fs[path].content.value)) ==> ChainsFine(fs, stack + [path], g)
    {
      forall w | Chain(fs, w) && w[0] == path ensures Fine(fs, stack, w) {
        if |w| > 1 {
          assert ChainsFine(fs, stack + [path], w[1]);
          assert w == [path] + w[1..];
          FineCons(fs, stack, path, w[1..]);
        }
      }
    }
  }

  // The path of a folder on the stack never matters, because no file has it.
  lemma FolderOnStack(fs: Disk, stack: seq<string>, dir: string, g: string)
    requires dir in fs && fs[dir].Dir?
    ensures ChainsFine(fs, stack + [dir], g) <==> ChainsFine(fs, stack, g)
  {
    forall w | Chain(fs, w) ensures Fine(fs, stack + [dir], w) <==> Fine(fs, stack, w) {
    }
  }

  // ---------- When loading succeeds ----------

  lemma {:induction false} FileLoadsIff(fs: Disk, stack: seq<string>, path: string)
    ensures LoadConfigFile(fs, stack, path).Loaded? <==> ChainsFine(fs, stack, path)
    decreases Pending(fs, stack), 0, 0
  {
    ChainsFineStep(fs, stack, path);
    if path !in stack && Loadable(fs, path) {
      PushShrinks(fs, stack, path);
      ImportsLoadIff(fs, stack + [path], Imports(fs[path].content.value));
    }
  }

  lemma {:induction false} ImportsLoadIff(fs: Disk, stack: seq<string>, imports: seq<Value>)
    requires forall i :: 0 <= i < |imports| ==> imports[i].Text?
    ensures LoadImports(fs, stack, imports).Loaded? <==>
              forall g :: g in Targets(fs, imports) ==> ChainsFine(fs, stack, g)
    decreases Pending(fs, stack), 3, |imports|
  {
    if imports != [] {
      ImportsLoadIff(fs, stack, imports[..|imports| - 1]);
      ImportLoadsIff(fs, stack, imports[|imports| - 1].text);
    }
  }

  lemma {:induction false} ImportLoadsIff(fs: Disk, stack: seq<string>, path: string)
    ensures LoadImport(fs, stack, path).Loaded? <==>
              forall g :: g in TargetsOf(fs, path) ==> ChainsFine(fs, stack, g)
    decreases Pending(fs, stack), 2, 0
  {
    if path in fs && fs[path].Dir? {
      PushKeeps(fs, stack, path);
      FolderLoadsIff(fs, stack + [path], Listing(path, fs[path].names));
      forall g: string ensures ChainsFine(fs, stack + [path], g) <==> ChainsFine(fs, stack, g) {
        FolderOnStack(fs, stack, path, g);
      }
    } else if path in fs {
      FileLoadsIff(fs, stack, path);
    }
  }

  lemma {:induction false} FolderLoadsIff(fs: Disk, stack: seq<string>, paths: seq<string>)
    ensures LoadConfigFolder(fs, stack, paths).Loaded? <==> forall g :: g in paths ==> ChainsFine(fs, stack, g)
    decreases Pending(fs, stack), 1, |paths|
  {
    if paths != [] {
      var init, last := paths[..|paths| - 1], paths[|paths| - 1];
      FolderLoadsIff(fs, stack, init);
      FileLoadsIff(fs, stack, last);
      assert forall g :: g in paths <==> g in init || g == last;
    }
  }

  /** Loading succeeds exactly if every import chain from the root consists of loadable files and visits none
      twice; so two chains may well lead to the same file. */
  lemma {:induction false} LoadSucceedsIff(fs: Disk, root: string)
    ensures LoadConfigFile(fs, [], root).Loaded? <==>
              forall w :: Chain(fs, w) && w[0] == root ==> AllLoadable(fs, w) && !Revisits(w)
  {
    FileLoadsIff(fs, [], root);
    forall w | Chain(fs, w) && w[0] == root ensures Fine(fs, [], w) <==> AllLoadable(fs, w) && !Revisits(w) {
    }
  }

  // ---------- Which failure is reported ----------

  // The chain that a failure is about. A folder with the name of a configuration file is reported as a cycle while its
  // own files are loaded.
  ghost predicate Explains(fs: Disk, stack: seq<string>, failure: Failure, w: seq<string>) {
    && Chain(fs, w)
    && var last := w[|w| - 1];
       && failure.path == last
       && match failure
          case Cyclic(_) => last in stack + w[..|w| - 1] || (last in fs && fs[last].Dir?)
          case NotFound(_) => last !in fs
          case Unreadable(_) => last in fs && !Loadable(fs, last)
  }

  lemma {:induction false} FileFailure(fs: Disk, stack: seq<string>, path: string) returns (w: seq<string>)
    requires LoadConfigFile(fs, stack, path).Exit?
    ensures Explains(fs, stack, LoadConfigFile(fs, stack, path).failure, w) && w[0] == path
    decreases Pending(fs, stack), 0, 0
  {
    if path in stack || !Loadable(fs, path) {
      w := [path];
    } else {
      PushShrinks(fs, stack, path);
      var v := ImportsFailure(fs, stack + [path], Imports(fs[path].content.value));
      w := [path] + v;
      assert w[1..] == v;
      assert stack + w[..|w| - 1] == stack + [path] + v[..|v| - 1];
    }
  }

  lemma {:induction false} ImportsFailure(fs: Disk, stack: seq<string>, imports: seq<Value>) returns (w: seq<string>)
    requires forall i :: 0 <= i < |imports| ==> imports[i].Text?
    requires LoadImports(fs, stack, imports).Exit?
    ensures Explains(fs, stack, LoadImports(fs, stack, imports).failure, w) && w[0] in Targets(fs, imports)
    decreases Pending(fs, stack), 3, |imports|
  {
    if LoadImports(fs, stack, imports[..|imports| - 1]).Exit? {
      w := ImportsFailure(fs, stack, imports[..|imports| - 1]);
    } else {
      w := ImportFailure(fs, stack, imports[|imports| - 1].text);
    }
  }

  lemma {:induction false} ImportFailure(fs: Disk, stack: seq<string>, path: string) returns (w: seq<string>)
    requires LoadImport(fs, stack, path).Exit?
    ensures Explains(fs, stack, LoadImport(fs, stack, path).failure, w) && w[0] in TargetsOf(fs, path)
    decreases Pending(fs, stack), 2, 0
  {
    if fs[path].Dir? {
      PushKeeps(fs, stack, path);
      w := FolderFailure(fs, stack + [path], Listing(path, fs[path].names));
    } else {
      w := FileFailure(fs, stack, path);
    }
  }

  lemma {:induction false} FolderFailure(fs: Disk, stack: seq<string>, paths: seq<string>) returns (w: seq<string>)
    requires LoadConfigFolder(fs, stack, paths).Exit?
    ensures Explains(fs, stack, LoadConfigFolder(fs, stack, paths).failure, w) && w[0] in paths
    decreases Pending(fs, stack), 1, |paths|
  {
    if LoadConfigFolder(fs, stack, paths[..|paths| - 1]).Exit? {
      w := FolderFailure(fs, stack, paths[..|paths| - 1]);
    } else {
      w := FileFailure(fs, stack, paths[|paths| - 1]);
    }
  }

  /** What is reported is real: the path is the end of an import chain from the root. It is missing, or it cannot be
      read, or it comes twice in the chain, or it is a folder in place of a file. */
  lemma ReportedFailureIsReal(fs: Disk, root: string) returns (w: seq<string>)
    requires LoadConfigFile(fs, [], root).Exit?
    ensures Chain(fs, w) && w[0] == root
    ensures var failure, last := LoadConfigFile(fs, [], root).failure, w[|w| - 1];
            && failure.path == last
            && match failure
               case Cyclic(_) => last in w[..|w| - 1] || (last in fs && fs[last].Dir?)
               case NotFound(_) => last !in fs
               case Unreadable(_) => last in fs && !Loadable(fs, last)
  {
    w := FileFailure(fs, [], root);
    assert [] + w[..|w| - 1] == w[..|w| - 1];
  }

  /** If all files that can be reached are present and parse, a cycle is reported exactly when some import chain
      from the root revisits a file, and nothing else is ever reported. */
  lemma {:induction false} CycleReportedIff(fs: Disk, root: string)
    requires forall w :: Chain(fs, w) && w[0] == root ==> AllLoadable(fs, w)
    ensures var r := LoadConfigFile(fs, [], root);
            && ((r.Exit? && r.failure.Cyclic?) <==> exists w :: Chain(fs, w) && w[0] == root && Revisits(w))
            && (r.Exit? ==> r.failure.Cyclic?)
  {
    LoadSucceedsIff(fs, root);
    if LoadConfigFile(fs, [], root).Exit? {
      var w := ReportedFailureIsReal(fs, root);
      assert AllLoadable(fs, w);
      var n := |w| - 1;
      assert w[n] in w[..n];
      var i :| 0 <= i < n && w[..n][i] == w[n];
      assert w[i] == w[n];
    }
  }

  // ---------- What is loaded ----------

  // The value is the nested merge of the tree, whose leaves are tables; a list of imports is a node.
  ghost predicate IsNested(r: Outcome) {
    r.Loaded? ==> r.value == Nested(r.tree) && AllTables(Files(r.tree))
  }

  ghost predicate IsNestedList(r: Outcome) {
    IsNested(r) && (r.Loaded? ==> r.tree.Node?)
  }

  lemma AppendIsNested(before: Outcome, next: Outcome)
    requires before.Loaded? && next.Loaded? && IsNestedList(before) && IsNested(next)
    ensures IsNestedList(Loaded(Merge(before.value, next.value), Append(before.tree, next.tree)))
  {
    var trees := before.tree.children + [next.tree];
    assert trees[..|trees| - 1] == before.tree.children;
  }

  lemma {:induction false} FileIsNested(fs: Disk, stack: seq<string>, path: string)
    ensures IsNested(LoadConfigFile(fs, stack, path))
    decreases Pending(fs, stack), 0, 0
  {
    if LoadConfigFile(fs, stack, path).Loaded? {
      var content := fs[path].content.value;
      PushShrinks(fs, stack, path);
      ImportsAreNested(fs, stack + [path], Imports(content));
      AppendIsNested(LoadImports(fs, stack + [path], Imports(content)), Loaded(Own(content), Leaf(Own(content))));
    }
  }

  lemma {:induction false} ImportsAreNested(fs: Disk, stack: seq<string>, imports: seq<Value>)
    requires forall i :: 0 <= i < |imports| ==> imports[i].Text?
    ensures IsNestedList(LoadImports(fs, stack, imports))
    decreases Pending(fs, stack), 3, |imports|
  {
    if imports != [] && LoadImports(fs, stack, imports).Loaded? {
      var before, last := imports[..|imports| - 1], imports[|imports| - 1].text;
      ImportsAreNested(fs, stack, before);
      ImportIsNested(fs, stack, last);
      AppendIsNested(LoadImports(fs, stack, before), LoadImport(fs, stack, last));
    }
  }

  lemma {:induction false} ImportIsNested(fs: Disk, stack: seq<string>, path: string)
    ensures IsNested(LoadImport(fs, stack, path))
    decreases Pending(fs, stack), 2, 0
  {
    if path in fs && fs[path].Dir? {
      PushKeeps(fs, stack, path);
      FolderIsNested(fs, stack + [path], Listing(path, fs[path].names));
    } else if path in fs {
      FileIsNested(fs, stack, path);
    }
  }

  lemma {:induction false} FolderIsNested(fs: Disk, stack: seq<string>, paths: seq<string>)
    ensures IsNestedList(LoadConfigFolder(fs, stack, paths))
    decreases Pending(fs, stack), 1, |paths|
  {
    if paths != [] && LoadConfigFolder(fs, stack, paths).Loaded? {
      var before, last := paths[..|paths| - 1], paths[|paths| - 1];
      FolderIsNested(fs, stack, before);
      FileIsNested(fs, stack, last);
      AppendIsNested(LoadConfigFolder(fs, stack, before), LoadConfigFile(fs, stack, last));
    }
  }

  /** When the files of each import after the first one agree on which keys are tables, the nested merges of the loader
      come to one flat merge of all files in depth-first post-order: every setting has the value of the last file in
      that order that speaks about it, and if all files agree, of the last one that sets it. In particular a file
      overrides its imports, and later imports override earlier ones. */
  lemma {:induction false} NestedMergeIsFlat(fs: Disk, root: string, path: seq<string>)
    requires LoadConfigFile(fs, [], root).Loaded? && LaterImportsAgree(LoadConfigFile(fs, [], root).tree)
    ensures var r := LoadConfigFile(fs, [], root);
            && r.value == MergeAll(Files(r.tree))
            && At(r.value, path) == Decided(Files(r.tree), path)
            && (AllAgree(Files(r.tree)) ==> At(r.value, path) == LastAt(Files(r.tree), path))
  {
    FileIsNested(fs, [], root);
    var files := Files(LoadConfigFile(fs, [], root).tree);
    NestedIsFlat(LoadConfigFile(fs, [], root).tree);
    FlatMergeDecides(files, path);
    if AllAgree(files) {
      LastSettingWins(files, path);
    }
  }

  /** For every load and every setting, whether files agree or not, the nested and the flat merge give the setting the
      same value, if and only if no setting shows through an import whose files together lack the path although one of
      them alone does not. */
  lemma {:induction false} NestedMergeIsFlatIff(fs: Disk, root: string, path: seq<string>)
    requires LoadConfigFile(fs, [], root).Loaded? && path != []
    ensures var r := LoadConfigFile(fs, [], root);
            At(r.value, path) == At(MergeAll(Files(r.tree)), path) <==> !ShowsThrough(r.tree, path)
  {
    FileIsNested(fs, [], root);
    NestedDecidesIff(LoadConfigFile(fs, [], root).tree, path);
    FlatMergeDecides(Files(LoadConfigFile(fs, [], root).tree), path);
  }

  /** This takes a plain value that a later file of the same import, which is not the first one, turns back into a
      table. */
  lemma {:induction false} SteadyLoadIsFlat(fs: Disk, root: string, path: seq<string>)
    requires LoadConfigFile(fs, [], root).Loaded? && path != [] && IsSteady(LoadConfigFile(fs, [], root).tree, path)
    ensures var r := LoadConfigFile(fs, [], root);
            At(r.value, path) == Decided(Files(r.tree), path)
  {
    FileIsNested(fs, [], root);
    SteadyImportsShowNothing(LoadConfigFile(fs, [], root).tree, path);
    NestedDecidesIff(LoadConfigFile(fs, [], root).tree, path);
  }

  // Files whose nested merge differs from the flat one: `y` imports `z`, in which the table `k` of `x` is a plain
  // value, and makes `k` an empty table again, through which the table of `x` shows.
  const SETTINGS_X: Value := Table(map["k" := Table(map["n" := Text("1")])])
  const SETTINGS_Z: Value := Table(map["k" := Text("2")])
  const SETTINGS_Y: Value := Table(map["k" := EMPTY_TABLE])
  const IMPORT_Z: seq<Value> := [Text("z")]
  const IMPORT_XY: seq<Value> := [Text("x"), Text("y")]
  const AMBIGUOUS: Disk :=
    map["x" := File(Some(SETTINGS_X)),
        "z" := File(Some(SETTINGS_Z)),
        "y" := File(Some(Table(map["k" := EMPTY_TABLE, IMPORTS := Array(IMPORT_Z)]))),
        "r" := File(Some(Table(map[IMPORTS := Array(IMPORT_XY)])))]

  // A file without imports, and the trees that are loaded for `y` and `r`.
  function Single(content: Value): Tree {
    Node([Leaf(content)])
  }

  const TREE_Y: Tree := Node([Single(SETTINGS_Z), Leaf(SETTINGS_Y)])
  const TREE_R: Tree := Node([Single(SETTINGS_X), TREE_Y, Leaf(EMPTY_TABLE)])

  lemma {:induction false} LoadSingle(fs: Disk, stack: seq<string>, path: string, content: Value)
    requires path !in stack && path in fs && fs[path] == File(Some(content))
    requires content.Table? && IMPORTS !in content.fields
    ensures LoadConfigFile(fs, stack, path) == Loaded(content, Single(content))
  {
    MergeTables(EMPTY_TABLE, content);
    assert LoadImports(fs, stack + [path], []) == NOTHING;
    assert NOTHING.tree.children + [Leaf(content)] == [Leaf(content)];
  }

  lemma {:induction false} LoadOneImport(fs: Disk, stack: seq<string>, path: string, content: Value)
    requires path !in stack && path in fs && fs[path] == File(Some(content))
    requires content.Table? && IMPORTS !in content.fields
    ensures LoadImports(fs, stack, [Text(path)]) == Loaded(content, Node([Single(content)]))
  {
    LoadSingle(fs, stack, path, content);
    MergeTables(EMPTY_TABLE, content);
    assert [Text(path)][..0] == [];
    assert LoadImports(fs, stack, []) == NOTHING;
    assert NOTHING.tree.children + [Single(content)] == [Single(content)];
  }

  lemma {:induction false} PlainValueIsReplaced(a: Value, key: string)
    requires a.Table? && key in a.fields && !a.fields[key].Table?
    ensures Merge(a, Table(map[key := EMPTY_TABLE])).fields[key] == EMPTY_TABLE
  {
  }

  lemma LoadY()
    ensures LoadConfigFile(AMBIGUOUS, ["r"], "y") == Loaded(SETTINGS_Y, TREE_Y)
  {
    LoadOneImport(AMBIGUOUS, ["r"] + ["y"], "z", SETTINGS_Z);
    PlainValueIsReplaced(SETTINGS_Z, "k");
    assert Merge(SETTINGS_Z, SETTINGS_Y).fields == SETTINGS_Y.fields;
    var content := AMBIGUOUS["y"].content.value;
    assert Own(content).fields == SETTINGS_Y.fields;
    assert Imports(content) == IMPORT_Z;
    assert [Single(SETTINGS_Z)] + [Leaf(SETTINGS_Y)] == TREE_Y.children;
  }

  lemma LoadImportsOfR()
    ensures LoadImports(AMBIGUOUS, ["r"], IMPORT_XY)
            == Loaded(Merge(SETTINGS_X, SETTINGS_Y), Node([Single(SETTINGS_X), TREE_Y]))
  {
    LoadOneImport(AMBIGUOUS, ["r"], "x", SETTINGS_X);
    LoadY();
    assert IMPORT_XY[..1] == [Text("x")];
    assert [Single(SETTINGS_X)] + [TREE_Y] == [Single(SETTINGS_X), TREE_Y];
  }

  lemma LoadR()
    ensures LoadConfigFile(AMBIGUOUS, [], "r") == Loaded(Merge(SETTINGS_X, SETTINGS_Y), TREE_R)
  {
    LoadImportsOfR();
    var content := AMBIGUOUS["r"].content.value;
    assert Own(content).fields == map[];
    assert Imports(content) == IMPORT_XY;
    assert [] + ["r"] == ["r"];
    MergeTables(Merge(SETTINGS_X, SETTINGS_Y), EMPTY_TABLE);
    assert [Single(SETTINGS_X), TREE_Y] + [Leaf(EMPTY_TABLE)] == TREE_R.children;
  }

  lemma {:induction false} FilesOfMore(trees: seq<Tree>, tree: Tree)
    ensures FilesOfAll(trees + [tree]) == FilesOfAll(trees) + Files(tree)
  {
    assert (trees + [tree])[..|trees|] == trees;
  }

  lemma FilesOfSingle(content: Value)
    ensures Files(Single(content)) == [content]
  {
    FilesOfMore([], Leaf(content));
    assert [] + [Leaf(content)] == [Leaf(content)];
  }

  lemma {:induction false} FilesOfPair(first: Tree, second: Tree)
    ensures FilesOfAll([first, second]) == Files(first) + Files(second)
  {
    FilesOfMore([], first);
    FilesOfMore([first], second);
    assert [] + [first] == [first] && [first] + [second] == [first, second];
  }

  lemma FilesOfY()
    ensures Files(TREE_Y) == [SETTINGS_Z, SETTINGS_Y]
  {
    FilesOfSingle(SETTINGS_Z);
    FilesOfPair(Single(SETTINGS_Z), Leaf(SETTINGS_Y));
  }

  lemma FilesOfXY()
    ensures FilesOfAll([Single(SETTINGS_X), TREE_Y]) == [SETTINGS_X, SETTINGS_Z, SETTINGS_Y]
  {
    FilesOfSingle(SETTINGS_X);
    FilesOfY();
    FilesOfPair(Single(SETTINGS_X), TREE_Y);
  }

  lemma FilesOfR()
    ensures Files(TREE_R) == [SETTINGS_X, SETTINGS_Z, SETTINGS_Y, EMPTY_TABLE]
  {
    FilesOfXY();
    FilesOfMore([Single(SETTINGS_X), TREE_Y], Leaf(EMPTY_TABLE));
    assert [Single(SETTINGS_X), TREE_Y] + [Leaf(EMPTY_TABLE)] == TREE_R.children;
  }

  lemma {:induction false} FlatOfThree(x: Value, z: Value, y: Value)
    requires x.Table? && z.Table? && y.Table?
    ensures MergeAll([x, z, y, EMPTY_TABLE]) == Merge(Merge(x, z), y)
  {
    assert MergeAll([x]) == x by { MergeTables(EMPTY_TABLE, x); assert [x][..0] == []; }
    assert MergeAll([x, z]) == Merge(x, z) by { assert [x, z][..1] == [x]; }
    assert MergeAll([x, z, y]) == Merge(Merge(x, z), y) by { assert [x, z, y][..2] == [x, z]; }
    MergeTables(Merge(Merge(x, z), y), EMPTY_TABLE);
    assert [x, z, y, EMPTY_TABLE][..3] == [x, z, y];
  }

  lemma {:induction false} AtPair(v: Value, k: string, n: string)
    requires v.Table? && k in v.fields && v.fields[k].Table?
    ensures var inner := v.fields[k].fields;
            At(v, [k, n]) == if n in inner && !inner[n].Table? then Set(inner[n]) else Unset
  {
    assert [k, n][1..] == [n] && [n][1..] == [];
    var w := v.fields[k];
    assert At(v, [k, n]) == At(w, [n]);
    if n in w.fields {
      assert At(w, [n]) == At(w.fields[n], []);
    }
  }

  /** Four files for which the nested merge differs from the flat one. */
  lemma NestedMergeIsNotAlwaysFlat()
    ensures var r := LoadConfigFile(AMBIGUOUS, [], "r");
            && r.Loaded? && At(r.value, ["k", "n"]) == Set(Text("1"))
            && At(MergeAll(Files(r.tree)), ["k", "n"]) == Unset
  {
    LoadR();
    FilesOfR();
    FlatOfThree(SETTINGS_X, SETTINGS_Z, SETTINGS_Y);
    var nested, flat := Merge(SETTINGS_X, SETTINGS_Y), Merge(Merge(SETTINGS_X, SETTINGS_Z), SETTINGS_Y);
    MergeTables(SETTINGS_X.fields["k"], EMPTY_TABLE);
    assert nested.fields["k"] == SETTINGS_X.fields["k"];
    assert Merge(SETTINGS_X, SETTINGS_Z).fields["k"] == Text("2");
    PlainValueIsReplaced(Merge(SETTINGS_X, SETTINGS_Z), "k");
    AtPair(nested, "k", "n");
    AtPair(flat, "k", "n");
  }
}
