/**
 What lies on disk below a configuration file, told without the loader (infrastructure/via/src/config.ts:35-63), and
 that this is what the loader finds.
 */
module ConfigTrees {
  import opened Wrappers
  import opened ConfigMerge
  import opened ConfigNesting
  import opened ConfigLoader
  import opened ConfigImports

  // ---------- The files of a folder ----------

  ghost predicate IsConfigName(name: string) {
    exists stem :: name == stem + ".env" || name == stem + ".toml"
  }

  // The paths are those of the configuration files among the names, in the same order: `picked` are their positions.
  ghost predicate Picks(dir: string, names: seq<string>, paths: seq<string>, picked: seq<nat>) {
    && |picked| == |paths|
    && (forall j, k :: 0 <= j < k < |picked| ==> picked[j] < picked[k])
    && (forall j :: 0 <= j < |picked| ==> IsPathOf(dir, names, picked[j], paths[j]))
    && (forall i :: 0 <= i < |names| ==> IsRightlyPicked(names, picked, i))
  }

  ghost predicate IsRightlyPicked(names: seq<string>, picked: seq<nat>, i: nat)
    requires i < |names|
  {
    i in picked <==> IsConfigName(names[i])
  }

  // The name at a position of the folder, as a path.
  predicate IsPathOf(dir: string, names: seq<string>, i: nat, path: string) {
    i < |names| && path == dir + "/" + names[i]
  }

  ghost predicate AreFilesOf(dir: string, names: seq<string>, paths: seq<string>) {
    exists picked :: Picks(dir, names, paths, picked)
  }

  lemma EndsWithIff(s: string, suffix: string)
    ensures EndsWith(s, suffix) <==> exists stem :: s == stem + suffix
  {
    if EndsWith(s, suffix) {
      assert s == s[..|s| - |suffix|] + suffix;
    }
  }

  lemma NameIsConfig(name: string)
    ensures IsConfigName(name) <==> EndsWith(name, ".env") || EndsWith(name, ".toml")
  {
    EndsWithIff(name, ".env");
    EndsWithIff(name, ".toml");
  }

  // Positions in a list that has one more element at its start.
  function Shifted(picked: seq<nat>): (shifted: seq<nat>)
    ensures |shifted| == |picked| && forall j :: 0 <= j < |picked| ==> shifted[j] == picked[j] + 1
  {
    seq(|picked|, j requires 0 <= j < |picked| => picked[j] + 1)
  }

  lemma ShiftedHas(picked: seq<nat>, i: nat)
    requires i > 0
    ensures i in Shifted(picked) <==> i - 1 in picked
    ensures i in [0] + Shifted(picked) <==> i - 1 in picked
  {
    if i - 1 in picked {
      var j :| 0 <= j < |picked| && picked[j] == i - 1;
      assert Shifted(picked)[j] == i;
    }
  }

  // One more name at the start of a folder: the positions, and the paths at them.
  lemma ShiftedIsRight(names: seq<string>, picked: seq<nat>, more: seq<nat>, i: nat)
    requires i < |names| && (i > 0 ==> IsRightlyPicked(names[1..], picked, i - 1))
    requires more == if IsConfigName(names[0]) then [0] + Shifted(picked) else Shifted(picked)
    ensures IsRightlyPicked(names, more, i)
  {
    if i > 0 {
      ShiftedHas(picked, i);
      assert names[1..][i - 1] == names[i];
    } else if IsConfigName(names[0]) {
      assert more[0] == 0;
    }
  }

  lemma ShiftedPath(dir: string, names: seq<string>, i: nat, path: string)
    requires names != [] && IsPathOf(dir, names[1..], i, path)
    ensures IsPathOf(dir, names, i + 1, path)
  {
  }

  // The first name of a folder is not a configuration file, or it is one.
  lemma PicksSkip(dir: string, names: seq<string>, paths: seq<string>, picked: seq<nat>)
    requires names != [] && !IsConfigName(names[0]) && Picks(dir, names[1..], paths, picked)
    ensures Picks(dir, names, paths, Shifted(picked))
  {
    forall j | 0 <= j < |paths| ensures IsPathOf(dir, names, Shifted(picked)[j], paths[j]) {
      ShiftedPath(dir, names, picked[j], paths[j]);
    }
    forall i | 0 <= i < |names| ensures IsRightlyPicked(names, Shifted(picked), i) {
      ShiftedIsRight(names, picked, Shifted(picked), i);
    }
  }

  lemma PicksTake(dir: string, names: seq<string>, paths: seq<string>, picked: seq<nat>, first: string)
    requires names != [] && IsConfigName(names[0]) && Picks(dir, names[1..], paths, picked)
    requires IsPathOf(dir, names, 0, first)
    ensures Picks(dir, names, [first] + paths, [0] + Shifted(picked))
  {
    var all, more := [first] + paths, [0] + Shifted(picked);
    forall j | 0 <= j < |all| ensures IsPathOf(dir, names, more[j], all[j]) {
      if j > 0 {
        ShiftedPath(dir, names, picked[j - 1], paths[j - 1]);
      }
    }
    forall i | 0 <= i < |names| ensures IsRightlyPicked(names, more, i) {
      ShiftedIsRight(names, picked, more, i);
    }
  }

  lemma {:induction false} ListingPicks(dir: string, names: seq<string>) returns (picked: seq<nat>)
    ensures Picks(dir, names, Listing(dir, names), picked)
  {
    if names == [] {
      picked := [];
    } else {
      var rest := ListingPicks(dir, names[1..]);
      NameIsConfig(names[0]);
      if IsConfigName(names[0]) {
        PicksTake(dir, names, Listing(dir, names[1..]), rest, dir + "/" + names[0]);
        picked := [0] + Shifted(rest);
      } else {
        PicksSkip(dir, names, Listing(dir, names[1..]), rest);
        picked := Shifted(rest);
      }
    }
  }

  /** The listing of a folder are exactly its files that end in `.env` or `.toml`, in the order of the names. */
  lemma {:induction false} ListingIsExact(dir: string, names: seq<string>)
    ensures AreFilesOf(dir, names, Listing(dir, names))
    ensures forall g :: g in Listing(dir, names) <==>
              exists i :: 0 <= i < |names| && IsConfigName(names[i]) && g == dir + "/" + names[i]
  {
    var picked := ListingPicks(dir, names);
    var paths := Listing(dir, names);
    forall i | 0 <= i < |names| && IsConfigName(names[i]) ensures dir + "/" + names[i] in paths {
      assert IsRightlyPicked(names, picked, i);
      var j :| 0 <= j < |picked| && picked[j] == i;
      assert IsPathOf(dir, names, i, paths[j]);
    }
    forall j | 0 <= j < |paths|
      ensures exists i :: 0 <= i < |names| && IsConfigName(names[i]) && paths[j] == dir + "/" + names[i]
    {
      assert IsPathOf(dir, names, picked[j], paths[j]);
      assert IsRightlyPicked(names, picked, picked[j]) && picked[j] in picked;
    }
  }

  // ---------- The tree of a file ----------

  // The tree below a file: one subtree for each import, in order, and then the content of the file itself without its
  // list of imports. A key `__imports__` that is no list is an ordinary setting.
  ghost predicate IsFileTree(fs: Disk, path: string, tree: Tree)
    decreases tree, 0
  {
    && path in fs && fs[path].File? && fs[path].content.Some? && fs[path].content.value.Table?
    && tree.Node?
    && var fields := fs[path].content.value.fields;
       if "__imports__" in fields && fields["__imports__"].Array? then
         var imports := fields["__imports__"].items;
         && |tree.children| == |imports| + 1
         && tree.children[|imports|] == Leaf(Table(map key | key in fields && key != "__imports__" :: fields[key]))
         && forall i :: 0 <= i < |imports| ==>
              imports[i].Text? && IsImportTree(fs, imports[i].text, tree.children[i])
       else
         tree.children == [Leaf(fs[path].content.value)]
  }

  // The tree below an import: nothing if it does not exist, a file, or the files of a folder.
  ghost predicate IsImportTree(fs: Disk, path: string, tree: Tree)
    decreases tree, 1
  {
    if path !in fs then tree == Node([])
    else if fs[path].File? then IsFileTree(fs, path, tree)
    else tree.Node? && exists paths :: AreFilesOf(path, fs[path].names, paths) && AreFileTrees(fs, paths, tree)
  }

  ghost predicate AreFileTrees(fs: Disk, paths: seq<string>, tree: Tree)
    decreases tree, 0
  {
    && tree.Node? && |tree.children| == |paths|
    && forall i :: 0 <= i < |paths| ==> IsFileTree(fs, paths[i], tree.children[i])
  }

  // The subtrees of a list of imports.
  ghost predicate AreImportTrees(fs: Disk, imports: seq<Value>, tree: Tree) {
    && tree.Node? && |tree.children| == |imports|
    && forall i :: 0 <= i < |imports| ==> imports[i].Text? && IsImportTree(fs, imports[i].text, tree.children[i])
  }

  lemma {:induction false} FileIsOnDisk(fs: Disk, stack: seq<string>, path: string)
    requires LoadConfigFile(fs, stack, path).Loaded?
    ensures IsFileTree(fs, path, LoadConfigFile(fs, stack, path).tree)
    decreases Pending(fs, stack), 0, 0
  {
    var content := fs[path].content.value;
    PushShrinks(fs, stack, path);
    ImportsAreOnDisk(fs, stack + [path], Imports(content));
    var imports := LoadImports(fs, stack + [path], Imports(content)).tree;
    var tree := LoadConfigFile(fs, stack, path).tree;
    assert tree.children == imports.children + [Leaf(Own(content))];
    if "__imports__" in content.fields && content.fields["__imports__"].Array? {
      assert Own(content).fields == map key | key in content.fields && key != "__imports__" :: content.fields[key];
      forall i | 0 <= i < |Imports(content)|
        ensures IsImportTree(fs, Imports(content)[i].text, tree.children[i])
      {
        assert tree.children[i] == imports.children[i];
      }
    }
  }

  lemma {:induction false} ImportsAreOnDisk(fs: Disk, stack: seq<string>, imports: seq<Value>)
    requires forall i :: 0 <= i < |imports| ==> imports[i].Text?
    requires LoadImports(fs, stack, imports).Loaded?
    ensures AreImportTrees(fs, imports, LoadImports(fs, stack, imports).tree)
    decreases Pending(fs, stack), 3, |imports|
  {
    if imports != [] {
      var n := |imports| - 1;
      ImportsAreOnDisk(fs, stack, imports[..n]);
      ImportIsOnDisk(fs, stack, imports[n].text);
      MoreImportTrees(fs, imports, LoadImports(fs, stack, imports[..n]).tree,
                      LoadImport(fs, stack, imports[n].text).tree);
    }
  }

  lemma {:induction false} MoreImportTrees(fs: Disk, imports: seq<Value>, before: Tree, last: Tree)
    requires imports != [] && imports[|imports| - 1].Text?
    requires AreImportTrees(fs, imports[..|imports| - 1], before)
    requires IsImportTree(fs, imports[|imports| - 1].text, last)
    ensures AreImportTrees(fs, imports, Append(before, last))
  {
    forall i | 0 <= i < |imports|
      ensures imports[i].Text? && IsImportTree(fs, imports[i].text, Append(before, last).children[i])
    {
      if i < |imports| - 1 {
        assert imports[..|imports| - 1][i] == imports[i];
      }
    }
  }

  lemma {:induction false} ImportIsOnDisk(fs: Disk, stack: seq<string>, path: string)
    requires LoadImport(fs, stack, path).Loaded?
    ensures IsImportTree(fs, path, LoadImport(fs, stack, path).tree)
    decreases Pending(fs, stack), 2, 0
  {
    if path in fs && fs[path].Dir? {
      PushKeeps(fs, stack, path);
      ListingIsExact(path, fs[path].names);
      FolderIsOnDisk(fs, stack + [path], Listing(path, fs[path].names));
    } else if path in fs {
      FileIsOnDisk(fs, stack, path);
    }
  }

  lemma {:induction false} FolderIsOnDisk(fs: Disk, stack: seq<string>, paths: seq<string>)
    requires LoadConfigFolder(fs, stack, paths).Loaded?
    ensures AreFileTrees(fs, paths, LoadConfigFolder(fs, stack, paths).tree)
    decreases Pending(fs, stack), 1, |paths|
  {
    if paths != [] {
      var n := |paths| - 1;
      FolderIsOnDisk(fs, stack, paths[..n]);
      FileIsOnDisk(fs, stack, paths[n]);
      MoreFileTrees(fs, paths, LoadConfigFolder(fs, stack, paths[..n]).tree, LoadConfigFile(fs, stack, paths[n]).tree);
    }
  }

  lemma {:induction false} MoreFileTrees(fs: Disk, paths: seq<string>, before: Tree, last: Tree)
    requires paths != [] && AreFileTrees(fs, paths[..|paths| - 1], before)
    requires IsFileTree(fs, paths[|paths| - 1], last)
    ensures AreFileTrees(fs, paths, Append(before, last))
  {
    forall i | 0 <= i < |paths| ensures IsFileTree(fs, paths[i], Append(before, last).children[i]) {
      if i < |paths| - 1 {
        assert paths[..|paths| - 1][i] == paths[i];
      }
    }
  }

  // ---------- The tree is determined by the disk ----------

  lemma {:induction false} AscendingAgree(p: seq<nat>, q: seq<nat>)
    requires forall j, k :: 0 <= j < k < |p| ==> p[j] < p[k]
    requires forall j, k :: 0 <= j < k < |q| ==> q[j] < q[k]
    requires forall i: nat :: i in p <==> i in q
    ensures p == q
  {
    assert q != [] ==> q[0] in p;
    if p != [] {
      assert p[|p| - 1] in q;
      var m, n := |p| - 1, |q| - 1;
      assert p[m] == q[n] by {
        assert p[m] in q && q[n] in p;
      }
      forall i: nat ensures i in p[..m] <==> i in q[..n] {
        assert i in p[..m] <==> i in p && i != p[m];
        assert i in q[..n] <==> i in q && i != q[n];
      }
      AscendingAgree(p[..m], q[..n]);
    }
  }

  lemma FilesOfFolderAgree(dir: string, names: seq<string>, paths: seq<string>, others: seq<string>)
    requires AreFilesOf(dir, names, paths) && AreFilesOf(dir, names, others)
    ensures paths == others
  {
    var p :| Picks(dir, names, paths, p);
    var q :| Picks(dir, names, others, q);
    forall i: nat ensures i in p <==> i in q {
      if i < |names| {
        assert IsRightlyPicked(names, p, i) && IsRightlyPicked(names, q, i);
      }
    }
    AscendingAgree(p, q);
    forall j | 0 <= j < |paths| ensures paths[j] == others[j] {
      assert IsPathOf(dir, names, p[j], paths[j]) && IsPathOf(dir, names, q[j], others[j]);
    }
  }

  lemma {:induction false} FileTreesAgree(fs: Disk, path: string, tree: Tree, other: Tree)
    requires IsFileTree(fs, path, tree) && IsFileTree(fs, path, other)
    ensures tree == other
    decreases tree, 0
  {
    var fields := fs[path].content.value.fields;
    if "__imports__" in fields && fields["__imports__"].Array? {
      var imports := fields["__imports__"].items;
      forall i | 0 <= i < |imports| ensures tree.children[i] == other.children[i] {
        ImportTreesAgree(fs, imports[i].text, tree.children[i], other.children[i]);
      }
      assert tree.children == other.children;
    }
  }

  lemma {:induction false} ImportTreesAgree(fs: Disk, path: string, tree: Tree, other: Tree)
    requires IsImportTree(fs, path, tree) && IsImportTree(fs, path, other)
    ensures tree == other
    decreases tree, 1
  {
    if path in fs && fs[path].File? {
      FileTreesAgree(fs, path, tree, other);
    } else if path in fs {
      var paths :| AreFilesOf(path, fs[path].names, paths) && AreFileTrees(fs, paths, tree);
      var others :| AreFilesOf(path, fs[path].names, others) && AreFileTrees(fs, others, other);
      FilesOfFolderAgree(path, fs[path].names, paths, others);
      forall i | 0 <= i < |paths| ensures tree.children[i] == other.children[i] {
        FileTreesAgree(fs, paths[i], tree.children[i], other.children[i]);
      }
      assert tree.children == other.children;
    }
  }

  /** What the loader finds is the one tree that lies on disk below the root, whatever is on its stack, and the value is
      the merge of this tree. */
  lemma {:induction false} LoadedTreeIsOnDisk(fs: Disk, root: string, tree: Tree)
    requires LoadConfigFile(fs, [], root).Loaded?
    ensures IsFileTree(fs, root, tree) <==> tree == LoadConfigFile(fs, [], root).tree
    ensures LoadConfigFile(fs, [], root).value == Nested(LoadConfigFile(fs, [], root).tree)
  {
    FileIsOnDisk(fs, [], root);
    FileIsNested(fs, [], root);
    if IsFileTree(fs, root, tree) {
      FileTreesAgree(fs, root, tree, LoadConfigFile(fs, [], root).tree);
    }
  }

  // ---------- The order of the files ----------

  lemma {:induction false} FilesOfAllAppend(trees: seq<Tree>, more: seq<Tree>)
    ensures FilesOfAll(trees + more) == FilesOfAll(trees) + FilesOfAll(more)
  {
    if more == [] {
      assert trees + more == trees;
    } else {
      var init, last := more[..|more| - 1], more[|more| - 1];
      FilesOfAllAppend(trees, init);
      var all := trees + more;
      assert all[..|all| - 1] == trees + init && all[|all| - 1] == last;
      assert FilesOfAll(all) == FilesOfAll(trees + init) + Files(last);
    }
  }

  /** The files of a tree are in depth-first post-order: the files of one subtree after those of the one before it, and
      a file on its own is its content. */
  lemma {:induction false} FilesAreInOrder(own: Value, tree: Tree, before: seq<Tree>, after: seq<Tree>)
    ensures Files(Leaf(own)) == [own] && Files(Node([])) == []
    ensures Files(Node(before + [tree] + after)) == Files(Node(before)) + Files(tree) + Files(Node(after))
  {
    FilesOfAllAppend(before, [tree]);
    FilesOfAllAppend(before + [tree], after);
    assert [tree][..0] == [];
    assert FilesOfAll([tree]) == Files(tree);
  }

  // ---------- Which file imports which ----------

  // A file that parses to a table, whose list of imports, if it has one, holds nothing but paths.
  ghost predicate IsReadable(fs: Disk, path: string) {
    && path in fs && fs[path].File? && fs[path].content.Some? && fs[path].content.value.Table?
    && var fields := fs[path].content.value.fields;
       "__imports__" in fields && fields["__imports__"].Array? ==>
         forall i :: 0 <= i < |fields["__imports__"].items| ==> fields["__imports__"].items[i].Text?
  }

  // An import of path `p` loads the file `g`.
  ghost predicate LeadsTo(fs: Disk, p: string, g: string) {
    && p in fs
    && if fs[p].File? then g == p
       else exists i :: 0 <= i < |fs[p].names| && IsConfigName(fs[p].names[i]) && g == p + "/" + fs[p].names[i]
  }

  ghost predicate HasImport(fs: Disk, f: string, p: string)
    requires IsReadable(fs, f)
  {
    var fields := fs[f].content.value.fields;
    "__imports__" in fields && fields["__imports__"].Array? && Text(p) in fields["__imports__"].items
  }

  lemma TargetsOfAre(fs: Disk, p: string, g: string)
    ensures g in TargetsOf(fs, p) <==> LeadsTo(fs, p, g)
  {
    if p in fs && fs[p].Dir? {
      ListingIsExact(p, fs[p].names);
    }
  }

  lemma {:induction false} TargetsAre(fs: Disk, imports: seq<Value>, g: string)
    requires forall i :: 0 <= i < |imports| ==> imports[i].Text?
    ensures g in Targets(fs, imports) <==> exists p :: Text(p) in imports && LeadsTo(fs, p, g)
  {
    if imports != [] {
      var before, last := imports[..|imports| - 1], imports[|imports| - 1];
      TargetsAre(fs, before, g);
      TargetsOfAre(fs, last.text, g);
      assert forall p :: Text(p) in imports <==> Text(p) in before || p == last.text;
    }
  }

  /** The steps of an import chain: a readable file lists a path, and the path is that of the next file or of a folder
      that holds it. */
  lemma ImportsFileIff(fs: Disk, f: string, g: string)
    ensures Loadable(fs, f) <==> IsReadable(fs, f)
    ensures ImportsFile(fs, f, g) <==> IsReadable(fs, f) && exists p :: HasImport(fs, f, p) && LeadsTo(fs, p, g)
  {
    if Loadable(fs, f) {
      TargetsAre(fs, Imports(fs[f].content.value), g);
    }
  }
}
