/**
 The loader as it runs: one stack shared by all recursive calls, pushed and popped in place
 (infrastructure/via/src/config.ts:10-63).
 */
module ConfigLoading {
  import opened ConfigMerge
  import opened ConfigNesting
  import opened ConfigLoader
  import opened ConfigTrees

  class LoaderRun {
    const fs: Disk
    var stack: seq<string>

    constructor (fs: Disk)
      ensures this.fs == fs && stack == []
    {
      this.fs := fs;
      stack := [];
    }

    /** Computes the outcome of the recursive definition and, unless the process ends, leaves the shared stack
        as it was and has read the tree of files that lies on disk below the path. */
    method LoadConfigFile(configPath: string) returns (r: Outcome)
      modifies this
      ensures r == ConfigLoader.LoadConfigFile(fs, old(stack), configPath)
      ensures r.Loaded? ==> stack == old(stack) && IsFileTree(fs, configPath, r.tree)
      decreases Pending(fs, stack), 0
    {
      if configPath in stack {
        return Exit(Cyclic(configPath));
      }
      ghost var before := stack;
      stack := stack + [configPath];
      if configPath !in fs {
        return Exit(NotFound(configPath));
      }
      if !Loadable(fs, configPath) {
        return Exit(Unreadable(configPath));
      }
      PushShrinks(fs, before, configPath);
      var config := fs[configPath].content.value;
      var imports := Imports(config);
      r := NOTHING;
      for i := 0 to |imports|
        invariant stack == before + [configPath]
        invariant r.Loaded? && r == LoadImports(fs, stack, imports[..i])
      {
        var imported := LoadImported(imports[i].text);
        assert imports[..i + 1][..i] == imports[..i];
        if imported.Exit? {
          ImportsStop(fs, before + [configPath], imports, i + 1);
          return imported;
        }
        r := Loaded(Merge(r.value, imported.value), Append(r.tree, imported.tree));
      }
      assert imports[..|imports|] == imports;
      stack := stack[..|stack| - 1];
      r := Loaded(Merge(r.value, Own(config)), Append(r.tree, Leaf(Own(config))));
      FileIsOnDisk(fs, before, configPath);
    }

    // One entry of the list of imports: nothing, a folder, or a file.
    method LoadImported(importPath: string) returns (r: Outcome)
      modifies this
      ensures r == LoadImport(fs, old(stack), importPath)
      ensures r.Loaded? ==> stack == old(stack)
      decreases Pending(fs, stack), 2
    {
      if importPath !in fs {
        r := NOTHING;
      } else if fs[importPath].Dir? {
        r := LoadConfigFolder(importPath);
      } else {
        r := LoadConfigFile(importPath);
      }
    }

    method LoadConfigFolder(dirPath: string) returns (r: Outcome)
      requires dirPath in fs && fs[dirPath].Dir?
      modifies this
      ensures r == LoadImport(fs, old(stack), dirPath)
      ensures r.Loaded? ==> stack == old(stack) && IsImportTree(fs, dirPath, r.tree)
      decreases Pending(fs, stack), 1
    {
      ghost var before := stack;
      PushKeeps(fs, before, dirPath);
      stack := stack + [dirPath];
      var paths := Listing(dirPath, fs[dirPath].names);
      r := NOTHING;
      for i := 0 to |paths|
        invariant stack == before + [dirPath]
        invariant r.Loaded? && r == ConfigLoader.LoadConfigFolder(fs, stack, paths[..i])
      {
        var config := LoadConfigFile(paths[i]);
        assert paths[..i + 1][..i] == paths[..i];
        if config.Exit? {
          FolderStops(fs, before + [dirPath], paths, i + 1);
          return config;
        }
        r := Loaded(Merge(r.value, config.value), Append(r.tree, config.tree));
      }
      assert paths[..|paths|] == paths;
      stack := stack[..|stack| - 1];
      ImportIsOnDisk(fs, before, dirPath);
    }
  }

  // After the first failure the rest of a list is not looked at.
  lemma {:induction false} ImportsStop(fs: Disk, stack: seq<string>, imports: seq<Value>, n: nat)
    requires forall i :: 0 <= i < |imports| ==> imports[i].Text?
    requires n <= |imports| && LoadImports(fs, stack, imports[..n]).Exit?
    ensures LoadImports(fs, stack, imports) == LoadImports(fs, stack, imports[..n])
    decreases |imports|
  {
    if n == |imports| {
      assert imports[..n] == imports;
    } else {
      assert imports[..|imports| - 1][..n] == imports[..n];
      ImportsStop(fs, stack, imports[..|imports| - 1], n);
    }
  }

  lemma {:induction false} FolderStops(fs: Disk, stack: seq<string>, paths: seq<string>, n: nat)
    requires n <= |paths| && ConfigLoader.LoadConfigFolder(fs, stack, paths[..n]).Exit?
    ensures ConfigLoader.LoadConfigFolder(fs, stack, paths) == ConfigLoader.LoadConfigFolder(fs, stack, paths[..n])
    decreases |paths|
  {
    if n == |paths| {
      assert paths[..n] == paths;
    } else {
      assert paths[..|paths| - 1][..n] == paths[..n];
      FolderStops(fs, stack, paths[..|paths| - 1], n);
    }
  }
}
