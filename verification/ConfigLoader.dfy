/**
 The recursive loader of configuration files with imports (infrastructure/via/src/config.ts:10-63).
 */
module ConfigLoader {
  import opened Wrappers
  import opened ConfigMerge
  import opened ConfigNesting

  // A path below `etc/env`. The content of a file is `None` if it does not parse.
  datatype Entry = File(content: Option<Value>) | Dir(names: seq<string>)
  type Disk = map<string, Entry>

  // Every failure ends the process.
  datatype Failure = Cyclic(path: string) | NotFound(path: string) | Unreadable(path: string)

  // A loaded configuration, with what was merged into it.
  datatype Outcome = Loaded(value: Value, tree: Tree) | Exit(failure: Failure)

  // Nothing, as the start of a list of imports.
  const NOTHING: Outcome := Loaded(EMPTY_TABLE, Node([]))

  const IMPORTS: string := "__imports__"

  // The list of imports, if there is one.
  function Imports(content: Value): seq<Value> {
    if content.Table? && IMPORTS in content.fields && content.fields[IMPORTS].Array?
    then content.fields[IMPORTS].items else []
  }

  // The content without its list of imports; a key `__imports__` that is no list stays.
  function Own(content: Value): Value {
    if content.Table? && IMPORTS in content.fields && content.fields[IMPORTS].Array?
    then Table(content.fields - {IMPORTS}) else content
  }

  // A file that can be read and parsed, with paths as its imports.
  predicate Loadable(fs: Disk, path: string) {
    && path in fs && fs[path].File? && fs[path].content.Some?
    && fs[path].content.value.Table?
    && forall i :: 0 <= i < |Imports(fs[path].content.value)| ==> Imports(fs[path].content.value)[i].Text?
  }

  predicate EndsWith(s: string, suffix: string) {
    |suffix| <= |s| && s[|s| - |suffix|..] == suffix
  }

  // The configuration files of a folder, in the order of the listing.
  function Listing(dir: string, names: seq<string>): seq<string> {
    if names == [] then []
    else
      var rest := Listing(dir, names[1..]);
      if EndsWith(names[0], ".env") || EndsWith(names[0], ".toml") then [dir + "/" + names[0]] + rest else rest
  }

  // ---------- The loader ----------

  ghost function Pending(fs: Disk, stack: seq<string>): set<string> {
    fs.Keys - set p | p in stack
  }

  function LoadConfigFile(fs: Disk, stack: seq<string>, path: string): Outcome
    decreases Pending(fs, stack), 0, 0
  {
    if path in stack then Exit(Cyclic(path))
    else if path !in fs then Exit(NotFound(path))
    else if !Loadable(fs, path) then Exit(Unreadable(path))
    else
      var content := fs[path].content.value;
      PushShrinks(fs, stack, path);
      match LoadImports(fs, stack + [path], Imports(content))
      case Exit(f) => Exit(f)
      case Loaded(imports, tree) => Loaded(Merge(imports, Own(content)), Append(tree, Leaf(Own(content))))
  }

  // `deepExtend({}, ...)` of the imports, in order; an import that does not exist counts as empty.
  function LoadImports(fs: Disk, stack: seq<string>, imports: seq<Value>): Outcome
    requires forall i :: 0 <= i < |imports| ==> imports[i].Text?
    decreases Pending(fs, stack), 3, |imports|
  {
    if imports == [] then NOTHING
    else
      match LoadImports(fs, stack, imports[..|imports| - 1])
      case Exit(f) => Exit(f)
      case Loaded(before, tree) =>
        match LoadImport(fs, stack, imports[|imports| - 1].text)
        case Exit(f) => Exit(f)
        case Loaded(value, next) => Loaded(Merge(before, value), Append(tree, next))
  }

  function LoadImport(fs: Disk, stack: seq<string>, path: string): Outcome
    decreases Pending(fs, stack), 2, 0
  {
    if path !in fs then NOTHING
    else if fs[path].Dir? then
      PushKeeps(fs, stack, path);
      LoadConfigFolder(fs, stack + [path], Listing(path, fs[path].names))
    else LoadConfigFile(fs, stack, path)
  }

  // The files of a folder, whose path is already on the stack.
  function LoadConfigFolder(fs: Disk, stack: seq<string>, paths: seq<string>): Outcome
    decreases Pending(fs, stack), 1, |paths|
  {
    if paths == [] then NOTHING
    else
      match LoadConfigFolder(fs, stack, paths[..|paths| - 1])
      case Exit(f) => Exit(f)
      case Loaded(before, tree) =>
        match LoadConfigFile(fs, stack, paths[|paths| - 1])
        case Exit(f) => Exit(f)
        case Loaded(value, next) => Loaded(Merge(before, value), Append(tree, next))
  }

  lemma PushShrinks(fs: Disk, stack: seq<string>, path: string)
    requires path in fs && path !in stack
    ensures Pending(fs, stack + [path]) < Pending(fs, stack)
  {
    assert path in Pending(fs, stack) && path !in Pending(fs, stack + [path]);
  }

  lemma PushKeeps(fs: Disk, stack: seq<string>, path: string)
    ensures Pending(fs, stack + [path]) <= Pending(fs, stack)
  {
  }
}
