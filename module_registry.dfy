/** The module registry (pkg/module/manager.go): modules are loaded from a
    script whose `export_`-prefixed commands become the exports, and kept in a
    map keyed by the path the caller asked for. The file system probing is a
    parameter (`ModuleFs`). */
module ModuleRegistry {
  import opened Wrappers
  import opened Ast
  import Parser
  import Environment

  /** A loaded module. Go's `Imports` map is never filled and is left out. */
  datatype Module = Module(name: string, path: string, exports: map<string, CommandNode>, isLoaded: bool)

  datatype ModuleInfo = ModuleInfo(name: string, version: string, description: string, main: string, exports: map<string, string>)

  /** What the file system answers while a module is loaded. */
  datatype ModuleFs = ModuleFs(
    resolve: string -> Option<string>,        // resolveModulePath: the absolute path, or not found
    pathExists: string -> bool,               // os.Stat of the resolved path
    fileExists: string -> bool,               // os.Stat of an entry-point candidate
    readFile: string -> Result<string, string>,
    clean: string -> string)                  // filepath.Clean

  const ExportPrefix := "export_"

  predicate HasExportPrefix(name: string) {
    |name| >= |ExportPrefix| && name[..|ExportPrefix|] == ExportPrefix
  }

  /** The export name a command declares, if it declares one. */
  function ExportName(n: Node): (r: Option<string>)
    ensures r.Some? <==> n.Command? && HasExportPrefix(n.cmd.name)
    ensures r.Some? ==> ExportPrefix + r.value == n.cmd.name
  {
    if n.Command? && HasExportPrefix(n.cmd.name) then Some(n.cmd.name[|ExportPrefix|..]) else None
  }

  /** The exports map after the extraction loop has run over `nodes`. */
  function ExportsOf(exports: map<string, CommandNode>, nodes: seq<Node>): map<string, CommandNode>
    decreases |nodes|
  {
    if nodes == [] then exports
    else
      var m := ExportsOf(exports, nodes[..|nodes| - 1]);
      var last := nodes[|nodes| - 1];
      match ExportName(last)
      case None => m
      case Some(k) => m[k := last.cmd]
  }

  /** `loadScriptExports`, after the script is read and parsed: every command
      whose name starts with "export_" is stored under the rest of its name. */
  method ExtractExports(exports0: map<string, CommandNode>, nodes: seq<Node>) returns (exports: map<string, CommandNode>)
    ensures exports == ExportsOf(exports0, nodes)
  {
    exports := exports0;
    var i := 0;
    while i < |nodes|
      invariant 0 <= i <= |nodes|
      invariant exports == ExportsOf(exports0, nodes[..i])
    {
      assert nodes[..i + 1][..i] == nodes[..i];
      var node := nodes[i];
      if node.Command? {
        if |node.cmd.name| >= 7 && node.cmd.name[..7] == "export_" {
          exports := exports[node.cmd.name[7..] := node.cmd];
        }
      }
      i := i + 1;
    }
    assert nodes[..i] == nodes;
  }

  /** The export stored under `k` comes from the LAST command named
      "export_" + k; without such a command there is no export `k`. */
  lemma {:induction false} ExportsOfLastWins(nodes: seq<Node>, k: string)
    ensures k in ExportsOf(map[], nodes) <==>
      exists j | 0 <= j < |nodes| :: nodes[j].Command? && nodes[j].cmd.name == ExportPrefix + k
    ensures k in ExportsOf(map[], nodes) ==>
      exists j | 0 <= j < |nodes| ::
        && nodes[j].Command? && nodes[j].cmd.name == ExportPrefix + k
        && ExportsOf(map[], nodes)[k] == nodes[j].cmd
        && forall j' | j < j' < |nodes| :: !(nodes[j'].Command? && nodes[j'].cmd.name == ExportPrefix + k)
    decreases |nodes|
  {
    if nodes != [] {
      var init := nodes[..|nodes| - 1];
      var last := nodes[|nodes| - 1];
      ExportsOfLastWins(init, k);
      assert forall j | 0 <= j < |init| :: init[j] == nodes[j];
      if last.Command? && last.cmd.name == ExportPrefix + k {
        assert ExportName(last) == Some(k) by {
          assert last.cmd.name[..|ExportPrefix|] == ExportPrefix;
          assert last.cmd.name[|ExportPrefix|..] == k;
        }
      } else if ExportName(last).Some? {
        assert ExportName(last).value != k;
      }
    }
  }

  /** `filepath.Base` on Unix: the last element, trailing slashes removed;
      "." for the empty path and "/" for a path of slashes only. */
  function Base(p: string): (b: string)
    ensures b != ""
  {
    if p == "" then "."
    else
      var q := StripTrailingSlashes(p);
      if q == "" then "/" else AfterLastSlash(q)
  }

  function StripTrailingSlashes(p: string): (q: string)
    ensures |q| <= |p| && q == p[..|q|]
    ensures q == "" || q[|q| - 1] != '/'
    decreases |p|
  {
    if p != "" && p[|p| - 1] == '/' then StripTrailingSlashes(p[..|p| - 1]) else p
  }

  function AfterLastSlash(q: string): (r: string)
    requires q != "" && q[|q| - 1] != '/'
    ensures r != "" && '/' !in r && |r| <= |q| && r == q[|q| - |r|..]
    decreases |q|
  {
    if |q| == 1 || q[|q| - 2] == '/' then [q[|q| - 1]]
    else AfterLastSlash(q[..|q| - 1]) + [q[|q| - 1]]
  }

  /** An entry-point candidate inside the module directory: `filepath.Join`. */
  function EntryPath(fs: ModuleFs, dir: string, file: string): string {
    Environment.JoinPath(fs.clean, dir, file)
  }

  /** What `loadModuleExports` makes of a new module: the exports of
      `index.sh` when it exists, else those of `<name>.sh`, else an error. */
  function EntryLoad(mod: Module, fs: ModuleFs): (r: Result<Module, string>)
    ensures var index := EntryPath(fs, mod.path, "index.sh");
      fs.fileExists(index) ==> r == LoadedFrom(mod, index, fs)
    ensures var index, own := EntryPath(fs, mod.path, "index.sh"), EntryPath(fs, mod.path, mod.name + ".sh");
      !fs.fileExists(index) && fs.fileExists(own) ==> r == LoadedFrom(mod, own, fs)
    ensures var index, own := EntryPath(fs, mod.path, "index.sh"), EntryPath(fs, mod.path, mod.name + ".sh");
      !fs.fileExists(index) && !fs.fileExists(own) ==> r == Err("no module entry point found in " + mod.path)
  {
    var index := EntryPath(fs, mod.path, "index.sh");
    var own := EntryPath(fs, mod.path, mod.name + ".sh");
    if fs.fileExists(index) then LoadedFrom(mod, index, fs)
    else if fs.fileExists(own) then LoadedFrom(mod, own, fs)
    else Err("no module entry point found in " + mod.path)
  }

  /** The new, empty module for a resolved path. */
  function NewModule(absPath: string): Module {
    Module(Base(absPath), absPath, map[], false)
  }

  /** `LoadModule` for a path that is not loaded yet: resolve it, check it
      exists, load the entry script's exports and mark the module loaded. */
  function FreshLoad(path: string, fs: ModuleFs): (r: Result<Module, string>)
    ensures r.Ok? <==>
      && fs.resolve(path).Some? && fs.pathExists(fs.resolve(path).value)
      && EntryLoad(NewModule(fs.resolve(path).value), fs).Ok?
    ensures r.Ok? ==>
      && r == Ok(EntryLoad(NewModule(fs.resolve(path).value), fs).value.(isLoaded := true))
      && r.value.path == fs.resolve(path).value && r.value.name == Base(r.value.path)
    ensures (fs.resolve(path).None? || !fs.pathExists(fs.resolve(path).value)) ==> r == Err("module not found: " + path)
  {
    match fs.resolve(path)
    case None => Err("module not found: " + path)
    case Some(absPath) =>
      if !fs.pathExists(absPath) then Err("module not found: " + path)
      else
        match EntryLoad(NewModule(absPath), fs)
        case Err(e) => Err(e)
        case Ok(m) => Ok(m.(isLoaded := true))
  }

  /** Looking a path up in the registry: only a stored, loaded module is found. */
  function Find(modules: map<string, Module>, path: string): (r: Result<Module, string>)
    ensures r.Ok? <==> path in modules && modules[path].isLoaded
    ensures r.Ok? ==> r.value == modules[path]
    ensures r.Err? ==> r.error == "module not loaded: " + path
  {
    if path in modules && modules[path].isLoaded then Ok(modules[path])
    else Err("module not loaded: " + path)
  }

  /** `GetExport`'s lookup inside a module: the exact key, then key + "()". */
  function LookupExport(m: Module, modulePath: string, exportName: string): (r: Result<CommandNode, string>)
    ensures r.Ok? <==> exportName in m.exports || exportName + "()" in m.exports
    ensures exportName in m.exports ==> r == Ok(m.exports[exportName])
    ensures exportName !in m.exports && exportName + "()" in m.exports ==> r == Ok(m.exports[exportName + "()"])
    ensures r.Err? ==> r.error == "export " + exportName + " not found in module " + modulePath
  {
    if exportName in m.exports then Ok(m.exports[exportName])
    else if exportName + "()" in m.exports then Ok(m.exports[exportName + "()"])
    else Err("export " + exportName + " not found in module " + modulePath)
  }

  /** The module after its script at `scriptPath` is read and its exports
      extracted; a read failure is reported, a parse never fails. */
  function LoadedFrom(mod: Module, scriptPath: string, fs: ModuleFs): (r: Result<Module, string>)
    ensures fs.readFile(scriptPath).Err? ==> r == Err("failed to read module script: " + fs.readFile(scriptPath).error)
    ensures fs.readFile(scriptPath).Ok? ==>
      r.Ok? && r.value.name == mod.name && r.value.path == mod.path && r.value.isLoaded == mod.isLoaded
  {
    match fs.readFile(scriptPath)
    case Err(e) => Err("failed to read module script: " + e)
    case Ok(text) => Ok(mod.(exports := ExportsOf(mod.exports, Parser.ParseLines(Parser.SplitLines(text)))))
  }

  /** The registered paths whose module is loaded. */
  function LoadedKeys(modules: map<string, Module>): set<string> {
    set p | p in modules && modules[p].isLoaded
  }

  /** Taking one key off the to-do set adds it to the loaded keys done iff
      its module is loaded. */
  lemma LoadedStep(modules: map<string, Module>, todo: set<string>, p: string)
    requires p in todo && p in modules
    ensures |LoadedKeys(modules) - (todo - {p})| ==
      |LoadedKeys(modules) - todo| + (if modules[p].isLoaded then 1 else 0)
  {
    if modules[p].isLoaded {
      assert LoadedKeys(modules) - (todo - {p}) == (LoadedKeys(modules) - todo) + {p};
    } else {
      assert LoadedKeys(modules) - (todo - {p}) == LoadedKeys(modules) - todo;
    }
  }

  class ModuleManager {
    var modules: map<string, Module>

    constructor ()
      ensures modules == map[]
    {
      modules := map[];
    }

    /** `LoadModule`. A path already loaded is answered from the registry
        without touching the file system; otherwise the module is resolved,
        its entry script (index.sh, else <name>.sh) parsed, its exports
        extracted, and it is stored loaded under the caller's path. */
    method LoadModule(path: string, fs: ModuleFs) returns (r: Result<Module, string>)
      modifies this
      ensures old(Find(modules, path)).Ok? ==> r == old(Find(modules, path)) && modules == old(modules)
      ensures old(Find(modules, path)).Err? ==> r == FreshLoad(path, fs)
      ensures r.Ok? ==> modules == old(modules)[path := r.value] && r.value.isLoaded
      ensures r.Err? ==> modules == old(modules)
    {
      if path in modules && modules[path].isLoaded {
        return Ok(modules[path]);
      }
      var resolved := fs.resolve(path);
      if resolved.None? {
        return Err("module not found: " + path);
      }
      var absPath := resolved.value;
      if !fs.pathExists(absPath) {
        return Err("module not found: " + path);
      }
      var mod := NewModule(absPath);
      var loaded := LoadModuleExports(mod, fs);
      if loaded.Err? {
        return Err(loaded.error);
      }
      mod := loaded.value.(isLoaded := true);
      modules := modules[path := mod];
      r := Ok(mod);
    }

    /** `loadModuleExports`: index.sh first, then <name>.sh, else an error. */
    method LoadModuleExports(mod: Module, fs: ModuleFs) returns (r: Result<Module, string>)
      ensures r == EntryLoad(mod, fs)
    {
      var indexPath := EntryPath(fs, mod.path, "index.sh");
      if fs.fileExists(indexPath) {
        r := LoadScriptExports(mod, indexPath, fs);
        return;
      }
      var moduleScriptPath := EntryPath(fs, mod.path, mod.name + ".sh");
      if fs.fileExists(moduleScriptPath) {
        r := LoadScriptExports(mod, moduleScriptPath, fs);
        return;
      }
      r := Err("no module entry point found in " + mod.path);
    }

    /** `loadScriptExports`: read, parse, extract. */
    method LoadScriptExports(mod: Module, scriptPath: string, fs: ModuleFs) returns (r: Result<Module, string>)
      ensures r == LoadedFrom(mod, scriptPath, fs)
    {
      var content := fs.readFile(scriptPath);
      if content.Err? {
        return Err("failed to read module script: " + content.error);
      }
      var script, err := Parser.ParseString(content.value);
      if err.Some? {
        // `ParseString` never reports an error, so Go's "failed to parse module
        // script" branch cannot be taken.
        assert false;
      }
      var exports := ExtractExports(mod.exports, script.nodes);
      r := Ok(mod.(exports := exports));
    }

    /** `Import`: the exports of the loaded module. */
    method Import(path: string, fs: ModuleFs) returns (r: Result<map<string, CommandNode>, string>)
      modifies this
      ensures old(Find(modules, path)).Ok? ==> r == Ok(old(Find(modules, path)).value.exports)
      ensures old(Find(modules, path)).Err? ==>
        && (r.Ok? <==> FreshLoad(path, fs).Ok?)
        && (r.Ok? ==> r.value == FreshLoad(path, fs).value.exports)
      ensures r.Ok? ==> path in modules && modules[path].isLoaded && r.value == modules[path].exports
    {
      var m := LoadModule(path, fs);
      if m.Err? {
        return Err(m.error);
      }
      r := Ok(m.value.exports);
    }

    function GetModule(path: string): Result<Module, string>
      reads this
    {
      Find(modules, path)
    }

    /** `ListModules`: the loaded modules, in map order. */
    method ListModules() returns (list: seq<Module>)
      ensures forall m | m in list :: m.isLoaded && exists p | p in modules :: modules[p] == m
      ensures forall p | p in modules && modules[p].isLoaded :: modules[p] in list
      ensures |list| == |LoadedKeys(modules)|
    {
      list := [];
      var todo := modules.Keys;
      while todo != {}
        invariant todo <= modules.Keys
        invariant forall m | m in list :: m.isLoaded && exists p | p in modules :: modules[p] == m
        invariant forall p | p in modules.Keys - todo && modules[p].isLoaded :: modules[p] in list
        invariant |list| == |LoadedKeys(modules) - todo|
        decreases todo
      {
        var p :| p in todo;
        LoadedStep(modules, todo, p);
        if modules[p].isLoaded {
          list := list + [modules[p]];
        }
        todo := todo - {p};
      }
    }

    /** `UnloadModule`: an unknown path is an error; otherwise only that key goes. */
    method UnloadModule(path: string) returns (err: Option<string>)
      modifies this
      ensures err.Some? <==> path !in old(modules)
      ensures err.Some? ==> err.value == "module not found: " + path && modules == old(modules)
      ensures err.None? ==> modules == old(modules) - {path}
    {
      if path !in modules {
        return Some("module not found: " + path);
      }
      modules := modules - {path};
      err := None;
    }

    method ClearModules()
      modifies this
      ensures modules == map[]
    {
      modules := map[];
    }

    function GetExport(modulePath: string, exportName: string): (r: Result<CommandNode, string>)
      reads this
      ensures GetModule(modulePath).Err? ==> r == Err(GetModule(modulePath).error)
      ensures GetModule(modulePath).Ok? ==> r == LookupExport(GetModule(modulePath).value, modulePath, exportName)
    {
      match GetModule(modulePath)
      case Err(e) => Err(e)
      case Ok(m) => LookupExport(m, modulePath, exportName)
    }

    /** `HasExport`: true exactly when the exact key or key + "()" is exported. */
    function HasExport(modulePath: string, exportName: string): (r: Result<bool, string>)
      reads this
      ensures GetModule(modulePath).Err? ==> r == Err(GetModule(modulePath).error)
      ensures GetModule(modulePath).Ok? ==>
        r == Ok(exportName in GetModule(modulePath).value.exports || exportName + "()" in GetModule(modulePath).value.exports)
    {
      match GetModule(modulePath)
      case Err(e) => Err(e)
      case Ok(m) =>
        if exportName in m.exports then Ok(true)
        else Ok(exportName + "()" in m.exports)
    }

    /** `GetModuleInfo`: the module name and every export marked "function". */
    method GetModuleInfo(path: string) returns (r: Result<ModuleInfo, string>)
      ensures GetModule(path).Err? ==> r == Err(GetModule(path).error)
      ensures GetModule(path).Ok? ==>
        r.Ok? && r.value.name == GetModule(path).value.name && r.value.exports == map k | k in GetModule(path).value.exports :: "function"
    {
      var found := GetModule(path);
      if found.Err? {
        return Err(found.error);
      }
      var mod := found.value;
      var exports: map<string, string> := map[];
      var todo := mod.exports.Keys;
      while todo != {}
        invariant todo <= mod.exports.Keys
        invariant exports == map k | k in mod.exports.Keys - todo :: "function"
        decreases todo
      {
        var k :| k in todo;
        exports := exports[k := "function"];
        todo := todo - {k};
      }
      r := Ok(ModuleInfo(mod.name, "", "", "", exports));
    }
  }

  /** `GetExport` succeeds exactly when `HasExport` says true, and both fail
      on a path that is not loaded. */
  lemma GetExportAgreesWithHasExport(mm: ModuleManager, modulePath: string, exportName: string)
    ensures mm.GetExport(modulePath, exportName).Ok? <==> mm.HasExport(modulePath, exportName) == Ok(true)
    ensures !(modulePath in mm.modules && mm.modules[modulePath].isLoaded) ==>
      mm.GetExport(modulePath, exportName).Err? && mm.HasExport(modulePath, exportName).Err?
  {
  }

  /** After an unload the path is no longer found, and no other path changed. */
  lemma UnloadedIsNotFound(modules: map<string, Module>, path: string, other: string)
    requires other != path
    ensures Find(modules - {path}, path).Err?
    ensures Find(modules - {path}, other) == Find(modules, other)
  {
  }
}
