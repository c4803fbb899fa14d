/** The environment store (pkg/environment/manager.go): a variable map, the
    working directory and a snapshot of the process environment taken at start.

    A Go `map` is a reference: `ApplySession` makes the manager share the
    session's map. The maps are therefore `StrMap` objects here, so that sharing
    is visible in the model. The operating system (`os.Environ`, `os.Getwd`,
    `os.Stat`, `filepath.Clean`) enters as parameters. */
module Environment {
  import opened Wrappers

  /** A Go `map[string]string`. */
  class StrMap {
    var m: map<string, string>

    constructor (m0: map<string, string>)
      ensures m == m0
    {
      m := m0;
    }
  }

  /** `env[key]` on a Go map: the zero value "" for a missing key. */
  function Lookup(m: map<string, string>, key: string): (v: string)
    ensures key !in m ==> v == ""
    ensures key in m ==> v == m[key]
  {
    if key in m then m[key] else ""
  }

  /** Copies a map entry by entry, as the Go loops over `range` do. */
  method CopyMap(src: map<string, string>) returns (dst: map<string, string>)
    ensures dst == src
  {
    dst := map[];
    var todo := src.Keys;
    while todo != {}
      invariant todo <= src.Keys
      invariant dst == map k | k in src.Keys - todo :: src[k]
      decreases todo
    {
      var k :| k in todo;
      dst := dst[k := src[k]];
      todo := todo - {k};
    }
  }

  // ---------------------------------------------------------------------------
  // "KEY=value" entries

  /** The index of the first '=' in `e`, if any. */
  function FirstEquals(e: string): (r: Option<nat>)
    ensures r.None? <==> '=' !in e
    ensures r.Some? ==> r.value < |e| && e[r.value] == '=' && '=' !in e[..r.value]
  {
    if e == [] then None
    else if e[0] == '=' then Some(0)
    else match FirstEquals(e[1..])
      case None => None
      case Some(i) => assert e[..i + 1] == [e[0]] + e[1..][..i]; Some(i + 1)
  }

  /** One `os.Environ` entry split at its first '='; entries without '=' are skipped. */
  function SplitEntry(e: string): Option<(string, string)> {
    match FirstEquals(e)
    case None => None
    case Some(i) => Some((e[..i], e[i + 1..]))
  }

  /** Splitting undoes joining: a key without '=' comes back whole, and the
      value keeps any '=' it holds. */
  lemma SplitJoinedEntry(key: string, value: string)
    requires '=' !in key
    ensures SplitEntry(key + "=" + value) == Some((key, value))
  {
    var e := key + "=" + value;
    assert e[|key|] == '=' && e[..|key|] == key && e[|key| + 1..] == value;
    FirstEqualsAt(e, |key|);
  }

  /** The first '=' is the one with no '=' before it. */
  lemma {:induction false} FirstEqualsAt(e: string, i: nat)
    requires i < |e| && e[i] == '=' && '=' !in e[..i]
    ensures FirstEquals(e) == Some(i)
  {
    if i > 0 {
      assert e[0] == e[..i][0];
      assert e[1..][..i - 1] == e[1..i];
      assert forall c | c in e[1..i] :: c in e[..i];
      FirstEqualsAt(e[1..], i - 1);
    }
  }

  /** Joining undoes splitting. */
  lemma JoinSplitEntry(e: string)
    requires SplitEntry(e).Some?
    ensures var (k, v) := SplitEntry(e).value; k + "=" + v == e && '=' !in k
  {
    var i := FirstEquals(e).value;
    assert e == e[..i] + "=" + e[i + 1..];
  }

  /** The map `initializeOriginalEnvironment` builds on top of `m`: entries in
      order, a later duplicate key overwriting an earlier one. */
  function ParseEnviron(m: map<string, string>, environ: seq<string>): map<string, string>
    decreases |environ|
  {
    if environ == [] then m
    else
      var last := environ[|environ| - 1];
      var m' := ParseEnviron(m, environ[..|environ| - 1]);
      match SplitEntry(last)
      case None => m'
      case Some((k, v)) => m'[k := v]
  }

  /** The keys of the parsed environment are exactly the keys of the entries
      that hold a '='. */
  lemma {:induction false} ParseEnvironKeys(environ: seq<string>, key: string)
    ensures key in ParseEnviron(map[], environ)
        <==> exists j | 0 <= j < |environ| :: SplitEntry(environ[j]).Some? && SplitEntry(environ[j]).value.0 == key
    decreases |environ|
  {
    if environ != [] {
      var init := environ[..|environ| - 1];
      ParseEnvironKeys(init, key);
      if exists j | 0 <= j < |init| :: SplitEntry(init[j]).Some? && SplitEntry(init[j]).value.0 == key {
        var j :| 0 <= j < |init| && SplitEntry(init[j]).Some? && SplitEntry(init[j]).value.0 == key;
        assert environ[j] == init[j];
      }
      if exists j | 0 <= j < |environ| :: SplitEntry(environ[j]).Some? && SplitEntry(environ[j]).value.0 == key {
        var j :| 0 <= j < |environ| && SplitEntry(environ[j]).Some? && SplitEntry(environ[j]).value.0 == key;
        if j < |init| {
          assert init[j] == environ[j];
        }
      }
    }
  }

  /** Whether entry `e` of the process environment sets `key`. */
  predicate SetsKey(e: string, key: string) {
    SplitEntry(e).Some? && SplitEntry(e).value.0 == key
  }

  /** A loaded key holds the value part of the LAST entry that sets it. */
  lemma {:induction false} ParseEnvironValues(environ: seq<string>, key: string)
    requires key in ParseEnviron(map[], environ)
    ensures exists j | 0 <= j < |environ| ::
      && SplitEntry(environ[j]) == Some((key, ParseEnviron(map[], environ)[key]))
      && forall j' | j < j' < |environ| :: !SetsKey(environ[j'], key)
    decreases |environ|
  {
    var init := environ[..|environ| - 1];
    var last := environ[|environ| - 1];
    var m := ParseEnviron(map[], environ);
    if SetsKey(last, key) {
      assert SplitEntry(environ[|environ| - 1]) == Some((key, m[key]));
    } else {
      assert key in ParseEnviron(map[], init);
      ParseEnvironValues(init, key);
      var j :| 0 <= j < |init| &&
        SplitEntry(init[j]) == Some((key, ParseEnviron(map[], init)[key])) &&
        forall j' | j < j' < |init| :: !SetsKey(init[j'], key);
      assert environ[j] == init[j];
      forall j' | j < j' < |environ| ensures !SetsKey(environ[j'], key) {
        if j' < |init| {
          assert environ[j'] == init[j'];
        }
      }
    }
  }

  /** `env` renders every variable of `m` exactly once, entry `i` being the
      variable `keys[i]`. */
  ghost predicate RendersEach(env: seq<string>, m: map<string, string>, keys: seq<string>) {
    && |env| == |keys|
    && (forall i | 0 <= i < |keys| :: keys[i] in m && env[i] == keys[i] + "=" + m[keys[i]])
    && (forall i, j | 0 <= i < j < |keys| :: keys[i] != keys[j])
    && (forall k | k in m :: k in keys)
  }

  // ---------------------------------------------------------------------------
  // PATH

  /** The value `AppendToPath` stores: `dir` alone, or after the old value and ':'. */
  function PathAppend(path: string, dir: string): (r: string)
    ensures path == "" ==> r == dir
    ensures path != "" ==> |r| == |path| + 1 + |dir| && r[..|path|] == path && r[|path|] == ':' && r[|path| + 1..] == dir
  {
    if path == "" then dir else path + ":" + dir
  }

  /** The value `PrependToPath` stores: `dir` alone, or before ':' and the old value. */
  function PathPrepend(path: string, dir: string): (r: string)
    ensures path == "" ==> r == dir
    ensures path != "" ==> |r| == |dir| + 1 + |path| && r[..|dir|] == dir && r[|dir|] == ':' && r[|dir| + 1..] == path
  {
    if path == "" then dir else dir + ":" + path
  }

  // ---------------------------------------------------------------------------
  // Paths: filepath.IsAbs and filepath.Join on Unix, with Clean as a parameter

  predicate IsAbs(path: string) {
    |path| > 0 && path[0] == '/'
  }

  /** `filepath.Join(a, b)`: empty elements are ignored, the rest joined with '/' and cleaned. */
  function JoinPath(clean: string -> string, a: string, b: string): string {
    if a == "" && b == "" then ""
    else if a == "" then clean(b)
    else if b == "" then clean(a)
    else clean(a + "/" + b)
  }

  /** The directory `ChangeDir(dir)` tries to enter from `workingDir`. */
  function ChangeDirTarget(clean: string -> string, workingDir: string, dir: string): string {
    clean(if IsAbs(dir) then dir else JoinPath(clean, workingDir, dir))
  }

  // ---------------------------------------------------------------------------
  // The manager

  class EnvironmentManager {
    var workingDir: string
    var environment: StrMap
    var originalEnv: StrMap

    /** The current map and the original one are different objects: Go's
        manager fills two maps, copies on restore and on session creation,
        and never shares `originalEnv`. */
    ghost predicate Valid()
      reads this
    {
      environment != originalEnv
    }

    /** `NewEnvironmentManager`, given what `os.Environ` and `os.Getwd` report. */
    constructor (environ: seq<string>, getwd: Option<string>)
      ensures Valid() && fresh(environment) && fresh(originalEnv)
      ensures originalEnv.m == ParseEnviron(map[], environ)
      ensures environment.m == originalEnv.m
      ensures workingDir == if getwd.Some? then getwd.value else ""
    {
      environment := new StrMap(map[]);
      originalEnv := new StrMap(map[]);
      workingDir := "";
      new;
      InitializeOriginalEnvironment(environ);
      if getwd.Some? {
        workingDir := getwd.value;
      }
    }

    /** `initializeOriginalEnvironment`: each entry is split at its first '='
        and written into both maps; entries without '=' are skipped. */
    method InitializeOriginalEnvironment(environ: seq<string>)
      requires environment != originalEnv
      modifies environment, originalEnv
      ensures originalEnv.m == ParseEnviron(old(originalEnv.m), environ)
      ensures environment.m == ParseEnviron(old(environment.m), environ)
    {
      var n := 0;
      while n < |environ|
        invariant 0 <= n <= |environ|
        invariant originalEnv.m == ParseEnviron(old(originalEnv.m), environ[..n])
        invariant environment.m == ParseEnviron(old(environment.m), environ[..n])
      {
        var env := environ[n];
        var i := 0;
        while i < |env|
          invariant 0 <= i <= |env|
          invariant '=' !in env[..i]
        {
          if env[i] == '=' {
            break;
          }
          assert env[..i + 1] == env[..i] + [env[i]];
          i := i + 1;
        }
        assert environ[..n + 1][..n] == environ[..n];
        if i < |env| {
          FirstEqualsAt(env, i);
          var key := env[..i];
          var value := env[i + 1..];
          originalEnv.m := originalEnv.m[key := value];
          environment.m := environment.m[key := value];
        } else {
          assert env[..i] == env;
        }
        n := n + 1;
      }
      assert environ[..n] == environ;
    }

    function GetWorkingDir(): string
      reads this
    {
      workingDir
    }

    /** `ChangeDir`: a relative path is joined onto the working directory; the
        cleaned result becomes the working directory only if it is a directory. */
    method ChangeDir(dir: string, clean: string -> string, isDir: string -> bool) returns (err: Option<string>)
      modifies this
      ensures environment == old(environment) && originalEnv == old(originalEnv)
      ensures var target := ChangeDirTarget(clean, old(workingDir), dir);
        && (err.None? <==> isDir(target))
        && (err.None? ==> workingDir == target)
        && (err.Some? ==> workingDir == old(workingDir) && err.value == "directory does not exist: " + target)
    {
      var d := dir;
      if !IsAbs(d) {
        d := JoinPath(clean, workingDir, d);
      }
      d := clean(d);
      if !isDir(d) {
        return Some("directory does not exist: " + d);
      }
      workingDir := d;
      err := None;
    }

    function GetEnv(key: string): (v: string)
      reads this, environment
      ensures v == Lookup(environment.m, key)
    {
      Lookup(environment.m, key)
    }

    method SetEnv(key: string, value: string)
      requires Valid()
      modifies environment
      ensures environment.m == old(environment.m)[key := value]
      ensures originalEnv.m == old(originalEnv.m)
    {
      environment.m := environment.m[key := value];
    }

    method UnsetEnv(key: string)
      requires Valid()
      modifies environment
      ensures environment.m == old(environment.m) - {key}
      ensures originalEnv.m == old(originalEnv.m)
    {
      environment.m := environment.m - {key};
    }

    /** `GetAllEnv`: a copy of the variable map; being a value, later changes
        to either side do not reach the other. */
    method GetAllEnv() returns (envCopy: map<string, string>)
      ensures envCopy == environment.m
    {
      envCopy := CopyMap(environment.m);
    }

    /** `RestoreOriginalEnvironment`: a new map holding the original entries.
        Exporting it to the process environment is not modelled. */
    method RestoreOriginalEnvironment()
      modifies this
      ensures Valid() && fresh(environment) && environment.m == originalEnv.m
      ensures originalEnv == old(originalEnv) && originalEnv.m == old(originalEnv.m) && workingDir == old(workingDir)
    {
      var restored := CopyMap(originalEnv.m);
      environment := new StrMap(restored);
    }

    /** `CreateChildProcessEnv`: one "KEY=value" string per variable, in map
        order. */
    method CreateChildProcessEnv() returns (env: seq<string>)
      ensures exists keys :: RendersEach(env, environment.m, keys)
      ensures |env| == |environment.m|
      ensures forall k | k in environment.m :: k + "=" + environment.m[k] in env
    {
      env := [];
      ghost var keys: seq<string> := [];
      var todo := environment.m.Keys;
      while todo != {}
        invariant todo <= environment.m.Keys
        invariant |env| == |keys| && |keys| + |todo| == |environment.m|
        invariant forall i | 0 <= i < |keys| :: keys[i] in environment.m.Keys - todo && env[i] == keys[i] + "=" + environment.m[keys[i]]
        invariant forall i, j | 0 <= i < j < |keys| :: keys[i] != keys[j]
        invariant forall k | k in environment.m.Keys - todo :: k in keys
        decreases todo
      {
        var k :| k in todo;
        env, keys := env + [k + "=" + environment.m[k]], keys + [k];
        todo := todo - {k};
      }
      forall k | k in environment.m
        ensures k + "=" + environment.m[k] in env
      {
        assert k in environment.m.Keys - todo;
        var i :| 0 <= i < |keys| && keys[i] == k;
        assert env[i] == k + "=" + environment.m[k];
      }
      assert RendersEach(env, environment.m, keys);
    }

    function GetPath(): string
      reads this, environment
    {
      GetEnv("PATH")
    }

    method SetPath(path: string)
      requires Valid()
      modifies environment
      ensures environment.m == old(environment.m)["PATH" := path]
    {
      SetEnv("PATH", path);
    }

    method AppendToPath(dir: string)
      requires Valid()
      modifies environment
      ensures environment.m == old(environment.m)["PATH" := PathAppend(old(GetPath()), dir)]
    {
      var currentPath := GetPath();
      if currentPath == "" {
        SetPath(dir);
      } else {
        SetPath(currentPath + ":" + dir);
      }
    }

    method PrependToPath(dir: string)
      requires Valid()
      modifies environment
      ensures environment.m == old(environment.m)["PATH" := PathPrepend(old(GetPath()), dir)]
    {
      var currentPath := GetPath();
      if currentPath == "" {
        SetPath(dir);
      } else {
        SetPath(dir + ":" + currentPath);
      }
    }

    /** `GetHomeDir`: HOME, or the original HOME when the current one is empty. */
    function GetHomeDir(): (home: string)
      reads this, environment, originalEnv
      ensures GetEnv("HOME") != "" ==> home == GetEnv("HOME")
      ensures GetEnv("HOME") == "" ==> home == Lookup(originalEnv.m, "HOME")
    {
      var home := GetEnv("HOME");
      if home == "" then Lookup(originalEnv.m, "HOME") else home
    }

    /** `GetUsername`: USER, or the original USER when the current one is empty. */
    function GetUsername(): (user: string)
      reads this, environment, originalEnv
      ensures GetEnv("USER") != "" ==> user == GetEnv("USER")
      ensures GetEnv("USER") == "" ==> user == Lookup(originalEnv.m, "USER")
    {
      var user := GetEnv("USER");
      if user == "" then Lookup(originalEnv.m, "USER") else user
    }

    /** `CreateSession`: a session with the working directory and a copy of the variables. */
    method CreateSession() returns (session: Session)
      ensures fresh(session) && fresh(session.environment)
      ensures session.workingDir == workingDir && session.environment.m == environment.m
    {
      var copy := CopyMap(environment.m);
      session := new Session(workingDir, copy);
    }

    /** `ApplySession`: the manager takes over the session's working directory
        and its map itself, not a copy. */
    method ApplySession(session: Session)
      requires session.environment != originalEnv
      modifies this
      ensures Valid()
      ensures workingDir == session.workingDir && environment == session.environment
      ensures originalEnv == old(originalEnv)
    {
      workingDir := session.workingDir;
      environment := session.environment;
    }
  }

  /** An isolated copy of the environment. */
  class Session {
    var workingDir: string
    const environment: StrMap

    constructor (wd: string, vars: map<string, string>)
      ensures workingDir == wd && fresh(environment) && environment.m == vars
    {
      workingDir := wd;
      environment := new StrMap(vars);
    }

    function GetWorkingDir(): string
      reads this
    {
      workingDir
    }

    function GetEnv(key: string): (v: string)
      reads this, environment
      ensures v == Lookup(environment.m, key)
    {
      Lookup(environment.m, key)
    }

    method SetEnv(key: string, value: string)
      modifies environment
      ensures environment.m == old(environment.m)[key := value]
    {
      environment.m := environment.m[key := value];
    }
  }

  /** The session life cycle: a session write is invisible to the manager until
      `ApplySession`, visible after it, and, since the map is then shared, a
      later session write is visible too. */
  method SessionLifecycle(em: EnvironmentManager, key: string, v1: string, v2: string)
    returns (before: string, applied: string, afterApply: string)
    requires em.Valid()
    modifies em, em.environment
    ensures before == old(em.GetEnv(key)) && applied == v1 && afterApply == v2
  {
    var session := em.CreateSession();
    session.SetEnv(key, v1);
    before := em.GetEnv(key);
    em.ApplySession(session);
    applied := em.GetEnv(key);
    session.SetEnv(key, v2);
    afterApply := em.GetEnv(key);
  }

  /** `SetEnv` then `GetEnv` returns the value and leaves every other key alone;
      `UnsetEnv` makes `GetEnv` return "". */
  method SetGetUnset(em: EnvironmentManager, key: string, value: string, other: string)
    returns (got: string, otherBefore: string, otherAfter: string, afterUnset: string)
    requires em.Valid() && other != key
    modifies em.environment
    ensures got == value && otherAfter == otherBefore && afterUnset == ""
  {
    otherBefore := em.GetEnv(other);
    em.SetEnv(key, value);
    got := em.GetEnv(key);
    otherAfter := em.GetEnv(other);
    em.UnsetEnv(key);
    afterUnset := em.GetEnv(key);
  }

  /** Variables set since start are gone after `RestoreOriginalEnvironment`:
      the restored map equals the original map as it was before the `SetEnv`,
      which `SetEnv` does not touch, so a key that was not in the original
      environment reads as "" again. */
  method SetThenRestore(em: EnvironmentManager, key: string, value: string)
    returns (afterRestore: string)
    requires em.Valid()
    modifies em, em.environment
    ensures afterRestore == Lookup(old(em.originalEnv.m), key)
    ensures key !in old(em.originalEnv.m) ==> afterRestore == ""
    ensures em.Valid() && em.environment.m == old(em.originalEnv.m) && em.originalEnv.m == old(em.originalEnv.m)
  {
    em.SetEnv(key, value);
    em.RestoreOriginalEnvironment();
    afterRestore := em.GetEnv(key);
  }
}
