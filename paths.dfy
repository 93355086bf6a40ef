/** Paths of the hook executable and of the per-hook state file. */
module Paths {
  import opened Wrappers

  type Path = string

  const BaseDirectoryName: string := "smuxi"
  const HooksDirectoryName: string := "hooks"
  const StateDirectoryName: string := "hook-state"
  const StateFileName: string := "state.yml"

  /** The segment an executable path is split on: `/smuxi/hooks/`. */
  const Marker: string := "/" + BaseDirectoryName + "/" + HooksDirectoryName + "/"

  /** `Pathname#+` with a relative name; Pathname's clean-up of empty or
      `.` components and of doubled slashes is not modelled. */
  function Join(dir: Path, name: string): Path {
    dir + "/" + name
  }

  lemma JoinInjective(dir: Path, a: string, b: string)
    requires Join(dir, a) == Join(dir, b)
    ensures a == b
  {
    assert a == Join(dir, a)[|dir| + 1..];
  }

  // ---------------------------------------------------------------------
  // Splitting the executable path on the marker

  /** The marker starts at index `i` of `s`. */
  predicate MarkerAt(s: string, i: int) {
    0 <= i && i + |Marker| <= |s| && s[i..i + |Marker|] == Marker
  }

  /** The marker occurs in `s` at `i` and nowhere else. */
  predicate MarkerOnlyAt(s: string, i: int) {
    MarkerAt(s, i) && forall j | 0 <= j < |s| :: MarkerAt(s, j) ==> j == i
  }

  /** The first index at or after `from` where the marker starts. */
  function FindMarker(s: string, from: nat): (r: Option<nat>)
    decreases |s| - from
    ensures r.Some? ==> from <= r.value && MarkerAt(s, r.value)
    ensures forall j :: from <= j && (r.None? || j < r.value) ==> !MarkerAt(s, j)
  {
    if from + |Marker| > |s| then None
    else if s[from..from + |Marker|] == Marker then Some(from)
    else FindMarker(s, from + 1)
  }

  /** The two pieces of `executable_path.split(/\/smuxi\/hooks\//)`. */
  datatype Split = Split(configDirectory: string, relativeExecutable: string)

  /** Splits an executable path on the marker. The marker must occur exactly
      once and be followed by something; otherwise Ruby's destructuring either
      hands `nil` to `Pathname.new` (no marker, or nothing after it) or picks a
      middle piece (several markers), and the model reports a malformed path. */
  function SplitExecutablePath(path: string): (r: Option<Split>)
    ensures r.Some? ==>
      && path == r.value.configDirectory + Marker + r.value.relativeExecutable
      && MarkerOnlyAt(path, |r.value.configDirectory|)
      && r.value.relativeExecutable != []
    ensures r.None? ==> forall i :: MarkerOnlyAt(path, i) ==> i + |Marker| == |path|
  {
    match FindMarker(path, 0)
    case None => None
    case Some(i) =>
      if FindMarker(path, i + 1).Some? || i + |Marker| == |path| then None
      else
        var sp := Split(path[..i], path[i + |Marker|..]);
        assert path == sp.configDirectory + Marker + sp.relativeExecutable by {
          assert path[i..i + |Marker|] == Marker;
          assert path == path[..i] + path[i..i + |Marker|] + path[i + |Marker|..];
        }
        Some(sp)
  }

  /** Splitting a path built around a single marker gives back its pieces. */
  lemma SplitRoundTrip(prefix: string, rel: string)
    requires MarkerOnlyAt(prefix + Marker + rel, |prefix|)
    requires rel != []
    ensures SplitExecutablePath(prefix + Marker + rel) == Some(Split(prefix, rel))
  {
    var path := prefix + Marker + rel;
    var i := |prefix|;
    assert path[..i] == prefix && path[i + |Marker|..] == rel;
    assert MarkerAt(path, i);
    var f := FindMarker(path, 0);
    assert f.Some? && f.value <= i;
    assert f.value == i;
    assert FindMarker(path, i + 1).None?;
  }

  // ---------------------------------------------------------------------
  // `Pathname#basename` and `Pathname#dirname` of the relative part

  /** The index of the last `/` in `s`. */
  function LastSlash(s: string): (r: Option<nat>)
    ensures r.Some? ==> r.value < |s| && s[r.value] == '/' && '/' !in s[r.value + 1..]
    ensures r.None? <==> '/' !in s
  {
    if s == [] then None
    else if s[|s| - 1] == '/' then Some(|s| - 1)
    else
      var r := LastSlash(s[..|s| - 1]);
      assert s == s[..|s| - 1] + [s[|s| - 1]];
      if r.Some? then
        assert s[r.value + 1..] == s[..|s| - 1][r.value + 1..] + [s[|s| - 1]];
        r
      else r
  }

  /** The final component of a path. */
  function Basename(s: string): string {
    match LastSlash(s)
    case None => s
    case Some(j) => s[j + 1..]
  }

  /** The leading directory part of a path; `.` when there is none. The
      special results of Pathname for `/x` (`/`) and for doubled slashes are
      not modelled. */
  function Dirname(s: string): string {
    match LastSlash(s)
    case None => "."
    case Some(j) => s[..j]
  }

  /** The last `/` of `dir + "/" + name` is the joining one when `name` has none. */
  lemma {:induction false} LastSlashOfJoin(dir: string, name: string)
    requires '/' !in name
    ensures LastSlash(Join(dir, name)) == Some(|dir|)
  {
    var s := Join(dir, name);
    if name == [] {
    } else {
      assert s[..|s| - 1] == Join(dir, name[..|name| - 1]);
      assert name[|name| - 1] in name;
      LastSlashOfJoin(dir, name[..|name| - 1]);
    }
  }

  /** Basename and Dirname split a path at its last `/`, and rejoin to it. */
  lemma BasenameDirname(s: string)
    ensures '/' !in Basename(s)
    ensures '/' in s ==> Join(Dirname(s), Basename(s)) == s
    ensures '/' !in s ==> Basename(s) == s && Dirname(s) == "."
  {
    match LastSlash(s)
    case None =>
    case Some(j) =>
      assert s == s[..j] + [s[j]] + s[j + 1..];
  }

  // ---------------------------------------------------------------------
  // Where a hook invocation keeps its state

  /** What `execute_hook` derives from the executable path. */
  datatype HookLocation = HookLocation(configDirectory: Path, hookName: string, scriptName: string) {
    /** `<config>/smuxi`. */
    function BaseDirectory(): Path {
      Join(configDirectory, BaseDirectoryName)
    }
    /** `<base>/hook-state/<hook>/<script>`. */
    function StateDirectory(): Path {
      Join(Join(Join(BaseDirectory(), StateDirectoryName), hookName), scriptName)
    }
    /** `<base>/hook-state/<hook>/<script>/state.yml`. */
    function StateFile(): Path {
      Join(StateDirectory(), StateFileName)
    }
  }

  /** Decomposes the executable path: the script name is the last component
      after the marker, the hook name the directory part before it. */
  function Locate(path: string): (r: Option<HookLocation>)
    ensures r.Some? ==>
      && '/' !in r.value.scriptName
      && MarkerOnlyAt(path, |r.value.configDirectory|)
      && (|| path == r.value.configDirectory + Marker + Join(r.value.hookName, r.value.scriptName)
          || (r.value.hookName == "." && path == r.value.configDirectory + Marker + r.value.scriptName))
    ensures r.None? <==> SplitExecutablePath(path).None?
  {
    match SplitExecutablePath(path)
    case None => None
    case Some(sp) =>
      var rel := sp.relativeExecutable;
      BasenameDirname(rel);
      Some(HookLocation(sp.configDirectory, Dirname(rel), Basename(rel)))
  }

  /** A path built from a hook name and a script name decomposes into them. */
  lemma LocateComposed(prefix: string, hookName: string, scriptName: string)
    requires '/' !in scriptName
    requires MarkerOnlyAt(prefix + Marker + Join(hookName, scriptName), |prefix|)
    ensures Locate(prefix + Marker + Join(hookName, scriptName))
         == Some(HookLocation(prefix, hookName, scriptName))
  {
    var rel := Join(hookName, scriptName);
    SplitRoundTrip(prefix, rel);
    LocateOfSplit(prefix + Marker + rel, Split(prefix, rel));
    DirnameBasenameOfJoin(hookName, scriptName);
  }

  lemma LocateOfSplit(path: string, sp: Split)
    requires SplitExecutablePath(path) == Some(sp)
    ensures Locate(path) == Some(HookLocation(sp.configDirectory, Dirname(sp.relativeExecutable), Basename(sp.relativeExecutable)))
  {
  }

  /** Dirname and Basename undo a join with a slash-free name. */
  lemma DirnameBasenameOfJoin(dir: string, name: string)
    requires '/' !in name
    ensures Dirname(Join(dir, name)) == dir && Basename(Join(dir, name)) == name
  {
    LastSlashOfJoin(dir, name);
    assert Join(dir, name)[..|dir|] == dir;
    assert Join(dir, name)[|dir| + 1..] == name;
  }

  /** Distinct (hook, script) pairs under one base directory never share a
      state file. */
  lemma StateFileInjective(a: HookLocation, b: HookLocation)
    requires a.BaseDirectory() == b.BaseDirectory()
    requires '/' !in a.scriptName && '/' !in b.scriptName
    requires a.StateFile() == b.StateFile()
    ensures a.hookName == b.hookName && a.scriptName == b.scriptName
  {
    var root := Join(a.BaseDirectory(), StateDirectoryName);
    JoinLeftInjective(a.StateDirectory(), b.StateDirectory(), StateFileName);
    JoinAtLastSlash(Join(root, a.hookName), a.scriptName, Join(root, b.hookName), b.scriptName);
    JoinInjective(root, a.hookName, b.hookName);
  }

  lemma JoinLeftInjective(x: Path, y: Path, name: string)
    requires Join(x, name) == Join(y, name)
    ensures x == y
  {
    assert x == Join(x, name)[..|x|];
  }

  /** A path splits uniquely at a joining `/` followed by a slash-free name. */
  lemma JoinAtLastSlash(x: Path, s: string, y: Path, t: string)
    requires '/' !in s && '/' !in t
    requires Join(x, s) == Join(y, t)
    ensures x == y && s == t
  {
    LastSlashOfJoin(x, s);
    LastSlashOfJoin(y, t);
    assert x == Join(x, s)[..|x|];
    assert y == Join(y, t)[..|y|];
    assert s == Join(x, s)[|x| + 1..];
    assert t == Join(y, t)[|y| + 1..];
  }
}
