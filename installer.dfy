/** `install` and `uninstall`: linking the plugin executable into, and out
    of, the Smuxi hook directories it handles. */
module Installer {
  import opened Wrappers
  import opened Paths
  import opened Hooks
  import opened Files

  /** `<hookPath>/<basename of the executable>`. */
  function LinkPath(hookPath: Path, executableFile: Path): Path {
    Join(hookPath, Basename(executableFile))
  }

  /** The link path under each hook path, in order: what the progress
      callback is given. Distinct hook paths give distinct link paths. */
  function LinkPaths(hookPaths: seq<Path>, executableFile: Path): (r: seq<Path>)
    ensures |r| == |hookPaths|
    ensures forall i :: 0 <= i < |r| ==> r[i] == LinkPath(hookPaths[i], executableFile)
    ensures Distinct(hookPaths) ==> Distinct(r)
  {
    var r := seq(|hookPaths|, i requires 0 <= i < |hookPaths| => LinkPath(hookPaths[i], executableFile));
    forall i, j | 0 <= i < j < |r| && Distinct(hookPaths) ensures r[i] != r[j] {
      if r[i] == r[j] {
        JoinLeftInjective(hookPaths[i], hookPaths[j], Basename(executableFile));
        assert false;
      }
    }
    r
  }

  // ---------------------------------------------------------------------
  // Install

  /** The filesystem after some iterations of `install`, the paths given to
      the callback, and the link path whose `make_symlink` failed, if any. */
  datatype InstallRun = InstallRun(entries: map<Path, Entry>, progress: seq<Path>, blocked: Option<Path>)

  /** One iteration: make the hook directory, report the link path, drop a
      symlink already there, then link. A path still occupied (a regular file
      or a directory) makes `make_symlink` raise. */
  function InstallHook(entries: map<Path, Entry>, hookPath: Path, executableFile: Path): InstallRun {
    var e1 := MkPath(entries, hookPath);
    var link := LinkPath(hookPath, executableFile);
    var e2 := if link in e1 && e1[link].Symlink? then e1 - {link} else e1;
    if link in e2 then InstallRun(e2, [link], Some(link))
    else InstallRun(e2[link := Symlink(executableFile)], [link], None)
  }

  /** The iterations over all of `hookPaths`, stopping at the first failure. */
  function InstallAll(entries: map<Path, Entry>, hookPaths: seq<Path>, executableFile: Path): InstallRun
    decreases |hookPaths|
  {
    if hookPaths == [] then InstallRun(entries, [], None)
    else
      var r := InstallAll(entries, hookPaths[..|hookPaths| - 1], executableFile);
      if r.blocked.Some? then r
      else
        var s := InstallHook(r.entries, hookPaths[|hookPaths| - 1], executableFile);
        InstallRun(s.entries, r.progress + s.progress, s.blocked)
  }

  /** What one iteration does, in terms of `mkpath` and the link path. */
  lemma InstallHookStep(entries: map<Path, Entry>, hookPath: Path, executableFile: Path)
    ensures var s := InstallHook(entries, hookPath, executableFile);
      var e1 := MkPath(entries, hookPath);
      var link := LinkPath(hookPath, executableFile);
      && s.progress == [link]
      && (s.blocked.None? <==> link !in e1 || e1[link].Symlink?)
      && (s.blocked.Some? ==> s.blocked.value == link && s.entries == e1)
      && (s.blocked.None? ==> s.entries == e1[link := Symlink(executableFile)])
  {
    var e1 := MkPath(entries, hookPath);
    var link := LinkPath(hookPath, executableFile);
    if link in e1 && e1[link].Symlink? {
      assert (e1 - {link})[link := Symlink(executableFile)] == e1[link := Symlink(executableFile)];
    }
  }

  /** Running one more iteration of the loop. */
  lemma InstallAllSnoc(entries: map<Path, Entry>, hookPaths: seq<Path>, i: nat, executableFile: Path)
    requires i < |hookPaths|
    ensures var r := InstallAll(entries, hookPaths[..i], executableFile);
      InstallAll(entries, hookPaths[..i + 1], executableFile)
      == if r.blocked.Some? then r
         else
           var s := InstallHook(r.entries, hookPaths[i], executableFile);
           InstallRun(s.entries, r.progress + s.progress, s.blocked)
  {
    assert hookPaths[..i + 1][..i] == hookPaths[..i];
  }

  /** Once an iteration has failed, the later hook paths change nothing. */
  lemma {:induction false} InstallStopsWhenBlocked(entries: map<Path, Entry>, hookPaths: seq<Path>, k: nat, executableFile: Path)
    requires k <= |hookPaths|
    requires InstallAll(entries, hookPaths[..k], executableFile).blocked.Some?
    ensures InstallAll(entries, hookPaths, executableFile) == InstallAll(entries, hookPaths[..k], executableFile)
  {
    if k < |hookPaths| {
      var init := hookPaths[..|hookPaths| - 1];
      assert init[..k] == hookPaths[..k];
      InstallStopsWhenBlocked(entries, init, k, executableFile);
    } else {
      assert hookPaths[..k] == hookPaths;
    }
  }

  /** Every hook directory exists and every link path holds a link to the
      executable. */
  ghost predicate Installed(entries: map<Path, Entry>, hookPaths: seq<Path>, executableFile: Path) {
    forall i :: 0 <= i < |hookPaths| ==>
      && Ancestors(hookPaths[i]) <= entries.Keys
      && LinkPath(hookPaths[i], executableFile) in entries
      && entries[LinkPath(hookPaths[i], executableFile)] == Symlink(executableFile)
  }

  /** The link paths of one more hook path. */
  lemma LinkPathsSnoc(hookPaths: seq<Path>, executableFile: Path)
    requires hookPaths != []
    ensures LinkPaths(hookPaths, executableFile)
         == LinkPaths(hookPaths[..|hookPaths| - 1], executableFile) + [LinkPath(hookPaths[|hookPaths| - 1], executableFile)]
  {
  }

  /** The callback fires once per hook path, in order, up to and including
      the one that failed; a run that did not fail reported every link path. */
  lemma InstallProgress(entries: map<Path, Entry>, hookPaths: seq<Path>, executableFile: Path)
    ensures var r := InstallAll(entries, hookPaths, executableFile);
      && |r.progress| <= |hookPaths|
      && r.progress == LinkPaths(hookPaths[..|r.progress|], executableFile)
      && (r.blocked.None? ==> r.progress == LinkPaths(hookPaths, executableFile))
      && (r.blocked.Some? ==> r.progress != [] && r.blocked.value == r.progress[|r.progress| - 1])
  {
    ProgressPrefix(entries, hookPaths, executableFile);
    ProgressBlockedLast(entries, hookPaths, executableFile);
    ProgressComplete(entries, hookPaths, executableFile);
    var r := InstallAll(entries, hookPaths, executableFile);
    assert r.progress == LinkPaths(hookPaths[..|r.progress|], executableFile);
    assert hookPaths[..|hookPaths|] == hookPaths;
  }

  /** The k-th path reported is the link path of the k-th hook path. */
  lemma {:induction false} ProgressPrefix(entries: map<Path, Entry>, hookPaths: seq<Path>, executableFile: Path)
    ensures var r := InstallAll(entries, hookPaths, executableFile);
      && |r.progress| <= |hookPaths|
      && forall k :: 0 <= k < |r.progress| ==> r.progress[k] == LinkPath(hookPaths[k], executableFile)
  {
    if hookPaths != [] {
      var init := hookPaths[..|hookPaths| - 1];
      var last := hookPaths[|hookPaths| - 1];
      assert hookPaths == init + [last];
      ProgressPrefix(entries, init, executableFile);
      var r := InstallAll(entries, init, executableFile);
      if r.blocked.None? {
        ProgressComplete(entries, init, executableFile);
        InstallHookStep(r.entries, last, executableFile);
        PrefixStep(r.progress, init, last, executableFile);
      } else {
        PrefixStep(r.progress, init, last, executableFile);
      }
    }
  }

  /** Reporting the link path of one more hook path keeps the progress a
      prefix of the link paths. */
  lemma PrefixStep(progress: seq<Path>, hookPaths: seq<Path>, hookPath: Path, executableFile: Path)
    requires |progress| <= |hookPaths|
    requires forall k :: 0 <= k < |progress| ==> progress[k] == LinkPath(hookPaths[k], executableFile)
    ensures forall k :: 0 <= k < |progress| ==> progress[k] == LinkPath((hookPaths + [hookPath])[k], executableFile)
    ensures |progress| == |hookPaths| ==>
      forall k :: 0 <= k < |progress| + 1 ==>
        (progress + [LinkPath(hookPath, executableFile)])[k] == LinkPath((hookPaths + [hookPath])[k], executableFile)
  {
  }

  /** A run that failed reported the failing link path last. */
  lemma {:induction false} ProgressBlockedLast(entries: map<Path, Entry>, hookPaths: seq<Path>, executableFile: Path)
    ensures var r := InstallAll(entries, hookPaths, executableFile);
      r.blocked.Some? ==> r.progress != [] && r.blocked.value == r.progress[|r.progress| - 1]
  {
    if hookPaths != [] {
      var init := hookPaths[..|hookPaths| - 1];
      ProgressBlockedLast(entries, init, executableFile);
      var r := InstallAll(entries, init, executableFile);
      if r.blocked.None? {
        InstallHookStep(r.entries, hookPaths[|hookPaths| - 1], executableFile);
      }
    }
  }

  /** A run that did not fail went through every hook path. */
  lemma {:induction false} ProgressComplete(entries: map<Path, Entry>, hookPaths: seq<Path>, executableFile: Path)
    ensures var r := InstallAll(entries, hookPaths, executableFile);
      r.blocked.None? ==> |r.progress| == |hookPaths|
  {
    if hookPaths != [] {
      var init := hookPaths[..|hookPaths| - 1];
      ProgressComplete(entries, init, executableFile);
      var r := InstallAll(entries, init, executableFile);
      if r.blocked.None? {
        InstallHookStep(r.entries, hookPaths[|hookPaths| - 1], executableFile);
      }
    }
  }

  /** A run that did not fail leaves every hook linked. */
  lemma {:induction false} InstallEstablishes(entries: map<Path, Entry>, hookPaths: seq<Path>, executableFile: Path)
    requires InstallAll(entries, hookPaths, executableFile).blocked.None?
    ensures Installed(InstallAll(entries, hookPaths, executableFile).entries, hookPaths, executableFile)
  {
    if hookPaths != [] {
      var init := hookPaths[..|hookPaths| - 1];
      var last := hookPaths[|hookPaths| - 1];
      assert init + [last] == hookPaths;
      var r := InstallAll(entries, init, executableFile);
      assert r.blocked.None?;
      var s := InstallHook(r.entries, last, executableFile);
      assert InstallAll(entries, hookPaths, executableFile).entries == s.entries;
      InstallEstablishes(entries, init, executableFile);
      InstalledStep(r.entries, init, last, executableFile);
    }
  }

  /** A successful iteration keeps the earlier hooks linked and links one more. */
  lemma InstalledStep(entries: map<Path, Entry>, hookPaths: seq<Path>, hookPath: Path, executableFile: Path)
    requires Installed(entries, hookPaths, executableFile)
    requires InstallHook(entries, hookPath, executableFile).blocked.None?
    ensures Installed(InstallHook(entries, hookPath, executableFile).entries, hookPaths + [hookPath], executableFile)
  {
    InstallHookStep(entries, hookPath, executableFile);
    var e := InstallHook(entries, hookPath, executableFile).entries;
    var all := hookPaths + [hookPath];
    forall i | 0 <= i < |all|
      ensures Ancestors(all[i]) <= e.Keys
      ensures LinkPath(all[i], executableFile) in e
      ensures e[LinkPath(all[i], executableFile)] == Symlink(executableFile)
    {
      if i < |hookPaths| {
        assert all[i] == hookPaths[i];
      }
    }
  }

  /** No entry ever disappears, and only symbolic links are replaced:
      directories and regular files keep what they were. */
  lemma {:induction false} InstallPreserves(entries: map<Path, Entry>, hookPaths: seq<Path>, executableFile: Path)
    ensures var r := InstallAll(entries, hookPaths, executableFile);
      forall q :: q in entries ==> q in r.entries && (!entries[q].Symlink? ==> r.entries[q] == entries[q])
  {
    if hookPaths != [] {
      InstallPreserves(entries, hookPaths[..|hookPaths| - 1], executableFile);
    }
  }

  /** Paths that are neither a hook directory, one of its ancestors, nor a
      link path are left exactly as they were. */
  lemma {:induction false} InstallFrame(entries: map<Path, Entry>, hookPaths: seq<Path>, executableFile: Path, q: Path)
    requires q !in LinkPaths(hookPaths, executableFile)
    requires forall i :: 0 <= i < |hookPaths| ==> q !in Ancestors(hookPaths[i])
    ensures Get(InstallAll(entries, hookPaths, executableFile).entries, q) == Get(entries, q)
  {
    if hookPaths != [] {
      var init := hookPaths[..|hookPaths| - 1];
      assert LinkPaths(init, executableFile) == LinkPaths(hookPaths, executableFile)[..|init|];
      assert LinkPaths(hookPaths, executableFile)[|init|] == LinkPath(hookPaths[|init|], executableFile);
      InstallFrame(entries, init, executableFile, q);
    }
  }

  /** Installing over a filesystem where everything is already linked
      changes nothing and still reports every link path. */
  lemma {:induction false} InstallOverInstalled(entries: map<Path, Entry>, hookPaths: seq<Path>, executableFile: Path)
    requires Installed(entries, hookPaths, executableFile)
    ensures InstallAll(entries, hookPaths, executableFile)
         == InstallRun(entries, LinkPaths(hookPaths, executableFile), None)
  {
    if hookPaths != [] {
      var init := hookPaths[..|hookPaths| - 1];
      var last := hookPaths[|hookPaths| - 1];
      assert Installed(entries, init, executableFile) by {
        forall i | 0 <= i < |init| ensures init[i] == hookPaths[i] { }
      }
      InstallOverInstalled(entries, init, executableFile);
      InstallHookStep(entries, last, executableFile);
      MkPathPresent(entries, last);
      var link := LinkPath(last, executableFile);
      assert entries[link := Symlink(executableFile)] == entries;
      LinkPathsSnoc(hookPaths, executableFile);
    }
  }

  /** `mkpath` of a directory whose ancestors all exist changes nothing. */
  lemma MkPathPresent(entries: map<Path, Entry>, p: Path)
    requires Ancestors(p) <= entries.Keys
    ensures MkPath(entries, p) == entries
  {
  }

  /** Installing a second time changes nothing: over the result of a first
      run, the second run leaves the same filesystem, reports the same link
      paths and, when the first run failed, fails at the same link path. */
  lemma InstallIdempotent(entries: map<Path, Entry>, hookPaths: seq<Path>, executableFile: Path)
    ensures var once := InstallAll(entries, hookPaths, executableFile);
      InstallAll(once.entries, hookPaths, executableFile) == once
  {
    var once := InstallAll(entries, hookPaths, executableFile);
    if once.blocked.None? {
      InstallEstablishes(entries, hookPaths, executableFile);
      InstallProgress(entries, hookPaths, executableFile);
      InstallOverInstalled(once.entries, hookPaths, executableFile);
    } else {
      var k := BlockedAt(entries, hookPaths, executableFile);
      ReinstallBlocked(entries, hookPaths, k, executableFile);
    }
  }

  /** A failed run failed at some iteration `k`: the first `k` hook paths
      went through, the `k`-th iteration failed, and nothing came after it. */
  lemma {:induction false} BlockedAt(entries: map<Path, Entry>, hookPaths: seq<Path>, executableFile: Path) returns (k: nat)
    requires InstallAll(entries, hookPaths, executableFile).blocked.Some?
    ensures k < |hookPaths|
    ensures InstallAll(entries, hookPaths[..k], executableFile).blocked.None?
    ensures InstallHook(InstallAll(entries, hookPaths[..k], executableFile).entries, hookPaths[k], executableFile).blocked.Some?
    ensures InstallAll(entries, hookPaths, executableFile) == InstallAll(entries, hookPaths[..k + 1], executableFile)
  {
    assert hookPaths != [];
    var init := hookPaths[..|hookPaths| - 1];
    var r := InstallAll(entries, init, executableFile);
    if r.blocked.Some? {
      assert InstallAll(entries, hookPaths, executableFile) == r;
      k := BlockedAt(entries, init, executableFile);
      assert hookPaths[..k] == init[..k] && hookPaths[..k + 1] == init[..k + 1];
      assert hookPaths[k] == init[k];
    } else {
      k := |init|;
      assert hookPaths[..k] == init && hookPaths[..k + 1] == hookPaths;
    }
  }

  /** `mkpath` keeps every hook linked. */
  lemma InstalledMkPath(entries: map<Path, Entry>, hookPaths: seq<Path>, p: Path, executableFile: Path)
    requires Installed(entries, hookPaths, executableFile)
    ensures Installed(MkPath(entries, p), hookPaths, executableFile)
  {
  }

  /** Re-running an install that failed at iteration `k` goes through the
      first `k` hook paths unchanged and fails at the same link path. */
  lemma ReinstallBlocked(entries: map<Path, Entry>, hookPaths: seq<Path>, k: nat, executableFile: Path)
    requires k < |hookPaths|
    requires InstallAll(entries, hookPaths[..k], executableFile).blocked.None?
    requires InstallHook(InstallAll(entries, hookPaths[..k], executableFile).entries, hookPaths[k], executableFile).blocked.Some?
    requires InstallAll(entries, hookPaths, executableFile) == InstallAll(entries, hookPaths[..k + 1], executableFile)
    ensures var once := InstallAll(entries, hookPaths, executableFile);
      InstallAll(once.entries, hookPaths, executableFile) == once
  {
    var pre := hookPaths[..k];
    var p := InstallAll(entries, pre, executableFile);
    var link := LinkPath(hookPaths[k], executableFile);
    InstallHookStep(p.entries, hookPaths[k], executableFile);
    var e := MkPath(p.entries, hookPaths[k]);
    InstallAllSnoc(entries, hookPaths, k, executableFile);
    var once := InstallRun(e, p.progress + [link], Some(link));
    assert InstallAll(entries, hookPaths, executableFile) == once;
    InstallProgress(entries, pre, executableFile);
    InstallEstablishes(entries, pre, executableFile);
    InstalledMkPath(p.entries, pre, hookPaths[k], executableFile);
    InstallOverInstalled(e, pre, executableFile);
    MkPathPresent(e, hookPaths[k]);
    InstallHookStep(e, hookPaths[k], executableFile);
    InstallAllSnoc(e, hookPaths, k, executableFile);
    assert InstallAll(e, hookPaths[..k + 1], executableFile) == once;
    InstallStopsWhenBlocked(e, hookPaths, k + 1, executableFile);
  }

  /** The body of `install`'s loop for one hook path: make the directory,
      replace a symlink at the link path, and link it to the executable.
      Returns the link path given to the callback and whether the link was
      made; `make_symlink` fails when the path is still occupied. */
  method LinkHook(hookPath: Path, executableFile: Path, fs: FileSystem) returns (link: Path, created: bool)
    modifies fs
    ensures var s := InstallHook(old(fs.entries), hookPath, executableFile);
      && fs.entries == s.entries && [link] == s.progress
      && (created <==> s.blocked.None?) && (!created ==> s.blocked == Some(link))
  {
    InstallHookStep(fs.entries, hookPath, executableFile);
    fs.MakePath(hookPath);
    link := Join(hookPath, Basename(executableFile));
    if fs.IsSymlink(link) {
      fs.Unlink(link);
    }
    created := fs.MakeSymlink(link, executableFile);
  }

  /** The loop of `install` over the given hook paths, stopping at the first
      link path that `make_symlink` cannot create. */
  method LinkHooks(executableFile: Path, hookPaths: seq<Path>, fs: FileSystem)
    returns (blocked: Option<Path>, ghost progress: seq<Path>)
    modifies fs
    ensures var r := InstallAll(old(fs.entries), hookPaths, executableFile);
      fs.entries == r.entries && progress == r.progress && blocked == r.blocked
  {
    blocked, progress := None, [];
    var i := 0;
    while i < |hookPaths|
      invariant 0 <= i <= |hookPaths|
      invariant InstallAll(old(fs.entries), hookPaths[..i], executableFile) == InstallRun(fs.entries, progress, None)
    {
      InstallAllSnoc(old(fs.entries), hookPaths, i, executableFile);
      var link, created := LinkHook(hookPaths[i], executableFile, fs);
      progress := progress + [link];
      if !created {
        blocked := Some(link);
        InstallStopsWhenBlocked(old(fs.entries), hookPaths, i + 1, executableFile);
        return;
      }
      i := i + 1;
    }
    assert hookPaths[..i] == hookPaths;
  }

  /** `install(executable_path, base_directory)`: for each used hook path,
      make the directory, report the link path, replace a symlink there and
      link it to the executable. Returns the link path at which
      `make_symlink` failed, if it did. */
  method Install(executableFile: Path, baseDirectory: Path, implemented: set<HandlerId>, fs: FileSystem)
    returns (blocked: Option<Path>, ghost progress: seq<Path>)
    modifies fs
    ensures var r := InstallAll(old(fs.entries), UsedHookPaths(baseDirectory, implemented), executableFile);
      fs.entries == r.entries && progress == r.progress && blocked == r.blocked
  {
    blocked, progress := LinkHooks(executableFile, UsedHookPaths(baseDirectory, implemented), fs);
  }

  // ---------------------------------------------------------------------
  // Uninstall

  /** The filesystem after some iterations of `uninstall`, and the paths
      given to the callback. */
  datatype UninstallRun = UninstallRun(entries: map<Path, Entry>, progress: seq<Path>)

  /** One iteration: report the link path, and remove it if it is a symlink. */
  function UninstallHook(entries: map<Path, Entry>, hookPath: Path, executableFile: Path): UninstallRun {
    var link := LinkPath(hookPath, executableFile);
    UninstallRun(if link in entries && entries[link].Symlink? then entries - {link} else entries, [link])
  }

  function UninstallAll(entries: map<Path, Entry>, hookPaths: seq<Path>, executableFile: Path): UninstallRun
    decreases |hookPaths|
  {
    if hookPaths == [] then UninstallRun(entries, [])
    else
      var r := UninstallAll(entries, hookPaths[..|hookPaths| - 1], executableFile);
      var s := UninstallHook(r.entries, hookPaths[|hookPaths| - 1], executableFile);
      UninstallRun(s.entries, r.progress + s.progress)
  }

  /** The filesystem without the symlinks that sit at the given link paths. */
  function WithoutLinks(entries: map<Path, Entry>, links: seq<Path>): map<Path, Entry> {
    map q | q in entries && !(q in links && entries[q].Symlink?) :: entries[q]
  }

  /** Uninstalling removes exactly the symlinks at the link paths, whatever
      they point to, keeps everything else, and reports every link path
      whether or not anything was there. */
  lemma {:induction false} UninstallRemovesLinks(entries: map<Path, Entry>, hookPaths: seq<Path>, executableFile: Path)
    ensures UninstallAll(entries, hookPaths, executableFile)
         == UninstallRun(WithoutLinks(entries, LinkPaths(hookPaths, executableFile)), LinkPaths(hookPaths, executableFile))
  {
    if hookPaths != [] {
      var init := hookPaths[..|hookPaths| - 1];
      var link := LinkPath(hookPaths[|hookPaths| - 1], executableFile);
      UninstallRemovesLinks(entries, init, executableFile);
      LinkPathsSnoc(hookPaths, executableFile);
      WithoutLinksSnoc(entries, LinkPaths(init, executableFile), link);
    }
  }

  /** Removing a symlink at one more link path. */
  lemma WithoutLinksSnoc(entries: map<Path, Entry>, links: seq<Path>, link: Path)
    ensures var e := WithoutLinks(entries, links);
      WithoutLinks(entries, links + [link])
      == if link in e && e[link].Symlink? then e - {link} else e
  {
    var e := WithoutLinks(entries, links);
    forall q ensures q in WithoutLinks(entries, links + [link]) <==> q in (if link in e && e[link].Symlink? then e - {link} else e) {
      assert q in links + [link] <==> q in links || q == link;
    }
  }

  /** Uninstalling where no link path holds a symlink changes nothing. */
  lemma UninstallWithoutLinks(entries: map<Path, Entry>, hookPaths: seq<Path>, executableFile: Path)
    requires forall q :: q in LinkPaths(hookPaths, executableFile) && q in entries ==> !entries[q].Symlink?
    ensures UninstallAll(entries, hookPaths, executableFile).entries == entries
  {
    UninstallRemovesLinks(entries, hookPaths, executableFile);
  }

  /** Uninstalling twice gives the filesystem of uninstalling once; the
      second run reports every link path again. */
  lemma UninstallIdempotent(entries: map<Path, Entry>, hookPaths: seq<Path>, executableFile: Path)
    ensures var once := UninstallAll(entries, hookPaths, executableFile).entries;
      UninstallAll(once, hookPaths, executableFile) == UninstallRun(once, LinkPaths(hookPaths, executableFile))
  {
    var once := UninstallAll(entries, hookPaths, executableFile).entries;
    UninstallRemovesLinks(entries, hookPaths, executableFile);
    UninstallRemovesLinks(once, hookPaths, executableFile);
    assert WithoutLinks(once, LinkPaths(hookPaths, executableFile)) == once;
  }

  /** The loop of `uninstall` over the given hook paths. */
  method UnlinkHooks(executableFile: Path, hookPaths: seq<Path>, fs: FileSystem)
    returns (ghost progress: seq<Path>)
    modifies fs
    ensures var r := UninstallAll(old(fs.entries), hookPaths, executableFile);
      fs.entries == r.entries && progress == r.progress
  {
    var executableName := Basename(executableFile);
    progress := [];
    var i := 0;
    while i < |hookPaths|
      invariant 0 <= i <= |hookPaths|
      invariant UninstallAll(old(fs.entries), hookPaths[..i], executableFile) == UninstallRun(fs.entries, progress)
    {
      assert hookPaths[..i + 1][..i] == hookPaths[..i];
      var link := Join(hookPaths[i], executableName);
      progress := progress + [link];
      if fs.IsSymlink(link) {
        fs.Unlink(link);
      }
      i := i + 1;
    }
    assert hookPaths[..i] == hookPaths;
  }

  /** `uninstall(executable_path, base_directory)`: for each used hook path,
      report the link path and remove it if it is a symlink. */
  method Uninstall(executableFile: Path, baseDirectory: Path, implemented: set<HandlerId>, fs: FileSystem)
    returns (ghost progress: seq<Path>)
    modifies fs
    ensures var r := UninstallAll(old(fs.entries), UsedHookPaths(baseDirectory, implemented), executableFile);
      fs.entries == r.entries && progress == r.progress
  {
    progress := UnlinkHooks(executableFile, UsedHookPaths(baseDirectory, implemented), fs);
  }
}
