/** An abstract filesystem: what `Pathname` sees of directories, regular
    files and symbolic links. */
module Files {
  import opened Paths

  datatype Entry = Directory | File | Symlink(target: Path)

  /** `p` and every directory above it: each prefix of `p` that ends just
      before a `/`. The root is not an entry. */
  function Ancestors(p: Path): (r: set<Path>)
    ensures p != [] ==> p in r
  {
    assert p != [] ==> p == p[..|p|];
    set i | 0 < i <= |p| && (i == |p| || p[i] == '/') :: p[..i]
  }

  /** `Pathname#mkpath`: every missing ancestor of `p` becomes a directory;
      entries already present are left alone. */
  function MkPath(entries: map<Path, Entry>, p: Path): (r: map<Path, Entry>)
    ensures forall q :: q in Ancestors(p) ==> q in r
    ensures forall q :: q in entries ==> q in r && r[q] == entries[q]
    ensures forall q :: q in r ==> q in entries || (q in Ancestors(p) && r[q] == Directory)
  {
    entries + map q | q in Ancestors(p) && q !in entries :: Directory
  }

  class FileSystem {
    var entries: map<Path, Entry>

    constructor (entries: map<Path, Entry>)
      ensures this.entries == entries
    {
      this.entries := entries;
    }

    /** `Pathname#symlink?`: the entry itself (not what it points to) is a link. */
    predicate IsSymlink(p: Path)
      reads this
    {
      p in entries && entries[p].Symlink?
    }

    method MakePath(p: Path)
      modifies this
      ensures entries == MkPath(old(entries), p)
    {
      entries := MkPath(entries, p);
    }

    /** `Pathname#unlink` of an existing entry. */
    method Unlink(p: Path)
      requires p in entries
      modifies this
      ensures entries == old(entries) - {p}
    {
      entries := entries - {p};
    }

    /** `Pathname#make_symlink`: creates `link` pointing at `target`, and
        fails (EEXIST) when something already occupies `link`. */
    method MakeSymlink(link: Path, target: Path) returns (created: bool)
      modifies this
      ensures created == (link !in old(entries))
      ensures entries == if created then old(entries)[link := Symlink(target)] else old(entries)
    {
      created := link !in entries;
      if created {
        entries := entries[link := Symlink(target)];
      }
    }
  }
}
