/** The tile store: the part of the filesystem under the output directory,
    seen as files (path to bytes) and directories. */
module Store {
  import opened Tiles

  type Bytes = seq<bv8>

  /** A snapshot of the filesystem. */
  datatype Disk = Disk(files: map<Path, Bytes>, dirs: set<Path>) {

    /** `Path.exists()`: true for a file and for a directory. */
    predicate Has(p: Path) {
      p in files || p in dirs
    }

    /** `mkdir(parents=True, exist_ok=True)`: `p` and every ancestor exist afterwards. */
    function WithDirs(p: Path): Disk {
      this.(dirs := dirs + Ancestors(p))
    }

    /** `mkdir(exist_ok=True)`: only `p` itself. */
    function WithDir(p: Path): Disk {
      this.(dirs := dirs + {p})
    }

    /** `open(p, 'wb').write(body)`. */
    function WithFile(p: Path, body: Bytes): Disk {
      this.(files := files[p := body])
    }
  }

  /** The non-empty prefixes of a path: the directories `mkdir(parents=True)` ensures. */
  function Ancestors(p: Path): set<Path> {
    set m | 1 <= m <= |p| :: p[..m]
  }

  /** Creating directories never makes a longer path exist, nor touches a file. */
  lemma WithDirsKeepsLongerPaths(d: Disk, p: Path, q: Path)
    requires |q| > |p|
    ensures d.WithDirs(p).Has(q) == d.Has(q)
    ensures d.WithDirs(p).files == d.files
  {
  }

  /** A real filesystem: every proper non-empty prefix of a file or a directory
      is a directory. */
  ghost predicate WellFormed(d: Disk) {
    forall p, m :: d.Has(p) && 1 <= m < |p| ==> p[..m] in d.dirs
  }

  /** `mkdir(parents=True)` on a real filesystem leaves a real filesystem. */
  lemma WithDirsWellFormed(d: Disk, p: Path)
    requires WellFormed(d)
    ensures WellFormed(d.WithDirs(p))
  {
    var e := d.WithDirs(p);
    forall q, m | e.Has(q) && 1 <= m < |q| ensures q[..m] in e.dirs {
      if !d.Has(q) {
        var k :| 1 <= k <= |p| && q == p[..k];
        assert q[..m] == p[..m];
      }
    }
  }

  /** Writing a file whose parent directories all exist leaves a real filesystem. */
  lemma WithFileWellFormed(d: Disk, p: Path, body: Bytes)
    requires WellFormed(d)
    requires forall m :: 1 <= m < |p| ==> p[..m] in d.dirs
    ensures WellFormed(d.WithFile(p, body))
  {
  }

  /** `mkdir(parents=True, exist_ok=True)` of a directory that is already there,
      with all its ancestors, changes nothing. */
  lemma WithDirsExisting(d: Disk, p: Path)
    requires forall m :: 1 <= m <= |p| ==> p[..m] in d.dirs
    ensures d.WithDirs(p) == d
  {
    assert d.dirs + Ancestors(p) == d.dirs;
  }

  /** A mutable view of the filesystem, with the three calls the downloader makes. */
  class FileStore {
    var files: map<Path, Bytes>
    var dirs: set<Path>

    constructor (files: map<Path, Bytes>, dirs: set<Path>)
      ensures Snapshot() == Disk(files, dirs)
    {
      this.files := files;
      this.dirs := dirs;
    }

    function Snapshot(): Disk
      reads this
    {
      Disk(files, dirs)
    }

    method MakeDirs(p: Path)
      modifies this
      ensures Snapshot() == old(Snapshot()).WithDirs(p)
    {
      dirs := dirs + Ancestors(p);
    }

    method MakeDir(p: Path)
      modifies this
      ensures Snapshot() == old(Snapshot()).WithDir(p)
    {
      dirs := dirs + {p};
    }

    method PathExists(p: Path) returns (present: bool)
      ensures present == Snapshot().Has(p)
    {
      present := p in files || p in dirs;
    }

    method WriteBytes(p: Path, body: Bytes)
      modifies this
      ensures Snapshot() == old(Snapshot()).WithFile(p, body)
    {
      files := files[p := body];
    }
  }
}
