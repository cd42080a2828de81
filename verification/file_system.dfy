/** A POSIX file tree below the storage root: regular files, directories, and the calls the driver makes. */
module FileSystem {
  import opened Strings
  import opened Layout

  type Byte = b: int | 0 <= b < 256

  /** A sidecar record; its `uploaded_at` audit stamp is not part of the model. */
  datatype Record =
    Record(contentType: string, etag: string, bytes: nat, uploader: string, metadata: map<string, string>)

  /** Object bytes, a complete sidecar text, or text that is not complete JSON. */
  datatype Content = Bytes(data: seq<Byte>) | Json(record: Record) | Torn

  datatype File = File(content: Content, synced: bool, mtime: int)

  datatype Fs = Fs(files: map<Path, File>, dirs: set<Path>)

  function Parent(p: Path): Path
    requires p != []
  {
    p[..|p| - 1]
  }

  /** Every file and directory hangs below a directory, and nothing is both. */
  ghost predicate WellFormed(fs: Fs)
  {
    && [] in fs.dirs
    && (forall p :: p in fs.files ==> p != [] && p !in fs.dirs && Parent(p) in fs.dirs)
    && (forall d :: d in fs.dirs ==> d == [] || Parent(d) in fs.dirs)
  }

  predicate Exists(fs: Fs, p: Path) { p in fs.files || p in fs.dirs }

  /** May `open(p, "w")` create or replace a file here? */
  predicate MayCreate(fs: Fs, p: Path, nameMax: nat)
  {
    p != [] && Parent(p) in fs.dirs && p !in fs.dirs && |Last(p)| <= nameMax
  }

  function Put(fs: Fs, p: Path, f: File): Fs { fs.(files := fs.files[p := f]) }

  predicate MayMkdir(fs: Fs, p: Path, nameMax: nat)
  {
    p in fs.dirs || (p != [] && Parent(p) in fs.dirs && p !in fs.files && |Last(p)| <= nameMax)
  }

  function Mkdir(fs: Fs, p: Path): Fs { fs.(dirs := fs.dirs + {p}) }

  predicate MayRename(fs: Fs, a: Path, b: Path, nameMax: nat)
  {
    a in fs.files && MayCreate(fs, b, nameMax)
  }

  function Rename(fs: Fs, a: Path, b: Path): Fs
    requires a in fs.files
  {
    fs.(files := (fs.files - {a})[b := fs.files[a]])
  }

  function Unlink(fs: Fs, p: Path): Fs { fs.(files := fs.files - {p}) }

  lemma PutKeeps(fs: Fs, p: Path, f: File, nameMax: nat)
    requires WellFormed(fs) && (p in fs.files || MayCreate(fs, p, nameMax))
    ensures WellFormed(Put(fs, p, f))
  {
  }

  lemma MkdirKeeps(fs: Fs, p: Path, nameMax: nat)
    requires WellFormed(fs) && MayMkdir(fs, p, nameMax)
    ensures WellFormed(Mkdir(fs, p))
  {
  }

  lemma RenameKeeps(fs: Fs, a: Path, b: Path, nameMax: nat)
    requires WellFormed(fs) && MayRename(fs, a, b, nameMax)
    ensures WellFormed(Rename(fs, a, b))
  {
  }

  lemma UnlinkKeeps(fs: Fs, p: Path)
    requires WellFormed(fs)
    ensures WellFormed(Unlink(fs, p))
  {
  }

  /** Everything above a directory is a directory. */
  lemma {:induction false} AboveDirectory(fs: Fs, d: Path, n: nat)
    requires WellFormed(fs) && d in fs.dirs && n <= |d|
    ensures d[..n] in fs.dirs
    decreases |d|
  {
    if n == |d| {
      assert d[..n] == d;
    } else {
      AboveDirectory(fs, Parent(d), n);
      assert Parent(d)[..n] == d[..n];
    }
  }

  /** Everything above a file is a directory, so no file lies above another. */
  lemma AboveFile(fs: Fs, p: Path, n: nat)
    requires WellFormed(fs) && p in fs.files && n < |p|
    ensures p[..n] in fs.dirs && p[..n] !in fs.files
  {
    AboveDirectory(fs, Parent(p), n);
    assert Parent(p)[..n] == p[..n];
  }

  lemma NoFileAboveAnother(fs: Fs, p: Path, q: Path)
    requires WellFormed(fs) && p in fs.files && q in fs.files
    ensures !(p < q)
  {
    assert p < q ==> q[..|p|] == p;
    if |p| < |q| {
      AboveFile(fs, q, |p|);
    }
  }
}
