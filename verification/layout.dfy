/**
 * The storage tree (src/drivers/paths.py): where objects, sidecars and staging files live below the storage
 * root, as lists of path segments. `Paths` shows that these are the segments the string-level code resolves to.
 */
module Layout {
  import opened Strings
  import opened KeyGrammar
  import Paths

  type Path = seq<string>

  datatype Id = Id(bucket: string, key: string)

  const META_DIR := ".meta"
  const TMP_DIR := ".tmp"

  function ObjPath(id: Id): (p: Path)
    ensures |p| >= 2 && p[0] == id.bucket
  {
    [id.bucket] + Split(id.key, '/')
  }

  function MetaPath(id: Id): (p: Path)
    ensures |p| >= 3 && p[0] == META_DIR && IsSidecar(p)
  {
    MetaKeyEnds(id.key);
    [META_DIR, id.bucket] + Split(id.key + ".json", '/')
  }

  function TmpPath(name: string): (p: Path)
    ensures |p| == 2 && p[0] == TMP_DIR && p[1] == name
  {
    [TMP_DIR, name]
  }

  /** The staging name of a sidecar: `f"{meta_path}.{hex}.tmp"`. */
  function StagePath(id: Id, hex: string): (p: Path)
    ensures |p| == |MetaPath(id)| && p[0] == META_DIR && !IsSidecar(p)
    ensures p[..|p| - 1] == MetaPath(id)[..|p| - 1]
    ensures Last(p) == Last(MetaPath(id)) + "." + hex + ".tmp"
  {
    var p := ExtendLast(MetaPath(id), "." + hex + ".tmp");
    assert Last(MetaPath(id)) + ("." + hex + ".tmp") == Last(MetaPath(id)) + "." + hex + ".tmp";
    StagingIsNotSidecar(Last(MetaPath(id)) + "." + hex, p);
    p
  }

  /** A path in the bucket region: neither sidecar tree nor staging area. */
  predicate InBucket(p: Path) { p != [] && p[0] != META_DIR && p[0] != TMP_DIR }

  predicate InTmp(p: Path) { p != [] && p[0] == TMP_DIR }

  /** A path that carries the final name of a sidecar. */
  predicate IsSidecar(p: Path) { |p| >= 3 && p[0] == META_DIR && EndsWith(Last(p), ".json") }

  predicate ValidId(id: Id, buckets: seq<string>) { Validate(id.bucket, id.key, true, buckets).Accepted? }

  lemma MetaKeyEnds(key: string)
    ensures EndsWith(Last(Split(key + ".json", '/')), ".json")
  {
    SplitAppend(key, ".json", '/');
    SuffixOfAppend(Last(Split(key, '/')), ".json");
  }

  lemma SuffixOfAppend(s: string, suffix: string)
    ensures EndsWith(s + suffix, suffix)
  {
  }

  lemma StagingIsNotSidecar(stem: string, p: Path)
    requires p != [] && Last(p) == stem + ".tmp"
    ensures !IsSidecar(p)
  {
    assert (stem + ".tmp")[|stem| + 3] == 'p';
    assert ".json"[4] == 'n';
  }

  /** Distinct objects have distinct paths, and so do their sidecars. */
  lemma PathsOfIds(a: Id, b: Id)
    ensures ObjPath(a) == ObjPath(b) <==> a == b
    ensures MetaPath(a) == MetaPath(b) <==> a == b
  {
    if ObjPath(a) == ObjPath(b) {
      assert ObjPath(a)[1..] == Split(a.key, '/') && ObjPath(b)[1..] == Split(b.key, '/');
      JoinOfSplit(a.key, '/');
      JoinOfSplit(b.key, '/');
    }
    if MetaPath(a) == MetaPath(b) {
      SidecarSegments(a);
      SidecarSegments(b);
      Paths.AppendInjective(a.key, b.key, ".json");
    }
  }

  lemma SidecarSegments(id: Id)
    ensures MetaPath(id)[1] == id.bucket
    ensures Join(MetaPath(id)[2..], '/') == id.key + ".json"
  {
    assert MetaPath(id)[2..] == Split(id.key + ".json", '/');
    JoinOfSplit(id.key + ".json", '/');
  }

  /** The bucket region and the two reserved directories are disjoint. */
  lemma BucketRegion(id: Id, buckets: seq<string>)
    requires ValidId(id, buckets)
    ensures InBucket(ObjPath(id))
  {
    Paths.ValidBucketPlain(id.bucket, buckets);
    assert META_DIR[0] == '.' && TMP_DIR[0] == '.';
  }

  /** Staging names made from different random parts of the same length differ, whatever they stage. */
  lemma StagePathsDiffer(a: Id, x: string, b: Id, y: string)
    requires |x| == |y| && x != y
    ensures StagePath(a, x) != StagePath(b, y)
  {
    WrappedDiffer(Last(MetaPath(a)), x, Last(MetaPath(b)), y, ".", ".tmp");
  }

  lemma WrappedDiffer(m: string, x: string, n: string, y: string, before: string, after: string)
    requires |x| == |y| && x != y
    ensures m + (before + x + after) != n + (before + y + after)
  {
    var s, t := m + (before + x + after), n + (before + y + after);
    assert s[|s| - |after| - |x|..|s| - |after|] == x;
    assert t[|t| - |after| - |y|..|t| - |after|] == y;
  }

  /** The last segment of a sidecar path is the key's last segment and five more characters. */
  lemma SidecarNameLength(id: Id)
    ensures |MetaPath(id)| == |ObjPath(id)| + 1
    ensures |Last(MetaPath(id))| == |Last(ObjPath(id))| + 5
  {
    SplitAppend(id.key, ".json", '/');
  }

  /** What the string-level code hands to the operating system resolves to these segments. */
  lemma StringPathsAreLayout(root: Path, id: Id, buckets: seq<string>)
    requires Paths.AllPlain(root) && root != [] && ValidId(id, buckets)
    ensures Paths.ObjectPath(Paths.Render(root), id.bucket, id.key) == Paths.Inside(Paths.Render(root + ObjPath(id)))
    ensures Paths.MetaPath(Paths.Render(root), id.bucket, id.key) == Paths.Inside(Paths.Render(root + MetaPath(id)))
  {
    Paths.ValidObjectPath(root, id.bucket, id.key, buckets);
    Paths.ValidMetaPath(root, id.bucket, id.key, buckets);
    Associative(root, [id.bucket], Split(id.key, '/'));
    Associative(root, [META_DIR, id.bucket], Split(id.key + ".json", '/'));
  }

  /** So does the staging path. */
  lemma StagingPathIsLayout(root: Path, hex: string)
    requires Paths.AllPlain(root) && root != [] && Paths.Plain(hex)
    ensures Paths.NewTmpPath(Paths.Render(root), hex) == Paths.Render(root + TmpPath(hex))
  {
    assert Paths.Plain(TMP_DIR);
    Paths.JoinBelow(root, [TMP_DIR]);
    Paths.JoinBelow(root + [TMP_DIR], [hex]);
    assert Join([TMP_DIR], '/') == TMP_DIR && Join([hex], '/') == hex;
    Associative(root, [TMP_DIR], [hex]);
    assert [TMP_DIR] + [hex] == TmpPath(hex);
  }

  lemma Associative(a: Path, b: Path, c: Path)
    ensures a + (b + c) == a + b + c
  {
  }
}
