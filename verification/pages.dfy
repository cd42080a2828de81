/**
 * Listing a bucket while the store runs (`list` in src/drivers/local_fs.py): what the pages of a walk can have seen
 * of the trees of a run, and what they report in the end.
 */
module Pages {
  import opened Strings
  import opened Options
  import opened KeyGrammar
  import opened Layout
  import opened FileSystem
  import opened Policy
  import opened Machine
  import opened Safety
  import opened Agreement
  import opened MapStore
  import opened Calm
  import opened Listing
  import Paths

  predicate UnderBucket(f: Path, bucket: string) { |f| >= 2 && f[0] == bucket }

  /** `os.path.relpath` of every file below the bucket's directory. */
  function KeysIn(fs: Fs, bucket: string): set<string>
  {
    set f | f in fs.files && UnderBucket(f, bucket) :: Join(f[1..], '/')
  }

  predicate IsBucket(bucket: string) { bucket != META_DIR && bucket != TMP_DIR }

  /** In a reachable tree the keys found below a bucket are exactly those of its objects, each at its own path. */
  lemma KeysExact(cfg: Config, fs: Fs, issued: set<string>, commits: seq<Commit>, bucket: string, k: string)
    requires GoodTree(fs, issued, commits) && GoodCommits(cfg, commits) && IsBucket(bucket)
    ensures k in KeysIn(fs, bucket) <==> ObjPath(Id(bucket, k)) in fs.files
    ensures "" !in KeysIn(fs, bucket)
    ensures forall f :: f in fs.files && UnderBucket(f, bucket) ==> f == ObjPath(Id(bucket, Join(f[1..], '/')))
  {
    hide ObjPath, ValidId, S2sCap, UserCap, ServiceOnly;
    forall f | f in fs.files && UnderBucket(f, bucket)
      ensures f == ObjPath(Id(bucket, Join(f[1..], '/'))) && Join(f[1..], '/') != ""
    {
      assert InBucket(f);
      assert Backed(f, fs.files[f], commits);
      var i :| 0 <= i < |commits| && ObjPath(commits[i].job.id) == f
               && fs.files[f].content == Bytes(commits[i].payload);
      KeyOfPath(commits[i].job.id);
      ValidKeyIsNotEmpty(commits[i].job.id, cfg.settings.buckets);
    }
    if ObjPath(Id(bucket, k)) in fs.files {
      KeyOfPath(Id(bucket, k));
      assert UnderBucket(ObjPath(Id(bucket, k)), bucket);
    }
  }

  lemma KeyOfPath(id: Id)
    ensures Join(ObjPath(id)[1..], '/') == id.key
  {
    assert ObjPath(id)[1..] == Split(id.key, '/');
    JoinOfSplit(id.key, '/');
  }

  lemma ValidKeyIsNotEmpty(id: Id, buckets: seq<string>)
    requires ValidId(id, buckets)
    ensures id.key != ""
  {
  }

  // ---- Head over a changing tree -------------------------------------------

  /** `head` whose actions see these trees, one each. */
  ghost function HeadOver(cfg: Config, id: Id, look: Look, trees: seq<Fs>): Option<ObjectInfo>
    decreases |trees|
  {
    if trees == [] then None
    else
      var looked := LookStep(cfg, trees[0], id, look, false);
      if looked.Seen? then looked.info else HeadOver(cfg, id, looked.look, trees[1..])
  }

  /** Without faults `head` answers exactly when its first action sees something at the path and its second a file. */
  lemma HeadOverExact(cfg: Config, id: Id, trees: seq<Fs>)
    requires |trees| == 4
    ensures HeadOver(cfg, id, Stat, trees).Some? <==> Exists(trees[0], ObjPath(id)) && ObjPath(id) in trees[1].files
  {
    hide ObjPath, MetaPath, SidecarInfo, FallbackInfo, HeadOver;
    var size := if ObjPath(id) in trees[0].files then |DataOf(trees[0].files[ObjPath(id)])| else 0;
    HeadOverUnfolds(cfg, id, Stat, trees);
    HeadOverUnfolds(cfg, id, IsFile(size), trees[1..]);
    HeadOverUnfolds(cfg, id, ReadSidecar(size), trees[2..]);
    HeadOverUnfolds(cfg, id, Rehash(size), trees[3..]);
    assert trees[1..][1..] == trees[2..] && trees[2..][1..] == trees[3..];
  }

  lemma HeadOverUnfolds(cfg: Config, id: Id, look: Look, trees: seq<Fs>)
    requires trees != []
    ensures HeadOver(cfg, id, look, trees) ==
            var looked := LookStep(cfg, trees[0], id, look, false);
            if looked.Seen? then looked.info else HeadOver(cfg, id, looked.look, trees[1..])
  {
  }

  // ---- The pages of a walk -------------------------------------------------

  /**
   * A page that ran from tree `lo` to tree `hi` of a run. Its walk read directory `d` in tree `readAt(d)` and found the
   * keys `found`; `head` of key `k` looked at the trees `lookAt(k)`.
   */
  datatype PageRun = PageRun(
    lo: nat,
    hi: nat,
    limit: nat,
    readAt: Path -> nat,
    found: set<string>,
    lookAt: string -> seq<nat>)

  ghost function Trees(s: Sys): seq<Fs> { s.past + [s.fs] }

  /** The trees `head` of `k` looked at. */
  ghost function SeenBy(s: Sys, r: PageRun, k: string): seq<Fs>
  {
    seq(|r.lookAt(k)|, j requires 0 <= j < |r.lookAt(k)| => TreeAt(s, r.lookAt(k)[j]))
  }

  ghost predicate Present(s: Sys, bucket: string, k: string, n: nat)
  {
    n <= |s.past| && ObjPath(Id(bucket, k)) in Trees(s)[n].files
  }

  ghost function TreeAt(s: Sys, n: nat): Fs { if n <= |s.past| then Trees(s)[n] else s.fs }

  /** `os.walk` comes to a directory: the bucket's own, or one it saw when it read the directory above. */
  ghost predicate Visited(s: Sys, bucket: string, r: PageRun, d: Path)
    decreases |d|
  {
    if |d| <= 1 then d == [bucket] else Visited(s, bucket, r, Parent(d)) && d in TreeAt(s, r.readAt(Parent(d))).dirs
  }

  /** It yields the files it sees when it reads a directory it has come to. */
  ghost predicate Yields(s: Sys, bucket: string, r: PageRun, f: Path)
  {
    |f| >= 2 && Visited(s, bucket, r, Parent(f)) && f in TreeAt(s, r.readAt(Parent(f))).files
  }

  ghost predicate YieldsKey(s: Sys, bucket: string, r: PageRun, k: string)
  {
    exists f :: Yields(s, bucket, r, f) && Join(f[1..], '/') == k
  }

  /**
   * The walk reads each directory in one tree of the page, and finds the keys of the files it yields. Every `head`
   * makes its four actions while the page runs.
   */
  ghost predicate PageRan(s: Sys, bucket: string, r: PageRun)
  {
    && r.lo <= r.hi <= |s.past|
    && (forall d :: r.lo <= r.readAt(d) <= r.hi)
    && (forall k :: k in r.found <==> YieldsKey(s, bucket, r, k))
    && (forall k :: |r.lookAt(k)| == 4 && forall j :: 0 <= j < 4 ==> r.lo <= r.lookAt(k)[j] <= r.hi)
  }

  lemma {:induction false} VisitedIsUnderBucket(s: Sys, bucket: string, r: PageRun, d: Path)
    requires Visited(s, bucket, r, d)
    ensures d != [] && d[0] == bucket
    decreases |d|
  {
    if |d| > 1 {
      VisitedIsUnderBucket(s, bucket, r, Parent(d));
    }
  }

  /** Every directory above a file that is there all the time is read, and so is the one it is in. */
  lemma {:induction false} SteadyFileIsApproached(s: Sys, bucket: string, r: PageRun, f: Path, n: nat)
    requires PageRan(s, bucket, r) && 1 <= n < |f| && f[0] == bucket
    requires forall i :: r.lo <= i <= r.hi ==> WellFormed(Trees(s)[i]) && f in Trees(s)[i].files
    ensures Visited(s, bucket, r, f[..n])
    decreases n
  {
    hide WellFormed, YieldsKey;
    if n == 1 {
      assert f[..1] == [bucket];
    } else {
      SteadyFileIsApproached(s, bucket, r, f, n - 1);
      assert Parent(f[..n]) == f[..n - 1];
      var i := r.readAt(f[..n - 1]);
      AboveFile(Trees(s)[i], f, n);
    }
  }

  /** Every earlier tree of a run was well formed. */
  lemma {:induction false} PastIsWellFormed(cfg: Config, s: Sys, steps: seq<Step>, t: Sys)
    requires Inv(cfg, s) && Runs(cfg, s, steps, t) && forall i :: 0 <= i <= |s.past| ==> WellFormed(Trees(s)[i])
    ensures forall i :: 0 <= i <= |t.past| ==> WellFormed(Trees(t)[i])
    decreases |steps|
  {
    hide Inv, WellFormed, Enabled, Runs;
    RunsUnfold(cfg, s, steps, t);
    if steps != [] {
      var u := Next(cfg, s, steps[0]);
      NextKeepsInv(cfg, s, steps[0]);
      InvIsWellFormed(cfg, u);
      assert u.past == s.past + [s.fs];
      assert forall i :: 0 <= i <= |s.past| ==> Trees(u)[i] == Trees(s)[i];
      PastIsWellFormed(cfg, u, steps[1..], t);
    }
  }

  lemma InvIsWellFormed(cfg: Config, s: Sys)
    requires Inv(cfg, s)
    ensures WellFormed(s.fs)
  {
    hide WellFormed, GoodTree, GoodSidecars, GoodCommits, GoodProc, LayoutDirs, Owned, Distinct;
  }

  lemma TreesAreWellFormed(cfg: Config, s: Sys)
    requires Reachable(cfg, s)
    ensures Inv(cfg, s) && forall i :: 0 <= i <= |s.past| ==> WellFormed(Trees(s)[i])
  {
    hide Inv, Runs, WellFormed;
    var init: Sys, steps: seq<Step> :| Initial(cfg, init) && Runs(cfg, init, steps, s);
    InitialInv(cfg, init);
    ReachableInv(cfg, s);
    PastIsWellFormed(cfg, init, steps, s);
  }

  /** The walk finds no key the bucket did not hold at some moment of the page. */
  lemma WalkIsSound(cfg: Config, s: Sys, bucket: string, r: PageRun, k: string)
    requires Reachable(cfg, s) && IsBucket(bucket) && PageRan(s, bucket, r) && k in r.found
    ensures exists n :: r.lo <= n <= r.hi && Present(s, bucket, k, n)
  {
    hide Inv, Reachable, ObjPath, IsBucket, KeysIn, Visited, WellFormed;
    TreesAreWellFormed(cfg, s);
    assert YieldsKey(s, bucket, r, k);
    var f :| Yields(s, bucket, r, f) && Join(f[1..], '/') == k;
    var n := r.readAt(Parent(f));
    VisitedIsUnderBucket(s, bucket, r, Parent(f));
    assert f[0] == Parent(f)[0];
    TreeKeysExact(cfg, s, bucket, n, f);
    assert Present(s, bucket, k, n);
  }

  /** Over a tree that rests a page finds exactly the bucket's keys. */
  lemma StillPage(cfg: Config, s: Sys, bucket: string, limit: nat) returns (r: PageRun)
    requires Inv(cfg, s)
    ensures PageRan(s, bucket, r) && r.limit == limit && r.found == KeysIn(s.fs, bucket)
  {
    hide ObjPath, GoodTree, GoodCommits, GoodSidecars, GoodProc, Distinct, Owned, LayoutDirs, Visited;
    var n := |s.past|;
    r := PageRun(n, n, limit, _ => n, KeysIn(s.fs, bucket), _ => [n, n, n, n]);
    forall f ensures Yields(s, bucket, r, f) <==> f in s.fs.files && UnderBucket(f, bucket) {
      if f in s.fs.files && UnderBucket(f, bucket) {
        StillVisited(s, bucket, r, Parent(f));
      }
      if Yields(s, bucket, r, f) {
        VisitedIsUnderBucket(s, bucket, r, Parent(f));
      }
    }
  }

  lemma {:induction false} StillVisited(s: Sys, bucket: string, r: PageRun, d: Path)
    requires WellFormed(s.fs) && d in s.fs.dirs && d != [] && d[0] == bucket
    requires forall e :: r.readAt(e) == |s.past|
    ensures Visited(s, bucket, r, d)
    decreases |d|
  {
    if |d| == 1 {
      assert d == [bucket];
    } else {
      StillVisited(s, bucket, r, Parent(d));
    }
  }

  lemma TreeKeysExact(cfg: Config, s: Sys, bucket: string, n: nat, f: Path)
    requires Inv(cfg, s) && IsBucket(bucket) && n <= |s.past| && f in Trees(s)[n].files && UnderBucket(f, bucket)
    ensures f == ObjPath(Id(bucket, Join(f[1..], '/')))
  {
    hide ObjPath, GoodTree, GoodCommits, GoodSidecars, GoodProc, Distinct, Owned, WellFormed, LayoutDirs, KeysIn,
         IsBucket;
    assert GoodTree(Trees(s)[n], s.issued, s.commits);
    KeysExact(cfg, Trees(s)[n], s.issued, s.commits, bucket, "");
  }

  /** It misses none the bucket held all the time: each directory on the way was there when the one above was read. */
  lemma WalkIsComplete(cfg: Config, s: Sys, bucket: string, r: PageRun, k: string)
    requires Reachable(cfg, s) && PageRan(s, bucket, r) && forall n :: r.lo <= n <= r.hi ==> Present(s, bucket, k, n)
    ensures k in r.found
  {
    hide Inv, Reachable, ObjPath, Visited, WellFormed;
    TreesAreWellFormed(cfg, s);
    var f := ObjPath(Id(bucket, k));
    forall i | r.lo <= i <= r.hi ensures WellFormed(Trees(s)[i]) && f in Trees(s)[i].files {
      assert Present(s, bucket, k, i);
    }
    SteadyFileIsApproached(s, bucket, r, f, |f| - 1);
    assert Parent(f) == f[..|f| - 1];
    KeyOfPath(Id(bucket, k));
    assert Yields(s, bucket, r, f);
    assert YieldsKey(s, bucket, r, k);
  }

  ghost function RoundOf(cfg: Config, s: Sys, bucket: string, r: PageRun): Round
  {
    Round(r.found, (set k | k in r.found && HeadOver(cfg, Id(bucket, k), Stat, SeenBy(s, r, k)).Some?), r.limit)
  }

  ghost function Histories(s: Sys, bucket: string, r: PageRun): seq<set<string>>
    requires r.lo <= r.hi <= |s.past|
  {
    seq(r.hi - r.lo + 1, j requires 0 <= j < r.hi - r.lo + 1 => KeysIn(Trees(s)[r.lo + j], bucket))
  }

  lemma PresentIsInKeys(cfg: Config, s: Sys, bucket: string, k: string, n: nat)
    requires Inv(cfg, s) && IsBucket(bucket) && n <= |s.past|
    ensures Present(s, bucket, k, n) <==> k in KeysIn(Trees(s)[n], bucket)
    ensures "" !in KeysIn(Trees(s)[n], bucket)
  {
    hide ObjPath, GoodTree, GoodCommits, GoodSidecars, GoodProc, Distinct, Owned, WellFormed, LayoutDirs, KeysIn,
         IsBucket;
    assert GoodTree(Trees(s)[n], s.issued, s.commits);
    KeysExact(cfg, Trees(s)[n], s.issued, s.commits, bucket, k);
  }

  lemma PageObserves(cfg: Config, s: Sys, bucket: string, r: PageRun)
    requires Reachable(cfg, s) && IsBucket(bucket) && PageRan(s, bucket, r)
    ensures Observed(Histories(s, bucket, r), RoundOf(cfg, s, bucket, r))
    ensures "" !in r.found
  {
    hide ObjPath, Inv, Reachable, KeysIn, IsBucket, HeadOver, Present, YieldsKey;
    ReachableInv(cfg, s);
    var present := Histories(s, bucket, r);
    forall k | k in r.found ensures k != "" && exists i :: 0 <= i < |present| && k in present[i] {
      WalkIsSound(cfg, s, bucket, r, k);
      var n :| r.lo <= n <= r.hi && Present(s, bucket, k, n);
      PresentIsInKeys(cfg, s, bucket, k, n);
      assert k in present[n - r.lo];
    }
    forall k | forall i :: 0 <= i < |present| ==> k in present[i]
      ensures k in r.found && HeadOver(cfg, Id(bucket, k), Stat, SeenBy(s, r, k)).Some?
    {
      forall n | r.lo <= n <= r.hi ensures Present(s, bucket, k, n) {
        assert k in present[n - r.lo];
        PresentIsInKeys(cfg, s, bucket, k, n);
      }
      WalkIsComplete(cfg, s, bucket, r, k);
      HeadOverExact(cfg, Id(bucket, k), SeenBy(s, r, k));
      PresentIsSeen(s, bucket, r, k, 0);
      PresentIsSeen(s, bucket, r, k, 1);
    }
  }

  lemma PresentIsSeen(s: Sys, bucket: string, r: PageRun, k: string, j: nat)
    requires PageRan(s, bucket, r) && j < 4
    requires forall n :: r.lo <= n <= r.hi ==> Present(s, bucket, k, n)
    ensures ObjPath(Id(bucket, k)) in SeenBy(s, r, k)[j].files
  {
    hide ObjPath;
    assert Present(s, bucket, k, r.lookAt(k)[j]);
  }

  ghost function RoundsOf(cfg: Config, s: Sys, bucket: string, pages: seq<PageRun>): seq<Round>
  {
    seq(|pages|, i requires 0 <= i < |pages| => RoundOf(cfg, s, bucket, pages[i]))
  }

  ghost function AllHistories(s: Sys, bucket: string, pages: seq<PageRun>): seq<seq<set<string>>>
    requires AllRan(s, bucket, pages)
  {
    seq(|pages|, i requires 0 <= i < |pages| => Histories(s, bucket, pages[i]))
  }

  ghost predicate AllRan(s: Sys, bucket: string, pages: seq<PageRun>)
  {
    forall i :: 0 <= i < |pages| ==> PageRan(s, bucket, pages[i])
  }

  /** The bucket held the key at some moment of some page. */
  ghost predicate HeldSometime(s: Sys, bucket: string, pages: seq<PageRun>, k: string)
  {
    exists i, n :: 0 <= i < |pages| && pages[i].lo <= n <= pages[i].hi && Present(s, bucket, k, n)
  }

  /** The bucket held the key while any page ran. */
  ghost predicate HeldThroughout(s: Sys, bucket: string, pages: seq<PageRun>, k: string)
  {
    forall i, n :: 0 <= i < |pages| && pages[i].lo <= n <= pages[i].hi ==> Present(s, bucket, k, n)
  }

  lemma PagesObserve(cfg: Config, s: Sys, bucket: string, pages: seq<PageRun>)
    requires Reachable(cfg, s) && IsBucket(bucket) && AllRan(s, bucket, pages)
    requires forall i :: 0 <= i < |pages| ==> pages[i].limit >= 1
    ensures AllObserved(AllHistories(s, bucket, pages), RoundsOf(cfg, s, bucket, pages))
    ensures Sound(RoundsOf(cfg, s, bucket, pages))
  {
    hide Inv, Reachable, KeysIn, IsBucket, HeadOver, Present, YieldsKey, RoundOf, Observed;
    forall i | 0 <= i < |pages|
      ensures Observed(Histories(s, bucket, pages[i]), RoundOf(cfg, s, bucket, pages[i]))
      ensures "" !in RoundOf(cfg, s, bucket, pages[i]).found && RoundOf(cfg, s, bucket, pages[i]).limit >= 1
    {
      PageObserves(cfg, s, bucket, pages[i]);
      RoundFields(cfg, s, bucket, pages[i]);
    }
  }

  lemma MomentsAreTrees(cfg: Config, s: Sys, bucket: string, pages: seq<PageRun>, k: string)
    requires Inv(cfg, s) && IsBucket(bucket) && AllRan(s, bucket, pages)
    ensures AtSomeMoment(AllHistories(s, bucket, pages), k) ==> HeldSometime(s, bucket, pages, k)
    ensures HeldThroughout(s, bucket, pages, k) ==> Throughout(AllHistories(s, bucket, pages), k)
  {
    hide Inv, KeysIn, IsBucket, Present, YieldsKey;
    var histories := AllHistories(s, bucket, pages);
    forall i, j | 0 <= i < |histories| && 0 <= j < |histories[i]|
      ensures k in histories[i][j] <==> Present(s, bucket, k, pages[i].lo + j)
    {
      PresentIsInKeys(cfg, s, bucket, k, pages[i].lo + j);
    }
  }

  /**
   * A complete walk over any reachable run, with writes, deletes, crashes and sweeps between and during its pages: the
   * keys reported are strictly increasing and carry the prefix; each was in the bucket at some moment of the walk; and
   * a matching key that was in the bucket throughout is reported exactly once.
   */
  lemma WalkOverRun(cfg: Config, s: Sys, bucket: string, pages: seq<PageRun>, prefix: string, k: string)
    requires Reachable(cfg, s) && IsBucket(bucket) && AllRan(s, bucket, pages)
    requires forall i :: 0 <= i < |pages| ==> pages[i].limit >= 1
    requires Complete(RoundsOf(cfg, s, bucket, pages), prefix, None)
    ensures var reported := Reported(RoundsOf(cfg, s, bucket, pages), prefix, None);
            && Ascending(reported)
            && (k in reported ==> StartsWith(k, prefix) && HeldSometime(s, bucket, pages, k))
            && (StartsWith(k, prefix) && HeldThroughout(s, bucket, pages, k) ==> Once(reported, k))
  {
    hide Inv, Reachable, IsBucket, Reported, Complete, Ascending, RoundsOf, AllObserved, AtSomeMoment, Throughout,
         HeldSometime, HeldThroughout, AllRan, Sound, Once;
    ReachableInv(cfg, s);
    PagesObserve(cfg, s, bucket, pages);
    MomentsAreTrees(cfg, s, bucket, pages, k);
    WalkOverChangingStore(AllHistories(s, bucket, pages), RoundsOf(cfg, s, bucket, pages), prefix, k);
  }

  lemma RoundFields(cfg: Config, s: Sys, bucket: string, r: PageRun)
    ensures RoundOf(cfg, s, bucket, r).found == r.found && RoundOf(cfg, s, bucket, r).limit == r.limit
  {
    hide HeadOver;
  }

  // ---- A quiet store -------------------------------------------------------

  function StoreKeys(store: Store, bucket: string): set<string>
  {
    set id | id in store && id.bucket == bucket :: id.key
  }

  /**
   * After a calm run, with nothing in flight, the tree holds exactly the map's objects with their bytes, and `head`
   * says what the map's does.
   */
  lemma QuietTreeIsTheMap(cfg: Config, U: set<Id>, s: Sys, steps: seq<Step>, t: Sys, id: Id)
    requires Universe(cfg, U) && FreshStore(cfg, U, s) && CalmRun(cfg, U, s, steps, t) && t.procs == map[]
    requires IsBucket(id.bucket)
    ensures ObjPath(id) in t.fs.files <==> id in Replay(cfg, t.log)
    ensures id in Replay(cfg, t.log) ==> t.fs.files[ObjPath(id)].content == Bytes(Replay(cfg, t.log)[id].data)
    ensures HeadAnswer(cfg, t.fs, id) ==
            if id in Replay(cfg, t.log) then Some(InfoOf(cfg, Replay(cfg, t.log)[id])) else None
  {
    hide Inv, Universe, CalmRun, Initial, ObjPath, MetaPath, Replay, ValidId, Faithful, OnTheWay, SidecarInfo,
         HeadAnswer, FallbackInfo, IsBucket, InfoOf;
    FreshStoreIsReady(cfg, U, s);
    InitialInv(cfg, s);
    CalmRunKeepsReady(cfg, U, s, steps, t);
    HeadAnswerIs(cfg, t.fs, id);
    if id in U {
      assert !Between(t, id);
    } else {
      ForeignKeyIsAbsent(cfg, U, t, id);
    }
  }

  lemma ForeignKeyIsAbsent(cfg: Config, U: set<Id>, t: Sys, id: Id)
    requires Inv(cfg, t) && Ready(cfg, U, t) && id !in U && IsBucket(id.bucket)
    ensures ObjPath(id) !in t.fs.files
    ensures id !in Replay(cfg, t.log)
  {
    hide ObjPath, MetaPath, StagePath, ValidId, GoodSidecars, GoodCommits, WellFormed, LayoutDirs, GoodProc, Owned,
         Distinct, Replay, Faithful, OnTheWay, IsSidecar, OnePerKey, ReadyProc, Synced, CallKey;
    ReplayKeys(cfg, t.log, id);
    if ObjPath(id) in t.fs.files {
      assert InBucket(ObjPath(id));
      var i :| 0 <= i < |t.commits| && ObjPath(t.commits[i].job.id) == ObjPath(id);
      PathsOfIds(t.commits[i].job.id, id);
      assert false;
    }
  }

  /** Then every page the driver lists, for a prefix that is not absolute, is the page the map store lists. */
  lemma QuietListIsTheMap(cfg: Config, U: set<Id>, s: Sys, steps: seq<Step>, t: Sys,
                          bucketRoot: string, bucket: string, prefix: string, cursor: Option<string>, limit: nat)
    requires Universe(cfg, U) && FreshStore(cfg, U, s) && CalmRun(cfg, U, s, steps, t) && t.procs == map[]
    requires IsBucket(bucket) && bucketRoot != "" && Last(bucketRoot) != '/' && !Paths.Absolute(prefix)
    ensures var found := set k | k in KeysIn(t.fs, bucket) && Selects(bucketRoot, prefix, k);
            var kept := StoreKeys(Replay(cfg, t.log), bucket);
            PageFrom(Candidates(found, "", cursor), found, limit) == PageFrom(Candidates(kept, prefix, cursor), kept,
                                                                              limit)
  {
    hide Inv, Universe, CalmRun, FreshStore, Replay, IsBucket, KeysIn, Selects, Past, PageFrom, SortedOf;
    FreshStoreIsReady(cfg, U, s);
    InitialIsInv(cfg, U, s);
    CalmRunKeepsReady(cfg, U, s, steps, t);
    var found := set k | k in KeysIn(t.fs, bucket) && Selects(bucketRoot, prefix, k);
    var kept := StoreKeys(Replay(cfg, t.log), bucket);
    forall k ensures k in KeysIn(t.fs, bucket) <==> k in kept {
      InvKeysExact(cfg, t, bucket, k);
      QuietTreeIsTheMap(cfg, U, s, steps, t, Id(bucket, k));
      assert Id(bucket, k) in Replay(cfg, t.log) <==> k in kept;
    }
    forall k ensures Selects(bucketRoot, prefix, k) <==> StartsWith(k, prefix) {
      SelectsRelative(bucketRoot, prefix, k);
    }
    SameCandidates(found, kept, prefix, cursor, limit);
  }

  lemma InitialIsInv(cfg: Config, U: set<Id>, s: Sys)
    requires FreshStore(cfg, U, s)
    ensures Inv(cfg, s)
  {
    hide Inv, OnTheWay;
    InitialInv(cfg, s);
  }

  lemma InvKeysExact(cfg: Config, s: Sys, bucket: string, k: string)
    requires Inv(cfg, s) && IsBucket(bucket)
    ensures k in KeysIn(s.fs, bucket) <==> ObjPath(Id(bucket, k)) in s.fs.files
  {
    hide ObjPath, GoodTree, GoodCommits, GoodSidecars, GoodProc, Distinct, Owned, WellFormed, LayoutDirs, KeysIn,
         IsBucket;
    KeysExact(cfg, s.fs, s.issued, s.commits, bucket, k);
  }

  lemma SameCandidates(found: set<string>, kept: set<string>, prefix: string, cursor: Option<string>, limit: nat)
    requires forall k :: k in found <==> k in kept && StartsWith(k, prefix)
    ensures PageFrom(Candidates(found, "", cursor), found, limit) ==
            PageFrom(Candidates(kept, prefix, cursor), kept, limit)
  {
    hide SortedOf, Past;
    assert (set k | k in found && StartsWith(k, "") && Past(cursor, k))
        == set k | k in kept && StartsWith(k, prefix) && Past(cursor, k);
    var all := Candidates(found, "", cursor);
    var page := Cut(all, limit);
    forall i | 0 <= i < |page| ensures page[i] in found && page[i] in kept {
      assert page[i] == all[i] && all[i] in all;
    }
    AllAliveIn(page, found);
    AllAliveIn(page, kept);
  }

  lemma {:induction false} AllAliveIn(keys: seq<string>, alive: set<string>)
    requires forall i :: 0 <= i < |keys| ==> keys[i] in alive
    ensures Alive(keys, alive) == keys
  {
    if keys != [] {
      AllAliveIn(keys[..|keys| - 1], alive);
      assert keys == keys[..|keys| - 1] + [Last(keys)];
    }
  }
}
