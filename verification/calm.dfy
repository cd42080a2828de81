/**
 * Refinement: runs without faults, in which operations on one key do not overlap and no two used paths obstruct
 * each other, answer exactly as the map store does. Operations on different keys interleave freely.
 */
module Calm {
  import opened Strings
  import opened Options
  import opened Layout
  import opened FileSystem
  import opened Policy
  import opened Machine
  import opened Safety
  import opened MapStore
  import Paths

  // ---- The runs in question ------------------------------------------------

  /** The keys in use: valid, short enough for their sidecars, and none in the way of another. */
  ghost predicate Universe(cfg: Config, U: set<Id>)
  {
    && (forall u :: u in U ==> Fits(cfg, u))
    && (forall u, v :: u in U && v in U ==> !(ObjPath(u) < ObjPath(v)) && !(MetaPath(u) < MetaPath(v)))
  }

  ghost predicate Fits(cfg: Config, u: Id)
  {
    && ValidId(u, cfg.settings.buckets)
    && cfg.nameMax >= 255
    && |Last(ObjPath(u))| + 42 <= cfg.nameMax
  }

  /** One object's path lies above another's exactly when the other key goes on after this one with a slash. */
  lemma AboveExact(cfg: Config, u: Id, v: Id)
    requires ValidId(u, cfg.settings.buckets) && ValidId(v, cfg.settings.buckets)
    ensures ObjPath(u) < ObjPath(v) <==> u.bucket == v.bucket && u.key + "/" <= v.key
    ensures MetaPath(u) < MetaPath(v) <==> u.bucket == v.bucket && u.key + ".json/" <= v.key
  {
    hide ValidId, Split;
    KeyParts(u, cfg.settings.buckets);
    KeyParts(v, cfg.settings.buckets);
    PrefixBelow([u.bucket], Split(u.key, '/'), [v.bucket], Split(v.key, '/'));
    Paths.JoinPrefix(Split(u.key, '/'), Split(v.key, '/'));
    PrefixBelow([META_DIR, u.bucket], Split(u.key + ".json", '/'), [META_DIR, v.bucket], Split(v.key + ".json", '/'));
    Paths.JoinPrefix(Split(u.key + ".json", '/'), Split(v.key + ".json", '/'));
    SlashIsInKey(u.key + ".json", v.key, ".json");
    assert u.key + ".json" + "/" == u.key + ".json/";
  }

  lemma KeyParts(u: Id, buckets: seq<string>)
    requires ValidId(u, buckets)
    ensures Paths.AllPlain(Split(u.key, '/')) && Join(Split(u.key, '/'), '/') == u.key
    ensures Paths.AllPlain(Split(u.key + ".json", '/')) && Join(Split(u.key + ".json", '/'), '/') == u.key + ".json"
  {
    hide Split;
    Paths.ValidSegmentsPlain(u.key, true);
    SplitAppend(u.key, ".json", '/');
    Paths.ExtendLastPlain(Split(u.key, '/'), ".json");
    JoinOfSplit(u.key + ".json", '/');
  }

  lemma PrefixBelow(a: Path, as': Path, b: Path, bs: Path)
    requires |a| == |b|
    ensures a + as' < b + bs <==> a == b && as' < bs
  {
    var p, q := a + as', b + bs;
    if p < q {
      assert forall i :: 0 <= i < |a| ==> a[i] == p[i] == q[i] == b[i];
      assert forall i :: 0 <= i < |as'| ==> as'[i] == p[|a| + i] == q[|a| + i] == bs[i];
    }
  }

  lemma SlashIsInKey(front: string, key: string, tail: string)
    requires '/' !in tail
    ensures front + "/" <= key + tail <==> front + "/" <= key
  {
    var f := front + "/";
    assert f[|front|] == '/';
    if f <= key + tail {
      assert (key + tail)[|front|] == '/';
      assert |front| < |key|;
      assert forall i :: 0 <= i < |f| ==> f[i] == (key + tail)[i] == key[i];
    }
    if f <= key {
      assert forall i :: 0 <= i < |f| ==> f[i] == key[i] == (key + tail)[i];
    }
  }

  /**
   * When keys can be used together, in terms of their text: each is valid and leaves 42 characters for its staging
   * name, and none goes on after another, or after its sidecar's name, with a slash.
   */
  lemma UniverseExact(cfg: Config, U: set<Id>)
    ensures Universe(cfg, U) <==>
            && (forall u :: u in U ==>
                  && ValidId(u, cfg.settings.buckets) && cfg.nameMax >= 255
                  && |Last(Split(u.key, '/'))| + 42 <= cfg.nameMax)
            && (forall u, v :: u in U && v in U && u.bucket == v.bucket ==>
                  !(u.key + "/" <= v.key) && !(u.key + ".json/" <= v.key))
  {
    hide ValidId, Split, ObjPath, MetaPath;
    forall u ensures Last(ObjPath(u)) == Last(Split(u.key, '/')) {
      LastOfObject(u);
    }
    forall u, v | ValidId(u, cfg.settings.buckets) && ValidId(v, cfg.settings.buckets)
      ensures ObjPath(u) < ObjPath(v) <==> u.bucket == v.bucket && u.key + "/" <= v.key
      ensures MetaPath(u) < MetaPath(v) <==> u.bucket == v.bucket && u.key + ".json/" <= v.key
    {
      AboveExact(cfg, u, v);
    }
  }

  lemma LastOfObject(u: Id)
    ensures Last(ObjPath(u)) == Last(Split(u.key, '/'))
  {
    hide Split;
  }

  function KeyOf(p: Proc): Option<Id>
  {
    match p
    case Putting(job, _, _, _, _) => Some(job.id)
    case Deleting(id, _, _) => Some(id)
    case Heading(id, _) => Some(id)
    case Getting(id, _) => Some(id)
    case Sweeping(_, _, _) => None
  }

  ghost predicate Idle(s: Sys, id: Id) { forall q :: q in s.procs ==> KeyOf(s.procs[q]) != Some(id) }

  /** A staging name is an obstacle to no sidecar in use. */
  ghost predicate Clear(U: set<Id>, id: Id, hex: string)
  {
    forall u :: u in U ==> !(StagePath(id, hex) <= MetaPath(u))
  }

  ghost predicate CalmStep(cfg: Config, U: set<Id>, s: Sys, step: Step)
  {
    && Enabled(cfg, s, step)
    && match step
       case StartPut(_, job, _, hex) => job.id in U && Idle(s, job.id) && Clear(U, job.id, hex)
       case StartDelete(_, id, _) => id in U && Idle(s, id)
       case StartHead(_, id) => id in U && Idle(s, id)
       case StartGet(_, id) => id in U && Idle(s, id)
       case Test(pid, name) => !Stale(s.fs, name, s.procs[pid].cutoff)
       case Fault(_, _) => false
       case Crash(_) => false
       case PowerLoss(_) => false
       case _ => true
  }

  ghost predicate CalmRun(cfg: Config, U: set<Id>, s: Sys, steps: seq<Step>, t: Sys)
    decreases |steps|
  {
    if steps == [] then s == t
    else CalmStep(cfg, U, s, steps[0]) && CalmRun(cfg, U, Next(cfg, s, steps[0]), steps[1..], t)
  }

  /** The operation `pid` goes on, fed by its source. */
  predicate OwnStep(step: Step, pid: nat) { (step.Go? || step.Feed? || step.Break?) && step.pid == pid }

  /** The call starts on a key in use that no other call is on, a put with a staging name in no sidecar's way. */
  ghost predicate StartsCalmly(U: set<Id>, s: Sys, step: Step)
  {
    match step
    case StartPut(_, job, _, hex) =>
      job.id in U && Idle(s, job.id) && forall u :: u in U ==> !(StagePath(job.id, hex) <= MetaPath(u))
    case StartDelete(_, id, _) => id in U && Idle(s, id)
    case StartHead(_, id) => id in U && Idle(s, id)
    case StartGet(_, id) => id in U && Idle(s, id)
    case _ => false
  }

  /** A call that starts so and runs alone and without faults to its end is a calm run. */
  lemma LoneCallIsCalm(cfg: Config, U: set<Id>, s: Sys, pid: nat, steps: seq<Step>, t: Sys)
    requires Runs(cfg, s, steps, t) && steps != [] && StartsCalmly(U, s, steps[0])
    requires forall i :: 0 < i < |steps| ==> OwnStep(steps[i], pid)
    ensures CalmRun(cfg, U, s, steps, t)
  {
    hide Enabled, Next, Runs, Idle, StagePath, MetaPath;
    RunsUnfold(cfg, s, steps, t);
    OwnStepsAreCalm(cfg, U, Next(cfg, s, steps[0]), pid, steps[1..], t);
  }

  lemma {:induction false} OwnStepsAreCalm(cfg: Config, U: set<Id>, s: Sys, pid: nat, steps: seq<Step>, t: Sys)
    requires Runs(cfg, s, steps, t) && forall i :: 0 <= i < |steps| ==> OwnStep(steps[i], pid)
    ensures CalmRun(cfg, U, s, steps, t)
    decreases |steps|
  {
    hide Enabled, Next, Runs, Idle, Clear;
    RunsUnfold(cfg, s, steps, t);
    if steps != [] {
      assert OwnStep(steps[0], pid);
      OwnStepsAreCalm(cfg, U, Next(cfg, s, steps[0]), pid, steps[1..], t);
    }
  }

  /** A directory that lies on the way to an object or sidecar in use, or belongs to the layout. */
  ghost predicate OnTheWay(U: set<Id>, d: Path)
  {
    || |d| <= 1
    || (|d| == 2 && d[0] == META_DIR)
    || (exists u :: u in U && (d < ObjPath(u) || d < MetaPath(u)))
  }

  ghost predicate FreshStore(cfg: Config, U: set<Id>, s: Sys)
  {
    Initial(cfg, s) && forall d :: d in s.fs.dirs ==> OnTheWay(U, d)
  }

  // ---- The invariant of calm runs ------------------------------------------

  /** The tree holds exactly the map's entry for `u`, with its sidecar. */
  ghost predicate Synced(cfg: Config, fs: Fs, store: Store, u: Id)
  {
    if u in store then
      && ObjPath(u) in fs.files && fs.files[ObjPath(u)].content == Bytes(store[u].data)
      && MetaPath(u) in fs.files && fs.files[MetaPath(u)].content.Json?
      && store[u].contentType != ""
      && SidecarInfo(cfg, u, fs.files[MetaPath(u)].content.record) == InfoOf(cfg, store[u])
    else ObjPath(u) !in fs.files && MetaPath(u) !in fs.files
  }

  ghost predicate LookOk(store: Store, u: Id, look: Look)
  {
    match look
    case Stat => true
    case IsFile(size) => u in store && size == |store[u].data|
    case ReadSidecar(size) => u in store && size == |store[u].data|
    case Rehash(_) => false
  }

  /** A put on its way to the rename: everything it will need is there. */
  ghost predicate BeforeRename(fs: Fs, store: Store, p: Proc)
    requires p.Putting?
  {
    match p.stage
    case Check => p.job.exclusive
    case Found(look) => p.job.exclusive && p.job.id in store && LookOk(store, p.job.id, look)
    case Clean(why) => (p.job.exclusive ==> p.job.id !in store) && (why.TooLarge? || why.SourceBroken?)
    case Open => p.job.exclusive ==> p.job.id !in store
    case Stream => (p.job.exclusive ==> p.job.id !in store) && TmpPath(p.tmp) in fs.files
    case Dirs(depth) =>
      && (p.job.exclusive ==> p.job.id !in store) && TmpPath(p.tmp) in fs.files
      && depth < |ObjPath(p.job.id)| && ObjPath(p.job.id)[..depth] in fs.dirs
    case Install =>
      && (p.job.exclusive ==> p.job.id !in store) && TmpPath(p.tmp) in fs.files
      && Parent(ObjPath(p.job.id)) in fs.dirs
    case _ => true
  }

  /** A put after the rename: the object is its payload, and everything the sidecar will need is there. */
  ghost predicate AfterRename(fs: Fs, store: Store, p: Proc)
    requires p.Putting?
  {
    PastEffect(p) ==>
      var meta := MetaPath(p.job.id);
      && (p.job.exclusive ==> p.job.id !in store)
      && ObjPath(p.job.id) in fs.files && fs.files[ObjPath(p.job.id)].content == Bytes(p.got)
      && (match p.stage
          case SideDirs(depth) => depth < |meta| && meta[..depth] in fs.dirs
          case SideOpen => Parent(meta) in fs.dirs
          case SideWrite => Parent(meta) in fs.dirs && StagePath(p.job.id, p.hex) in fs.files
          case SideInstall => Parent(meta) in fs.dirs && StagePath(p.job.id, p.hex) in fs.files
          case _ => true)
  }

  ghost predicate ReadyProc(cfg: Config, U: set<Id>, fs: Fs, store: Store, p: Proc)
  {
    && (KeyOf(p).Some? ==> KeyOf(p).value in U)
    && match p
       case Putting(job, tmp, hex, _, _) =>
         && Clear(U, job.id, hex)
         && (!p.stage.SideWrite? && !p.stage.SideInstall? ==> StagePath(job.id, hex) !in fs.files)
         && BeforeRename(fs, store, p) && AfterRename(fs, store, p)
       case Deleting(id, _, gone) => gone.Some? ==> ObjPath(id) !in fs.files && (gone.value <==> id in store)
       case Heading(id, look) => LookOk(store, id, look)
       case Getting(id, opening) => opening ==> id in store
       case Sweeping(_, _, victim) => victim.None?
  }

  ghost predicate ReadyTree(U: set<Id>, s: Sys)
  {
    && (forall d :: d in s.fs.dirs ==> OnTheWay(U, d))
    && (forall i :: 0 <= i < |s.commits| ==> s.commits[i].job.id in U)
    && (forall p :: p in s.fs.files && InMeta(p) && !IsSidecar(p) ==> StagedBy(s.procs, p))
  }

  predicate InMeta(p: Path) { p != [] && p[0] == META_DIR }

  ghost predicate StagedBy(procs: map<nat, Proc>, path: Path)
  {
    exists q :: q in procs && procs[q].Putting? && StagePath(procs[q].job.id, procs[q].hex) == path
  }

  ghost predicate OnePerKey(procs: map<nat, Proc>)
  {
    forall a, b :: a in procs && b in procs && a != b && KeyOf(procs[a]).Some? ==> KeyOf(procs[a]) != KeyOf(procs[b])
  }

  ghost predicate Between(s: Sys, u: Id)
  {
    exists q :: q in s.procs && KeyOf(s.procs[q]) == Some(u) && PastEffect(s.procs[q])
  }

  ghost predicate Ready(cfg: Config, U: set<Id>, s: Sys)
  {
    var store := Replay(cfg, s.log);
    && !s.powerLost
    && Faithful(cfg, s.log)
    && (forall i :: 0 <= i < |s.log| ==> CallKey(s.log[i].call) in U)
    && ReadyTree(U, s)
    && OnePerKey(s.procs)
    && (forall q :: q in s.procs ==> ReadyProc(cfg, U, s.fs, store, s.procs[q]))
    && (forall u :: u in U && !Between(s, u) ==> Synced(cfg, s.fs, store, u))
  }

  // ---- Nothing is in the way -----------------------------------------------

  lemma SegmentsFit(cfg: Config, u: Id, k: nat)
    requires Fits(cfg, u)
    ensures k < |ObjPath(u)| ==> |ObjPath(u)[k]| <= cfg.nameMax
    ensures k < |MetaPath(u)| ==> |MetaPath(u)[k]| <= cfg.nameMax
  {
    hide EndsWith, Split, ValidId, ExtendLast;
    ValidNamesAreShort(u, cfg.settings.buckets);
    SidecarNameLength(u);
    if k < |MetaPath(u)| - 1 {
      MetaSegments(u, k);
    }
    if 0 < k < |ObjPath(u)| {
      assert ObjPath(u)[k] == Split(u.key, '/')[k - 1];
    }
  }

  lemma MetaSegments(u: Id, k: nat)
    requires k < |MetaPath(u)| - 1
    ensures k == 0 ==> MetaPath(u)[k] == META_DIR
    ensures k > 0 ==> k - 1 < |ObjPath(u)| && MetaPath(u)[k] == ObjPath(u)[k - 1]
  {
    hide EndsWith, Split;
    SplitAppend(u.key, ".json", '/');
    SidecarNameLength(u);
  }

  lemma ValidNamesAreShort(u: Id, buckets: seq<string>)
    requires ValidId(u, buckets)
    ensures |u.bucket| <= 64
    ensures forall i :: 0 <= i < |Split(u.key, '/')| ==> |Split(u.key, '/')[i]| <= 255
  {
    hide KeyGrammar.SegmentMatches;
    KeyGrammar.CheckSegmentsExact(Split(u.key, '/'), true);
  }

  /** No file lies on the way to an object in use. */
  lemma ObjectWayIsOpen(cfg: Config, U: set<Id>, s: Sys, u: Id, depth: nat)
    requires Inv(cfg, s) && ReadyTree(U, s) && Universe(cfg, U) && u in U
    requires depth < |ObjPath(u)| - 1 && ObjPath(u)[..depth] in s.fs.dirs
    ensures MayMkdir(s.fs, ObjPath(u)[..depth + 1], cfg.nameMax)
    ensures OnTheWay(U, ObjPath(u)[..depth + 1])
  {
    hide ObjPath, MetaPath, StagePath, TmpPath, ValidId, GoodSidecars, GoodCommits, WellFormed, LayoutDirs, GoodProc,
         Owned, Distinct, IsSidecar, InTmp;
    var d := ObjPath(u)[..depth + 1];
    assert d < ObjPath(u);
    assert Fits(cfg, u);
    SegmentsFit(cfg, u, depth);
    BucketRegion(u, cfg.settings.buckets);
    assert InBucket(d);
    assert Parent(d) == ObjPath(u)[..depth];
    if d in s.fs.files {
      assert false;
    }
  }

  /** Nor is the object's own path a directory. */
  lemma ObjectIsNoDirectory(cfg: Config, U: set<Id>, s: Sys, u: Id)
    requires ReadyTree(U, s) && Universe(cfg, U) && u in U
    ensures ObjPath(u) !in s.fs.dirs
  {
    hide ObjPath, MetaPath, StagePath, TmpPath, ValidId, IsSidecar, InTmp;
    assert Fits(cfg, u);
    BucketRegion(u, cfg.settings.buckets);
    if ObjPath(u) in s.fs.dirs {
      assert false;
    }
  }

  /** No file lies on the way to a sidecar in use. */
  lemma SidecarWayIsOpen(cfg: Config, U: set<Id>, s: Sys, u: Id, depth: nat)
    requires Inv(cfg, s) && !s.powerLost && ReadyTree(U, s) && Universe(cfg, U) && u in U
    requires forall q :: q in s.procs && s.procs[q].Putting? ==> Clear(U, s.procs[q].job.id, s.procs[q].hex)
    requires depth < |MetaPath(u)| - 1 && MetaPath(u)[..depth] in s.fs.dirs
    ensures MayMkdir(s.fs, MetaPath(u)[..depth + 1], cfg.nameMax)
    ensures OnTheWay(U, MetaPath(u)[..depth + 1])
  {
    hide ObjPath, MetaPath, StagePath, TmpPath, ValidId, GoodTree, GoodCommits, WellFormed, LayoutDirs, GoodProc, Owned,
         Distinct, IsSidecar, InTmp;
    var d := MetaPath(u)[..depth + 1];
    assert d < MetaPath(u);
    assert Fits(cfg, u);
    SegmentsFit(cfg, u, depth);
    assert Parent(d) == MetaPath(u)[..depth];
    if d in s.fs.files {
      assert false;
    }
  }

  lemma SidecarIsNoDirectory(cfg: Config, U: set<Id>, s: Sys, u: Id, hex: string)
    requires ReadyTree(U, s) && Universe(cfg, U) && u in U && Clear(U, u, hex) && |hex| == UUID_LENGTH
    ensures MetaPath(u) !in s.fs.dirs && StagePath(u, hex) !in s.fs.dirs
    ensures |Last(MetaPath(u))| <= cfg.nameMax && |Last(StagePath(u, hex))| <= cfg.nameMax
  {
    hide ObjPath, MetaPath, StagePath, TmpPath, ValidId, IsSidecar, InTmp;
    assert Fits(cfg, u);
    SidecarNameLength(u);
    InMetaNoDirectory(cfg, U, s, MetaPath(u));
    InMetaNoDirectory(cfg, U, s, StagePath(u, hex));
  }

  lemma InMetaNoDirectory(cfg: Config, U: set<Id>, s: Sys, d: Path)
    requires ReadyTree(U, s) && Universe(cfg, U) && |d| >= 3 && d[0] == META_DIR
    requires forall v :: v in U ==> !(d < MetaPath(v))
    ensures d !in s.fs.dirs
  {
    hide ObjPath, MetaPath, StagePath, TmpPath, ValidId, IsSidecar, InTmp, InBucket;
    if d in s.fs.dirs {
      var v :| v in U && (d < ObjPath(v) || d < MetaPath(v));
      assert Fits(cfg, v);
      InBucketHead(cfg, v);
      assert false;
    }
  }

  lemma InBucketHead(cfg: Config, v: Id)
    requires Fits(cfg, v)
    ensures ObjPath(v)[0] != META_DIR && ObjPath(v)[0] != TMP_DIR
  {
    hide ObjPath, ValidId;
    BucketRegion(v, cfg.settings.buckets);
  }

  /** A staging file can always be opened. */
  lemma StagingIsOpen(cfg: Config, U: set<Id>, s: Sys, name: string)
    requires Inv(cfg, s) && ReadyTree(U, s) && Universe(cfg, U) && |name| == UUID_LENGTH && U != {}
    ensures MayCreate(s.fs, TmpPath(name), cfg.nameMax)
  {
    hide ObjPath, MetaPath, StagePath, ValidId, IsSidecar, InTmp, InBucket, GoodTree, GoodCommits, WellFormed, GoodProc,
         Owned, Distinct, GoodSidecars;
    var u :| u in U;
    assert Fits(cfg, u);
    var p := TmpPath(name);
    assert Parent(p) == [TMP_DIR];
    if p in s.fs.dirs {
      var v :| v in U && (p < ObjPath(v) || p < MetaPath(v));
      assert Fits(cfg, v);
      InBucketHead(cfg, v);
      assert false;
    }
  }

  // ---- Actions in a calm run -----------------------------------------------

  ghost predicate CalmStay(cfg: Config, U: set<Id>, fs': Fs, store: Store, p: Proc, p': Proc)
  {
    && KeyOf(p') == KeyOf(p) && SamePut(p, p')
    && ReadyProc(cfg, U, fs', store, p')
    && (PastEffect(p) ==> PastEffect(p'))
    && (KeyOf(p).Some? && !PastEffect(p') ==> Synced(cfg, fs', store, KeyOf(p).value))
  }

  /** The answer is the map store's, and the tree holds what the map store holds afterwards. */
  ghost predicate CalmDone(cfg: Config, fs': Fs, store: Store, p: Proc, call: Call, answer: Answer)
  {
    && KeyOf(p) == Some(CallKey(call))
    && SourceFailure(call)
    && answer == Serve(cfg, store, call).answer
    && Synced(cfg, fs', Serve(cfg, store, call).store, CallKey(call))
  }

  ghost predicate CalmPlaces(U: set<Id>, fs': Fs, p: Proc, act: Act)
  {
    && (act.change.MakeDir? ==> OnTheWay(U, act.change.path))
    && (act.mark.Commits? ==> act.mark.commit.job.id in U)
    && (Landing(act.change).Some? && InMeta(Landing(act.change).value) && !IsSidecar(Landing(act.change).value) ==>
          p.Putting? && Landing(act.change).value == StagePath(p.job.id, p.hex))
    && (p.Putting? && !act.after.Stay? ==> StagePath(p.job.id, p.hex) !in fs'.files)
  }

  ghost predicate CalmAct(cfg: Config, U: set<Id>, fs: Fs, store: Store, p: Proc, act: Act)
  {
    var fs' := Apply(fs, act.change);
    && CalmPlaces(U, fs', p, act)
    && match act.after
       case Stay(p') => CalmStay(cfg, U, fs', store, p, p')
       case Done(call, answer) => CalmDone(cfg, fs', store, p, call, answer)
       case Gone => KeyOf(p).None?
  }

  /** What a put may rely on in a calm run. */
  ghost predicate PutHas(cfg: Config, U: set<Id>, s: Sys, p: Proc)
    requires p.Putting?
  {
    var store := Replay(cfg, s.log);
    && Universe(cfg, U) && p.job.id in U
    && GoodPut(cfg, s.fs, s.issued, s.commits, p)
    && ReadyProc(cfg, U, s.fs, store, p)
    && (!PastEffect(p) ==> Synced(cfg, s.fs, store, p.job.id))
    && (forall k :: 0 <= k < |ObjPath(p.job.id)| - 1 && ObjPath(p.job.id)[..k] in s.fs.dirs ==>
          MayMkdir(s.fs, ObjPath(p.job.id)[..k + 1], cfg.nameMax) && OnTheWay(U, ObjPath(p.job.id)[..k + 1]))
    && (forall k :: 0 <= k < |MetaPath(p.job.id)| - 1 && MetaPath(p.job.id)[..k] in s.fs.dirs ==>
          MayMkdir(s.fs, MetaPath(p.job.id)[..k + 1], cfg.nameMax) && OnTheWay(U, MetaPath(p.job.id)[..k + 1]))
    && ObjPath(p.job.id) !in s.fs.dirs && |Last(ObjPath(p.job.id))| <= cfg.nameMax
    && MetaPath(p.job.id) !in s.fs.dirs && StagePath(p.job.id, p.hex) !in s.fs.dirs
    && |Last(MetaPath(p.job.id))| <= cfg.nameMax && |Last(StagePath(p.job.id, p.hex))| <= cfg.nameMax
    && MayCreate(s.fs, TmpPath(p.tmp), cfg.nameMax)
    && [] in s.fs.dirs
  }

  lemma CalmCheck(cfg: Config, U: set<Id>, s: Sys, p: Proc)
    requires p.Putting? && PutHas(cfg, U, s, p) && (p.stage.Check? || p.stage.Found?)
    ensures CalmAct(cfg, U, s.fs, Replay(cfg, s.log), p, PutGo(cfg, s.fs, s.now, p))
  {
    hide ObjPath, MetaPath, StagePath, TmpPath, ValidId, IsSidecar, InTmp, InBucket, S2sCap, UserCap, ServiceOnly,
         Replay, Universe, OnTheWay, Clear, MayMkdir, MayCreate, SidecarInfo;
  }

  lemma CalmStage(cfg: Config, U: set<Id>, s: Sys, p: Proc)
    requires p.Putting? && PutHas(cfg, U, s, p) && (p.stage.Open? || p.stage.Stream? || p.stage.Dirs? || p.stage.Clean?)
    ensures CalmAct(cfg, U, s.fs, Replay(cfg, s.log), p, PutGo(cfg, s.fs, s.now, p))
  {
    hide ObjPath, MetaPath, StagePath, TmpPath, ValidId, IsSidecar, InTmp, InBucket, S2sCap, UserCap, ServiceOnly,
         Replay, Universe, OnTheWay, Clear, MayMkdir, MayCreate, SidecarInfo, LookStep;
    Places(cfg, p.job.id, p.tmp, p.hex);
  }

  lemma CalmInstall(cfg: Config, U: set<Id>, s: Sys, p: Proc)
    requires p.Putting? && PutHas(cfg, U, s, p) && p.stage.Install?
    ensures CalmAct(cfg, U, s.fs, Replay(cfg, s.log), p, PutGo(cfg, s.fs, s.now, p))
  {
    hide ObjPath, MetaPath, StagePath, TmpPath, ValidId, IsSidecar, InTmp, InBucket, S2sCap, UserCap, ServiceOnly,
         Replay, Universe, OnTheWay, Clear, MayMkdir, SidecarInfo, LookStep;
    Places(cfg, p.job.id, p.tmp, p.hex);
  }

  lemma CalmSide(cfg: Config, U: set<Id>, s: Sys, p: Proc)
    requires p.Putting? && PutHas(cfg, U, s, p) && (p.stage.SideDirs? || p.stage.SideOpen? || p.stage.SideWrite?)
    ensures CalmAct(cfg, U, s.fs, Replay(cfg, s.log), p, PutGo(cfg, s.fs, s.now, p))
  {
    hide ObjPath, MetaPath, StagePath, TmpPath, ValidId, IsSidecar, InTmp, InBucket, S2sCap, UserCap, ServiceOnly,
         Replay, Universe, OnTheWay, Clear, MayMkdir, SidecarInfo, LookStep, RecordOf;
    Places(cfg, p.job.id, p.tmp, p.hex);
  }

  lemma CalmSideInstall(cfg: Config, U: set<Id>, s: Sys, p: Proc)
    requires p.Putting? && PutHas(cfg, U, s, p) && p.stage.SideInstall?
    ensures CalmAct(cfg, U, s.fs, Replay(cfg, s.log), p, PutGo(cfg, s.fs, s.now, p))
  {
    hide ObjPath, MetaPath, StagePath, TmpPath, ValidId, IsSidecar, InTmp, InBucket, S2sCap, UserCap, ServiceOnly,
         Replay, Universe, OnTheWay, Clear, MayMkdir, LookStep;
    Places(cfg, p.job.id, p.tmp, p.hex);
  }

  lemma CalmPutGo(cfg: Config, U: set<Id>, s: Sys, p: Proc)
    requires p.Putting? && PutHas(cfg, U, s, p)
    ensures CalmAct(cfg, U, s.fs, Replay(cfg, s.log), p, PutGo(cfg, s.fs, s.now, p))
  {
    hide PutHas, CalmAct, Replay, PutGo;
    match p.stage
    case Check | Found(_) => CalmCheck(cfg, U, s, p);
    case Open | Stream | Dirs(_) | Clean(_) => CalmStage(cfg, U, s, p);
    case Install => CalmInstall(cfg, U, s, p);
    case SideDirs(_) | SideOpen | SideWrite => CalmSide(cfg, U, s, p);
    case SideInstall => CalmSideInstall(cfg, U, s, p);
  }

  lemma CalmPutOther(cfg: Config, U: set<Id>, s: Sys, p: Proc, step: Step)
    requires CalmStep(cfg, U, s, step) && Acts(step) && !step.Go? && s.procs[step.pid] == p
    requires p.Putting? && PutHas(cfg, U, s, p)
    ensures CalmAct(cfg, U, s.fs, Replay(cfg, s.log), p, ActOf(cfg, s, step))
  {
    hide ObjPath, MetaPath, StagePath, TmpPath, ValidId, IsSidecar, InTmp, InBucket, S2sCap, UserCap, ServiceOnly,
         Replay, Universe, OnTheWay, Clear, MayMkdir, MayCreate, SidecarInfo, LookStep;
    Places(cfg, p.job.id, p.tmp, p.hex);
  }

  lemma CalmOther(cfg: Config, U: set<Id>, s: Sys, step: Step)
    requires CalmStep(cfg, U, s, step) && Acts(step) && !s.procs[step.pid].Putting?
    requires Inv(cfg, s) && ReadyTree(U, s) && Universe(cfg, U)
    requires var p := s.procs[step.pid]; var store := Replay(cfg, s.log);
             ReadyProc(cfg, U, s.fs, store, p) && (KeyOf(p).Some? && !PastEffect(p) ==> Synced(cfg, s.fs, store,
                                                                                               KeyOf(p).value))
    ensures CalmAct(cfg, U, s.fs, Replay(cfg, s.log), s.procs[step.pid], ActOf(cfg, s, step))
  {
    hide ObjPath, MetaPath, StagePath, TmpPath, ValidId, IsSidecar, InTmp, InBucket, S2sCap, UserCap, ServiceOnly,
         Replay, OnTheWay, Clear, MayMkdir, MayCreate, SidecarInfo, Inv, Universe, ReadyTree;
    var p := s.procs[step.pid];
    if KeyOf(p).Some? {
      ObjectIsNoDirectory(cfg, U, s, KeyOf(p).value);
      PairDistinct(KeyOf(p).value, cfg, U);
    }
  }

  lemma PairDistinct(u: Id, cfg: Config, U: set<Id>)
    requires Universe(cfg, U) && u in U
    ensures ObjPath(u) != MetaPath(u)
  {
    hide ObjPath, MetaPath, ValidId;
    assert Fits(cfg, u);
    InBucketHead(cfg, u);
  }

  /** In a ready state a put has all it may rely on. */
  lemma PutHasAll(cfg: Config, U: set<Id>, s: Sys, pid: nat)
    requires Inv(cfg, s) && Ready(cfg, U, s) && Universe(cfg, U) && pid in s.procs && s.procs[pid].Putting?
    ensures PutHas(cfg, U, s, s.procs[pid])
  {
    hide ObjPath, MetaPath, StagePath, TmpPath, ValidId, IsSidecar, InTmp, InBucket, S2sCap, UserCap, ServiceOnly,
         Replay, OnTheWay, Clear, MayMkdir, MayCreate, SidecarInfo, LookStep, GoodTree, GoodSidecars, GoodCommits,
         LayoutDirs, Owned, Distinct, ReadyTree, Faithful, Universe, GoodStaging, Synced, BeforeRename, AfterRename;
    var p := s.procs[pid];
    var id := p.job.id;
    assert GoodProc(cfg, s.fs, s.issued, s.commits, p);
    assert ReadyProc(cfg, U, s.fs, Replay(cfg, s.log), p);
    PutsAreClear(cfg, U, s);
    ObjectIsNoDirectory(cfg, U, s, id);
    SidecarIsNoDirectory(cfg, U, s, id, p.hex);
    StagingIsOpen(cfg, U, s, p.tmp);
    SegmentsFitIn(cfg, U, id);
    if !PastEffect(p) {
      NotBetween(cfg, U, s, pid);
    }
    forall k | 0 <= k < |ObjPath(id)| - 1 && ObjPath(id)[..k] in s.fs.dirs
      ensures MayMkdir(s.fs, ObjPath(id)[..k + 1], cfg.nameMax) && OnTheWay(U, ObjPath(id)[..k + 1])
    {
      ObjectWayIsOpen(cfg, U, s, id, k);
    }
    forall k | 0 <= k < |MetaPath(id)| - 1 && MetaPath(id)[..k] in s.fs.dirs
      ensures MayMkdir(s.fs, MetaPath(id)[..k + 1], cfg.nameMax) && OnTheWay(U, MetaPath(id)[..k + 1])
    {
      SidecarWayIsOpen(cfg, U, s, id, k);
    }
  }

  lemma PutsAreClear(cfg: Config, U: set<Id>, s: Sys)
    requires Ready(cfg, U, s)
    ensures forall q :: q in s.procs && s.procs[q].Putting? ==> Clear(U, s.procs[q].job.id, s.procs[q].hex)
  {
    hide Clear, Synced, BeforeRename, AfterRename, Replay, Faithful, ReadyTree, OnePerKey, StagePath, ObjPath;
    forall q | q in s.procs && s.procs[q].Putting? ensures Clear(U, s.procs[q].job.id, s.procs[q].hex) {
      assert ReadyProc(cfg, U, s.fs, Replay(cfg, s.log), s.procs[q]);
    }
  }

  lemma SegmentsFitIn(cfg: Config, U: set<Id>, u: Id)
    requires Universe(cfg, U) && u in U
    ensures |Last(ObjPath(u))| <= cfg.nameMax
  {
    hide ObjPath, MetaPath, ValidId;
    assert Fits(cfg, u);
  }

  /** While one operation is on a key and has not taken effect, the key is not between effects. */
  lemma NotBetween(cfg: Config, U: set<Id>, s: Sys, pid: nat)
    requires Ready(cfg, U, s) && pid in s.procs && KeyOf(s.procs[pid]).Some? && !PastEffect(s.procs[pid])
    ensures Synced(cfg, s.fs, Replay(cfg, s.log), KeyOf(s.procs[pid]).value)
  {
    hide Synced, Replay, Faithful, ReadyTree, BeforeRename, AfterRename, Clear, ObjPath, StagePath;
    var u := KeyOf(s.procs[pid]).value;
    assert ReadyProc(cfg, U, s.fs, Replay(cfg, s.log), s.procs[pid]);
    if Between(s, u) {
      assert false;
    }
  }

  lemma EveryActIsCalm(cfg: Config, U: set<Id>, s: Sys, step: Step)
    requires Inv(cfg, s) && Ready(cfg, U, s) && Universe(cfg, U) && CalmStep(cfg, U, s, step) && Acts(step)
    ensures step.pid in s.procs && CalmAct(cfg, U, s.fs, Replay(cfg, s.log), s.procs[step.pid], ActOf(cfg, s, step))
  {
    hide Inv, CalmAct, Replay, PutGo, PutFault, PutFeed, Synced, Universe, ReadyTree, Faithful, OnePerKey, BeforeRename,
         AfterRename, Clear, ObjPath, StagePath, PutHas;
    var p := s.procs[step.pid];
    assert ReadyProc(cfg, U, s.fs, Replay(cfg, s.log), p);
    if p.Putting? {
      PutHasAll(cfg, U, s, step.pid);
      if step.Go? {
        CalmPutGo(cfg, U, s, p);
      } else {
        CalmPutOther(cfg, U, s, p, step);
      }
    } else {
      if KeyOf(p).Some? && !PastEffect(p) {
        NotBetween(cfg, U, s, step.pid);
      }
      CalmOther(cfg, U, s, step);
    }
  }

  // ---- Calm actions keep the invariant -------------------------------------

  lemma OthersReady(cfg: Config, U: set<Id>, s: Sys, step: Step, q: nat, store': Store)
    requires Inv(cfg, s) && Ready(cfg, U, s) && Universe(cfg, U) && CalmStep(cfg, U, s, step) && Acts(step)
    requires q in s.procs && q != step.pid
    requires SameElsewhere(Replay(cfg, s.log), store', KeyOf(s.procs[step.pid]))
    ensures ReadyProc(cfg, U, Apply(s.fs, ActOf(cfg, s, step).change), store', s.procs[q])
  {
    hide ObjPath, MetaPath, StagePath, TmpPath, ValidId, IsSidecar, InTmp, InBucket, S2sCap, UserCap, ServiceOnly,
         Replay, OnTheWay, Clear, Synced, GoodTree, GoodSidecars, GoodCommits, LayoutDirs, Owned, WellFormed, ReadyTree,
         Faithful, ActOf, Apply, Universe, GoodStaging, Own, Touched, PastEffect, BeforeRename, AfterRename, LookOk;
    var p, b := s.procs[step.pid], s.procs[q];
    var fs' := Apply(s.fs, ActOf(cfg, s, step).change);
    assert GoodProc(cfg, s.fs, s.issued, s.commits, p) && GoodProc(cfg, s.fs, s.issued, s.commits, b);
    assert ReadyProc(cfg, U, s.fs, Replay(cfg, s.log), b) && ReadyProc(cfg, U, s.fs, Replay(cfg, s.log), p);
    DirsGrow(s.fs, ActOf(cfg, s, step).change);
    if KeyOf(b).Some? {
      var v := KeyOf(b).value;
      assert KeyOf(p) != Some(v);
      KeyIsValid(cfg, U, v);
      OthersLeavePair(cfg, s, step, v);
      if b.Putting? {
        StagingApart(cfg, s, step.pid, q);
        ActFrame(cfg, s, step, TmpPath(b.tmp));
        ActFrame(cfg, s, step, StagePath(b.job.id, b.hex));
      }
    }
    ReadyFrame(cfg, U, s.fs, fs', Replay(cfg, s.log), store', b);
  }

  /** A call is as ready as before when its own files and its key's entry are as before. */
  lemma ReadyFrame(cfg: Config, U: set<Id>, fs: Fs, fs': Fs, store: Store, store': Store, b: Proc)
    requires ReadyProc(cfg, U, fs, store, b) && fs.dirs <= fs'.dirs
    requires KeyOf(b).Some? ==>
               var v := KeyOf(b).value;
               && SameAt(fs, fs', ObjPath(v)) && SameAt(fs, fs', MetaPath(v))
               && (v in store <==> v in store') && (v in store ==> store'[v] == store[v])
    requires b.Putting? ==> SameAt(fs, fs', TmpPath(b.tmp)) && SameAt(fs, fs', StagePath(b.job.id, b.hex))
    ensures ReadyProc(cfg, U, fs', store', b)
  {
    hide ObjPath, MetaPath, StagePath, TmpPath, Clear;
  }

  lemma DirsGrow(fs: Fs, change: Change)
    ensures fs.dirs <= Apply(fs, change).dirs
  {
  }

  lemma KeyIsValid(cfg: Config, U: set<Id>, v: Id)
    requires Universe(cfg, U) && v in U
    ensures ValidId(v, cfg.settings.buckets)
  {
    hide ObjPath, MetaPath, ValidId;
    assert Fits(cfg, v);
  }

  lemma StagingApart(cfg: Config, s: Sys, a: nat, b: nat)
    requires Inv(cfg, s) && a in s.procs && b in s.procs && a != b && s.procs[b].Putting?
    requires s.procs[a].Sweeping? ==> s.procs[a].victim.None?
    ensures TmpPath(s.procs[b].tmp) !in Own(s.procs[a])
    ensures StagePath(s.procs[b].job.id, s.procs[b].hex) !in Own(s.procs[a])
  {
    hide ObjPath, MetaPath, StagePath, TmpPath, ValidId, IsSidecar, InTmp, InBucket, S2sCap, UserCap, ServiceOnly,
         RecordOf, GoodTree, GoodSidecars, GoodCommits, LayoutDirs, Owned, WellFormed, GoodStaging;
    assert GoodProc(cfg, s.fs, s.issued, s.commits, s.procs[a]) && GoodProc(cfg, s.fs, s.issued, s.commits, s.procs[b]);
    var q := s.procs[b];
    Places(cfg, q.job.id, q.tmp, q.hex);
    if s.procs[a].Putting? {
      PathsApart(cfg, s.procs[a], q);
    } else if s.procs[a].Deleting? {
      Places(cfg, s.procs[a].id, q.tmp, q.hex);
    }
  }

  ghost predicate SameElsewhere(store: Store, store': Store, key: Option<Id>)
  {
    forall u :: Some(u) != key ==> ((u in store' <==> u in store) && (u in store ==> store'[u] == store[u]))
  }

  lemma ServeElsewhere(cfg: Config, store: Store, call: Call)
    ensures SameElsewhere(store, Serve(cfg, store, call).store, Some(CallKey(call)))
  {
    hide Serve;
    forall u | u != CallKey(call)
      ensures var after := Serve(cfg, store, call).store;
              (u in after <==> u in store) && (u in store ==> after[u] == store[u])
    {
      ServeFrame(cfg, store, call, u);
    }
  }

  /** The log and the map store after one action. */
  lemma LogAfter(cfg: Config, U: set<Id>, s: Sys, step: Step)
    requires Ready(cfg, U, s) && CalmStep(cfg, U, s, step) && Acts(step) && step.pid in s.procs
    requires CalmAct(cfg, U, s.fs, Replay(cfg, s.log), s.procs[step.pid], ActOf(cfg, s, step))
    ensures var act := ActOf(cfg, s, step); var t := Next(cfg, s, step); var store := Replay(cfg, s.log);
            && Faithful(cfg, t.log)
            && (forall i :: 0 <= i < |t.log| ==> CallKey(t.log[i].call) in U)
            && (act.after.Done? ==> Replay(cfg, t.log) == Serve(cfg, store, act.after.call).store)
            && (!act.after.Done? ==> t.log == s.log)
            && SameElsewhere(store, Replay(cfg, t.log), KeyOf(s.procs[step.pid]))
  {
    hide ActOf, Apply, Synced, ReadyTree, OnePerKey, Faithful, CalmPlaces, CalmStay, Enabled, Serve, Replay,
         SourceFailure, BeforeRename, AfterRename, Clear, StagePath, ObjPath, SameElsewhere, CallKey;
    var act := ActOf(cfg, s, step);
    var t := Next(cfg, s, step);
    assert ReadyProc(cfg, U, s.fs, Replay(cfg, s.log), s.procs[step.pid]);
    if act.after.Done? {
      var e := Event(act.after.call, act.after.answer);
      assert t.log == s.log + [e];
      FaithfulSnoc(cfg, s.log, e);
      ServeElsewhere(cfg, Replay(cfg, s.log), act.after.call);
    } else {
      NothingChanges(Replay(cfg, s.log), KeyOf(s.procs[step.pid]));
    }
  }

  lemma NothingChanges(store: Store, key: Option<Id>)
    ensures SameElsewhere(store, store, key)
  {
  }

  lemma SyncedFrame(cfg: Config, fs: Fs, fs': Fs, store: Store, store': Store, u: Id)
    requires Synced(cfg, fs, store, u) && SameAt(fs, fs', ObjPath(u)) && SameAt(fs, fs', MetaPath(u))
    requires (u in store' <==> u in store) && (u in store ==> store'[u] == store[u])
    ensures Synced(cfg, fs', store', u)
  {
    hide ObjPath, MetaPath, SidecarInfo;
  }

  lemma BetweenElsewhere(s: Sys, t: Sys, pid: nat, u: Id)
    requires pid in s.procs && KeyOf(s.procs[pid]) != Some(u)
    requires forall q :: q in s.procs && q != pid ==> q in t.procs && t.procs[q] == s.procs[q]
    ensures Between(s, u) ==> Between(t, u)
  {
    hide PastEffect;
    if Between(s, u) {
      var q :| q in s.procs && KeyOf(s.procs[q]) == Some(u) && PastEffect(s.procs[q]);
      assert t.procs[q] == s.procs[q];
    }
  }

  lemma ActKeepsSynced(cfg: Config, U: set<Id>, s: Sys, step: Step, u: Id)
    requires Inv(cfg, s) && Ready(cfg, U, s) && Universe(cfg, U) && CalmStep(cfg, U, s, step) && Acts(step)
    requires step.pid in s.procs && CalmAct(cfg, U, s.fs, Replay(cfg, s.log), s.procs[step.pid], ActOf(cfg, s, step))
    requires u in U && !Between(Next(cfg, s, step), u)
    ensures Synced(cfg, Next(cfg, s, step).fs, Replay(cfg, Next(cfg, s, step).log), u)
  {
    hide ActOf, Apply, Synced, ReadyTree, ReadyProc, Faithful, CalmPlaces, Enabled, Inv, ObjPath, MetaPath, Universe,
         Replay, PastEffect, OnePerKey;
    var t := Next(cfg, s, step);
    var p := s.procs[step.pid];
    var act := ActOf(cfg, s, step);
    LogAfter(cfg, U, s, step);
    if KeyOf(p) == Some(u) {
      if act.after.Stay? {
        assert t.procs[step.pid] == act.after.proc;
      }
    } else {
      BetweenElsewhere(s, t, step.pid, u);
      KeyIsValid(cfg, U, u);
      OthersLeavePair(cfg, s, step, u);
      SyncedFrame(cfg, s.fs, t.fs, Replay(cfg, s.log), Replay(cfg, t.log), u);
    }
  }

  lemma ActKeepsReadyTree(cfg: Config, U: set<Id>, s: Sys, step: Step)
    requires Ready(cfg, U, s) && CalmStep(cfg, U, s, step) && Acts(step)
    requires step.pid in s.procs && CalmAct(cfg, U, s.fs, Replay(cfg, s.log), s.procs[step.pid], ActOf(cfg, s, step))
    ensures ReadyTree(U, Next(cfg, s, step))
  {
    hide ActOf, Synced, ReadyProc, Faithful, Enabled, ObjPath, MetaPath, StagePath, Replay, PastEffect, OnePerKey,
         OnTheWay, IsSidecar, InMeta, CalmDone;
    var t := Next(cfg, s, step);
    var p := s.procs[step.pid];
    var act := ActOf(cfg, s, step);
    forall f | f in t.fs.files && InMeta(f) && !IsSidecar(f) ensures StagedBy(t.procs, f) {
      if Landing(act.change) == Some(f) {
        assert act.after.Stay? && t.procs[step.pid] == act.after.proc;
      } else {
        OnlyTheLanding(s.fs, act.change, f);
        var q :| q in s.procs && s.procs[q].Putting? && StagePath(s.procs[q].job.id, s.procs[q].hex) == f;
        if q != step.pid {
          assert t.procs[q] == s.procs[q];
        } else {
          assert act.after.Stay? && t.procs[step.pid] == act.after.proc;
        }
      }
    }
  }

  lemma ActKeepsReady(cfg: Config, U: set<Id>, s: Sys, step: Step)
    requires Inv(cfg, s) && Ready(cfg, U, s) && Universe(cfg, U) && CalmStep(cfg, U, s, step) && Acts(step)
    ensures Ready(cfg, U, Next(cfg, s, step))
  {
    hide ActOf, Apply, Synced, ReadyTree, ReadyProc, Faithful, CalmPlaces, CalmDone, Enabled, Inv, Universe, Replay,
         Between, PastEffect;
    EveryActIsCalm(cfg, U, s, step);
    var t := Next(cfg, s, step);
    var p := s.procs[step.pid];
    var act := ActOf(cfg, s, step);
    LogAfter(cfg, U, s, step);
    ActKeepsReadyTree(cfg, U, s, step);
    forall q | q in t.procs ensures ReadyProc(cfg, U, t.fs, Replay(cfg, t.log), t.procs[q]) {
      if q != step.pid {
        OthersReady(cfg, U, s, step, q, Replay(cfg, t.log));
      }
    }
    forall u | u in U && !Between(t, u) ensures Synced(cfg, t.fs, Replay(cfg, t.log), u) {
      ActKeepsSynced(cfg, U, s, step, u);
    }
  }

  // ---- Other calm steps ----------------------------------------------------

  lemma AddingKeepsReady(cfg: Config, U: set<Id>, s: Sys, t: Sys, pid: nat)
    requires Ready(cfg, U, s) && pid !in s.procs && pid in t.procs && t.procs == s.procs[pid := t.procs[pid]]
    requires t.fs == s.fs && t.log == s.log && t.commits == s.commits && t.powerLost == s.powerLost
    requires ReadyProc(cfg, U, s.fs, Replay(cfg, s.log), t.procs[pid])
    requires KeyOf(t.procs[pid]).Some? ==> Idle(s, KeyOf(t.procs[pid]).value)
    ensures Ready(cfg, U, t)
  {
    hide Synced, ReadyProc, Faithful, Replay, PastEffect, StagePath, IsSidecar, OnTheWay, InMeta;
    forall f | f in t.fs.files && InMeta(f) && !IsSidecar(f) ensures StagedBy(t.procs, f) {
      var q :| q in s.procs && s.procs[q].Putting? && StagePath(s.procs[q].job.id, s.procs[q].hex) == f;
      assert t.procs[q] == s.procs[q];
    }
    forall u | Between(s, u) ensures Between(t, u) {
      var q :| q in s.procs && KeyOf(s.procs[q]) == Some(u) && PastEffect(s.procs[q]);
      assert t.procs[q] == s.procs[q];
    }
  }

  lemma StartPutIsReady(cfg: Config, U: set<Id>, s: Sys, job: Job, tmp: string, hex: string)
    requires Inv(cfg, s) && ReadyTree(U, s) && job.id in U && Clear(U, job.id, hex) && Admissible(cfg.settings, job)
    requires hex !in s.issued && |hex| == UUID_LENGTH
    ensures var p := Putting(job, tmp, hex, [], if job.exclusive then Check else Open);
            ReadyProc(cfg, U, s.fs, Replay(cfg, s.log), p)
  {
    hide ObjPath, MetaPath, StagePath, TmpPath, InBucket, InTmp, ValidId, S2sCap, UserCap, ServiceOnly, RecordOf, Clear,
         Replay, GoodTree, GoodSidecars, GoodCommits, WellFormed, LayoutDirs, Owned, Distinct, GoodStaging, MayWrite,
         OnTheWay;
    var side := StagePath(job.id, hex);
    if side in s.fs.files {
      assert InMeta(side) && !IsSidecar(side);
      var q :| q in s.procs && s.procs[q].Putting? && StagePath(s.procs[q].job.id, s.procs[q].hex) == side;
      assert GoodProc(cfg, s.fs, s.issued, s.commits, s.procs[q]);
      StagePathsDiffer(s.procs[q].job.id, s.procs[q].hex, job.id, hex);
      assert false;
    }
  }

  lemma StepKeepsReady(cfg: Config, U: set<Id>, s: Sys, step: Step)
    requires Inv(cfg, s) && Ready(cfg, U, s) && Universe(cfg, U) && CalmStep(cfg, U, s, step)
    ensures Ready(cfg, U, Next(cfg, s, step))
  {
    hide Synced, Faithful, Replay, PastEffect, StagePath, Inv, Ready, Idle, Clear, StagedNames, ValidId, Admissible,
         MayWrite, Universe, ObjPath, MetaPath, TmpPath;
    if Acts(step) {
      ActKeepsReady(cfg, U, s, step);
    } else {
      var t := Next(cfg, s, step);
      match step
      case StartPut(pid, job, tmp, hex) =>
        ReadyHasTree(cfg, U, s);
        StartPutIsReady(cfg, U, s, job, tmp, hex);
        AddingKeepsReady(cfg, U, s, t, pid);
      case StartDelete(pid, _, _) => AddingKeepsReady(cfg, U, s, t, pid);
      case StartHead(pid, _) => AddingKeepsReady(cfg, U, s, t, pid);
      case StartGet(pid, _) => AddingKeepsReady(cfg, U, s, t, pid);
      case StartSweep(pid) => AddingKeepsReady(cfg, U, s, t, pid);
      case Tick(_) => TickKeepsReady(cfg, U, s, t);
    }
  }

  lemma ReadyHasTree(cfg: Config, U: set<Id>, s: Sys)
    requires Ready(cfg, U, s)
    ensures ReadyTree(U, s)
  {
    hide Synced, Faithful, Replay, ReadyTree, OnePerKey, ReadyProc;
  }

  lemma TickKeepsReady(cfg: Config, U: set<Id>, s: Sys, t: Sys)
    requires Ready(cfg, U, s) && t == s.(now := t.now, past := t.past)
    ensures Ready(cfg, U, t)
  {
    hide Synced, Faithful, Replay, OnePerKey, ReadyProc, StagePath, IsSidecar, OnTheWay, InMeta, PastEffect;
    assert forall u :: Between(t, u) <==> Between(s, u);
  }

  lemma FreshStoreIsReady(cfg: Config, U: set<Id>, s: Sys)
    requires FreshStore(cfg, U, s)
    ensures Ready(cfg, U, s)
  {
    hide ObjPath, MetaPath, OnTheWay;
  }

  lemma {:induction false} CalmRunKeepsReady(cfg: Config, U: set<Id>, s: Sys, steps: seq<Step>, t: Sys)
    requires Inv(cfg, s) && Ready(cfg, U, s) && Universe(cfg, U) && CalmRun(cfg, U, s, steps, t)
    ensures Inv(cfg, t) && Ready(cfg, U, t)
    decreases |steps|
  {
    hide Inv, Ready, Universe, Next, Enabled;
    if steps != [] {
      CalmIsEnabled(cfg, U, s, steps[0]);
      StepKeepsReady(cfg, U, s, steps[0]);
      NextKeepsInv(cfg, s, steps[0]);
      CalmRunKeepsReady(cfg, U, Next(cfg, s, steps[0]), steps[1..], t);
    }
  }

  lemma CalmIsEnabled(cfg: Config, U: set<Id>, s: Sys, step: Step)
    requires CalmStep(cfg, U, s, step)
    ensures Enabled(cfg, s, step)
  {
    hide Enabled;
  }

  /**
   * In every calm run from a fresh store, every put, get, head and delete answers exactly what the map store answers
   * after the calls that finished before it.
   */
  lemma CalmRunsAnswerLikeTheMap(cfg: Config, U: set<Id>, s: Sys, steps: seq<Step>, t: Sys)
    requires Universe(cfg, U) && FreshStore(cfg, U, s) && CalmRun(cfg, U, s, steps, t)
    ensures Faithful(cfg, t.log)
  {
    hide Inv, Universe, CalmRun, Initial;
    FreshStoreIsReady(cfg, U, s);
    InitialInv(cfg, s);
    CalmRunKeepsReady(cfg, U, s, steps, t);
  }

  lemma InitialInv(cfg: Config, s: Sys)
    requires Initial(cfg, s)
    ensures Inv(cfg, s)
  {
  }
}
