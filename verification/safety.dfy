/**
 * What every reachable state keeps, whatever the interleaving of puts, deletes, reads and sweeps, and whatever
 * faults, broken sources, crashes and power losses occur.
 */
module Safety {
  import opened Strings
  import opened Options
  import opened Layout
  import opened FileSystem
  import opened Policy
  import opened Machine

  /** `f` is the complete payload of a put to exactly this path that reached its rename. */
  ghost predicate Backed(p: Path, f: File, commits: seq<Commit>)
  {
    && f.synced
    && exists i :: 0 <= i < |commits| && ObjPath(commits[i].job.id) == p && f.content == Bytes(commits[i].payload)
  }

  /** `f` is the complete sidecar of a put whose object was renamed into place. */
  ghost predicate Recorded(cfg: Config, p: Path, f: File, commits: seq<Commit>)
  {
    exists i :: 0 <= i < |commits| && MetaPath(commits[i].job.id) == p && f.content == Json(RecordOf(cfg, commits[i]))
  }

  ghost predicate GoodTree(fs: Fs, issued: set<string>, commits: seq<Commit>)
  {
    && (forall p :: p in fs.files && InBucket(p) ==> Backed(p, fs.files[p], commits))
    && (forall p :: p in fs.files && InTmp(p) ==> |p| == 2 && p[1] in issued)
  }

  ghost predicate GoodSidecars(cfg: Config, fs: Fs, commits: seq<Commit>)
  {
    forall p :: p in fs.files && IsSidecar(p) ==> Recorded(cfg, p, fs.files[p], commits)
  }

  ghost predicate GoodCommits(cfg: Config, commits: seq<Commit>)
  {
    forall i :: 0 <= i < |commits| ==>
      Admissible(cfg.settings, commits[i].job) && |commits[i].payload| <= commits[i].job.cap
  }

  /** What a staged file of a put may hold at each stage. */
  ghost predicate GoodStaging(p: Proc, f: File)
    requires p.Putting?
  {
    && f.content.Bytes? && |f.content.data| <= p.job.cap
    && (p.stage.Stream? ==> f.content.data <= p.got)
    && (p.stage.Dirs? || p.stage.Install? ==> f.synced && f.content.data == p.got)
  }

  ghost predicate GoodPut(cfg: Config, fs: Fs, issued: set<string>, commits: seq<Commit>, p: Proc)
    requires p.Putting?
  {
    && Admissible(cfg.settings, p.job)
    && p.tmp in issued && p.hex in issued && |p.tmp| == |p.hex| == UUID_LENGTH
    && |p.got| <= p.job.cap
    && (p.stage.Check? || p.stage.Found? || p.stage.Open? ==> TmpPath(p.tmp) !in fs.files)
    && (HoldsTmp(p) && TmpPath(p.tmp) in fs.files ==> GoodStaging(p, fs.files[TmpPath(p.tmp)]))
    && (p.stage.SideInstall? && StagePath(p.job.id, p.hex) in fs.files ==>
          fs.files[StagePath(p.job.id, p.hex)].content == Json(RecordOf(cfg, Commit(p.job, p.got))))
    && (PastEffect(p) ==> Commit(p.job, p.got) in commits)
    && (p.stage.Dirs? ==> p.stage.depth < |ObjPath(p.job.id)|)
  }

  ghost predicate GoodProc(cfg: Config, fs: Fs, issued: set<string>, commits: seq<Commit>, p: Proc)
  {
    && (p.Putting? ==> GoodPut(cfg, fs, issued, commits, p))
    && (p.Deleting? ==> MayWrite(cfg.settings, p.who, p.id))
    && (p.Heading? || p.Getting? ==> ValidId(p.id, cfg.settings.buckets))
  }

  ghost predicate Distinct(procs: map<nat, Proc>)
  {
    forall a, b :: a in procs && b in procs && a != b && procs[a].Putting? && procs[b].Putting? ==>
      procs[a].tmp != procs[b].tmp && procs[a].hex != procs[b].hex
  }

  ghost predicate Held(procs: map<nat, Proc>, name: string)
  {
    exists q :: q in procs && HoldsTmp(procs[q]) && procs[q].tmp == name
  }

  /** Every staging file belongs to a put in flight or is a known orphan. */
  ghost predicate Owned(s: Sys)
  {
    forall p :: p in s.fs.files && InTmp(p) ==> |p| == 2 && (p[1] in s.orphans || Held(s.procs, p[1]))
  }

  ghost predicate Inv(cfg: Config, s: Sys)
  {
    && WellFormed(s.fs) && LayoutDirs(cfg.settings, s.fs)
    && GoodTree(s.fs, s.issued, s.commits)
    && (forall i :: 0 <= i < |s.past| ==> GoodTree(s.past[i], s.issued, s.commits))
    && (!s.powerLost ==> GoodSidecars(cfg, s.fs, s.commits))
    && GoodCommits(cfg, s.commits)
    && (forall q :: q in s.procs ==> GoodProc(cfg, s.fs, s.issued, s.commits, s.procs[q]))
    && Distinct(s.procs)
    && Owned(s)
  }

  // ---- What an action may do -----------------------------------------------

  /** The change leaves a well-formed tree. */
  ghost predicate Lawful(fs: Fs, change: Change, nameMax: nat)
  {
    match change
    case Keep => true
    case Write(path, _) => path in fs.files || MayCreate(fs, path, nameMax)
    case MakeDir(path) => MayMkdir(fs, path, nameMax)
    case Move(from, to) => MayRename(fs, from, to, nameMax)
    case Remove(_) => true
  }

  /** The path at which the change makes a file appear or change, if any. */
  function Landing(change: Change): Option<Path>
  {
    match change
    case Write(path, _) => Some(path)
    case Move(_, to) => Some(to)
    case _ => None
  }

  /** Files appear in a bucket only as the renamed payload of a commit, and under a sidecar name only as its record. */
  ghost predicate Honest(cfg: Config, fs: Fs, commits: seq<Commit>, act: Act)
  {
    Landing(act.change).Some? ==>
      var to := Landing(act.change).value;
      && (InTmp(to) ==> |to| == 2)
      && (InBucket(to) ==>
            && act.change.Move? && act.change.from in fs.files && act.mark.Commits?
            && fs.files[act.change.from].synced
            && fs.files[act.change.from].content == Bytes(act.mark.commit.payload)
            && ObjPath(act.mark.commit.job.id) == to)
      && (IsSidecar(to) ==>
            && act.change.Move? && act.change.from in fs.files && !act.mark.Commits?
            && exists i :: 0 <= i < |commits| && MetaPath(commits[i].job.id) == to
                           && fs.files[act.change.from].content == Json(RecordOf(cfg, commits[i])))
  }

  /** An operation changes files at most at these paths. */
  ghost predicate Confined(p: Proc, change: Change)
  {
    Landing(change).Some? ==> p.Putting? && Landing(change).value in Touched(p)
  }

  ghost function Touched(p: Proc): set<Path>
    requires p.Putting?
  {
    {TmpPath(p.tmp), ObjPath(p.job.id), StagePath(p.job.id, p.hex), MetaPath(p.job.id)}
  }

  /** A staging file stays held, disappears, or is recorded as an orphan. */
  ghost predicate Accounts(fs: Fs, p: Proc, act: Act)
  {
    && (Landing(act.change).Some? && InTmp(Landing(act.change).value) ==>
          act.after.Stay? && HoldsTmp(act.after.proc) && Landing(act.change).value == TmpPath(act.after.proc.tmp))
    && (HoldsTmp(p) ==>
          || (act.after.Stay? && HoldsTmp(act.after.proc) && act.after.proc.tmp == p.tmp)
          || act.mark == Orphans(p.tmp)
          || TmpPath(p.tmp) !in Apply(fs, act.change).files)
  }

  ghost predicate SamePut(p: Proc, q: Proc)
  {
    p.Putting? == q.Putting? && (p.Putting? ==> q.job == p.job && q.tmp == p.tmp && q.hex == p.hex)
  }

  ghost predicate GoodAct(cfg: Config, fs: Fs, issued: set<string>, commits: seq<Commit>, p: Proc, act: Act)
  {
    && Lawful(fs, act.change, cfg.nameMax)
    && Honest(cfg, fs, commits, act)
    && Confined(p, act.change)
    && Accounts(fs, p, act)
    && (act.mark.Commits? ==>
          Admissible(cfg.settings, act.mark.commit.job) && |act.mark.commit.payload| <= act.mark.commit.job.cap)
    && (act.after.Stay? ==>
          && SamePut(p, act.after.proc)
          && var more := if act.mark.Commits? then commits + [act.mark.commit] else commits;
             GoodProc(cfg, Apply(fs, act.change), issued, more, act.after.proc))
  }

  // ---- Every action of an operation is good --------------------------------

  /** The regions of the four paths a put touches. */
  lemma Places(cfg: Config, id: Id, tmp: string, hex: string)
    requires ValidId(id, cfg.settings.buckets)
    ensures InBucket(ObjPath(id)) && !InTmp(ObjPath(id)) && !IsSidecar(ObjPath(id))
    ensures IsSidecar(MetaPath(id)) && !InBucket(MetaPath(id)) && !InTmp(MetaPath(id))
    ensures !IsSidecar(StagePath(id, hex)) && !InBucket(StagePath(id, hex)) && !InTmp(StagePath(id, hex))
    ensures !IsSidecar(TmpPath(tmp)) && !InBucket(TmpPath(tmp)) && InTmp(TmpPath(tmp))
  {
    BucketRegion(id, cfg.settings.buckets);
  }

  lemma PutGoIsGood(cfg: Config, fs: Fs, now: int, issued: set<string>, commits: seq<Commit>, p: Proc)
    requires p.Putting? && GoodProc(cfg, fs, issued, commits, p)
    ensures GoodAct(cfg, fs, issued, commits, p, PutGo(cfg, fs, now, p))
  {
    hide GoodProc, GoodAct, PutGo;
    if PastEffect(p) {
      SidecarGoIsGood(cfg, fs, now, issued, commits, p);
    } else {
      StagingGoIsGood(cfg, fs, now, issued, commits, p);
    }
  }

  lemma StagingGoIsGood(cfg: Config, fs: Fs, now: int, issued: set<string>, commits: seq<Commit>, p: Proc)
    requires p.Putting? && GoodProc(cfg, fs, issued, commits, p) && !PastEffect(p)
    ensures GoodAct(cfg, fs, issued, commits, p, PutGo(cfg, fs, now, p))
  {
    hide ObjPath, MetaPath, StagePath, TmpPath, InBucket, InTmp, IsSidecar, ValidId, S2sCap, UserCap, ServiceOnly,
         RecordOf, LookStep;
    Places(cfg, p.job.id, p.tmp, p.hex);
    if p.stage.Install? {
      assert (commits + [Commit(p.job, p.got)])[|commits|] == Commit(p.job, p.got);
    }
  }

  lemma SidecarGoIsGood(cfg: Config, fs: Fs, now: int, issued: set<string>, commits: seq<Commit>, p: Proc)
    requires p.Putting? && GoodProc(cfg, fs, issued, commits, p) && PastEffect(p)
    ensures GoodAct(cfg, fs, issued, commits, p, PutGo(cfg, fs, now, p))
  {
    hide ObjPath, MetaPath, StagePath, TmpPath, InBucket, InTmp, IsSidecar, ValidId, S2sCap, UserCap, ServiceOnly,
         RecordOf, LookStep;
    Places(cfg, p.job.id, p.tmp, p.hex);
    var i :| 0 <= i < |commits| && commits[i] == Commit(p.job, p.got);
  }

  lemma PutFaultIsGood(cfg: Config, fs: Fs, issued: set<string>, commits: seq<Commit>, p: Proc, noSpace: bool)
    requires p.Putting? && GoodProc(cfg, fs, issued, commits, p)
    ensures GoodAct(cfg, fs, issued, commits, p, PutFault(cfg, fs, p, noSpace))
  {
    hide ObjPath, MetaPath, StagePath, TmpPath, InBucket, InTmp, IsSidecar, ValidId, S2sCap, UserCap, ServiceOnly,
         RecordOf, LookStep;
  }

  lemma PutFeedIsGood(cfg: Config, fs: Fs, now: int, issued: set<string>, commits: seq<Commit>, p: Proc,
                      chunk: seq<Byte>, reached: nat)
    requires p.Putting? && p.stage.Stream? && GoodProc(cfg, fs, issued, commits, p)
    requires reached <= |p.got| + |chunk|
    ensures GoodAct(cfg, fs, issued, commits, p, PutFeed(fs, now, p, chunk, reached))
  {
    hide ObjPath, MetaPath, StagePath, TmpPath, InBucket, InTmp, IsSidecar, ValidId, S2sCap, UserCap, ServiceOnly,
         RecordOf, LookStep;
    Places(cfg, p.job.id, p.tmp, p.hex);
  }

  lemma OtherActIsGood(cfg: Config, s: Sys, step: Step)
    requires Acts(step) && Enabled(cfg, s, step) && !s.procs[step.pid].Putting?
    requires GoodProc(cfg, s.fs, s.issued, s.commits, s.procs[step.pid])
    ensures GoodAct(cfg, s.fs, s.issued, s.commits, s.procs[step.pid], ActOf(cfg, s, step))
  {
    hide ObjPath, MetaPath, StagePath, TmpPath, InBucket, InTmp, IsSidecar, ValidId, S2sCap, UserCap, ServiceOnly,
         RecordOf, LookStep;
  }

  lemma ActIsGood(cfg: Config, s: Sys, step: Step)
    requires Acts(step) && Enabled(cfg, s, step)
    requires GoodProc(cfg, s.fs, s.issued, s.commits, s.procs[step.pid])
    ensures GoodAct(cfg, s.fs, s.issued, s.commits, s.procs[step.pid], ActOf(cfg, s, step))
  {
    hide GoodAct, PutGo, PutFault, PutFeed, PutFails;
    var p := s.procs[step.pid];
    if !p.Putting? {
      OtherActIsGood(cfg, s, step);
    } else {
      match step
      case Go(_) => PutGoIsGood(cfg, s.fs, s.now, s.issued, s.commits, p);
      case Fault(_, noSpace) => PutFaultIsGood(cfg, s.fs, s.issued, s.commits, p, noSpace);
      case Feed(_, chunk, reached) => PutFeedIsGood(cfg, s.fs, s.now, s.issued, s.commits, p, chunk, reached);
      case Break(_) => PutBreakIsGood(cfg, s.fs, s.issued, s.commits, p);
    }
  }

  lemma PutBreakIsGood(cfg: Config, fs: Fs, issued: set<string>, commits: seq<Commit>, p: Proc)
    requires p.Putting? && p.stage.Stream? && GoodProc(cfg, fs, issued, commits, p)
    ensures GoodAct(cfg, fs, issued, commits, p, PutFails(p, SourceBroken))
  {
    hide ObjPath, MetaPath, StagePath, TmpPath, InBucket, InTmp, IsSidecar, ValidId, S2sCap, UserCap, ServiceOnly,
         RecordOf, LookStep;
  }

  // ---- Good actions keep the invariant -------------------------------------

  lemma LawfulKeepsTree(cfg: Config, fs: Fs, change: Change)
    requires WellFormed(fs) && LayoutDirs(cfg.settings, fs) && Lawful(fs, change, cfg.nameMax)
    ensures WellFormed(Apply(fs, change)) && LayoutDirs(cfg.settings, Apply(fs, change))
  {
    match change
    case Keep =>
    case Write(path, file) => PutKeeps(fs, path, file, cfg.nameMax);
    case MakeDir(path) => MkdirKeeps(fs, path, cfg.nameMax);
    case Move(from, to) => RenameKeeps(fs, from, to, cfg.nameMax);
    case Remove(path) => UnlinkKeeps(fs, path);
  }

  /** Nothing new appears except where the change lands. */
  lemma OnlyTheLanding(fs: Fs, change: Change, q: Path)
    requires q in Apply(fs, change).files
    requires Landing(change).Some? ==> q != Landing(change).value
    ensures q in fs.files && Apply(fs, change).files[q] == fs.files[q]
  {
  }

  lemma BackedStays(p: Path, f: File, commits: seq<Commit>, more: seq<Commit>)
    requires Backed(p, f, commits)
    ensures Backed(p, f, commits + more)
  {
    hide ObjPath;
    var i :| 0 <= i < |commits| && ObjPath(commits[i].job.id) == p && f.content == Bytes(commits[i].payload);
    assert (commits + more)[i] == commits[i];
  }

  lemma GoodTreeStays(fs: Fs, issued: set<string>, issued': set<string>, commits: seq<Commit>, more: seq<Commit>)
    requires GoodTree(fs, issued, commits) && issued <= issued'
    ensures GoodTree(fs, issued', commits + more)
  {
    hide InBucket, InTmp, Backed;
    forall p | p in fs.files && InBucket(p) ensures Backed(p, fs.files[p], commits + more) {
      BackedStays(p, fs.files[p], commits, more);
    }
  }

  lemma RecordedStays(cfg: Config, p: Path, f: File, commits: seq<Commit>, more: seq<Commit>)
    requires Recorded(cfg, p, f, commits)
    ensures Recorded(cfg, p, f, commits + more)
  {
    hide MetaPath, RecordOf;
    var i :| 0 <= i < |commits| && MetaPath(commits[i].job.id) == p && f.content == Json(RecordOf(cfg, commits[i]));
    assert (commits + more)[i] == commits[i];
  }

  lemma GoodSidecarsStay(cfg: Config, fs: Fs, commits: seq<Commit>, more: seq<Commit>)
    requires GoodSidecars(cfg, fs, commits)
    ensures GoodSidecars(cfg, fs, commits + more)
  {
    hide IsSidecar, Recorded;
    forall p | p in fs.files && IsSidecar(p) ensures Recorded(cfg, p, fs.files[p], commits + more) {
      RecordedStays(cfg, p, fs.files[p], commits, more);
    }
  }

  function NewCommits(act: Act): seq<Commit> { if act.mark.Commits? then [act.mark.commit] else [] }

  lemma HonestKeepsObjects(cfg: Config, fs: Fs, issued: set<string>, commits: seq<Commit>, p: Proc, act: Act)
    requires GoodTree(fs, issued, commits) && Honest(cfg, fs, commits, act) && Lawful(fs, act.change, cfg.nameMax)
    requires Landing(act.change).Some? && InTmp(Landing(act.change).value) ==> Landing(act.change).value[1] in issued
    ensures GoodTree(Apply(fs, act.change), issued, commits + NewCommits(act))
  {
    hide InBucket, InTmp, Backed, IsSidecar, ObjPath, RecordOf;
    var fs' := Apply(fs, act.change);
    GoodTreeStays(fs, issued, issued, commits, NewCommits(act));
    forall q | q in fs'.files && InBucket(q) ensures Backed(q, fs'.files[q], commits + NewCommits(act)) {
      if Landing(act.change) == Some(q) {
        JustCommitted(q, fs'.files[q], commits, act.mark.commit);
      } else {
        OnlyTheLanding(fs, act.change, q);
      }
    }
    forall q | q in fs'.files && InTmp(q) ensures |q| == 2 && q[1] in issued {
      if Landing(act.change) != Some(q) {
        OnlyTheLanding(fs, act.change, q);
      }
    }
  }

  lemma JustCommitted(p: Path, f: File, commits: seq<Commit>, c: Commit)
    requires f.synced && f.content == Bytes(c.payload) && ObjPath(c.job.id) == p
    ensures Backed(p, f, commits + [c])
  {
    assert (commits + [c])[|commits|] == c;
  }

  lemma HonestKeepsSidecars(cfg: Config, fs: Fs, commits: seq<Commit>, act: Act)
    requires GoodSidecars(cfg, fs, commits) && Honest(cfg, fs, commits, act) && Lawful(fs, act.change, cfg.nameMax)
    ensures GoodSidecars(cfg, Apply(fs, act.change), commits + NewCommits(act))
  {
    hide InBucket, InTmp, IsSidecar, ObjPath, RecordOf, MetaPath;
    var fs' := Apply(fs, act.change);
    GoodSidecarsStay(cfg, fs, commits, NewCommits(act));
    forall q | q in fs'.files && IsSidecar(q) ensures Recorded(cfg, q, fs'.files[q], commits + NewCommits(act)) {
      if Landing(act.change) == Some(q) {
        assert Recorded(cfg, q, fs'.files[q], commits);
        assert commits + NewCommits(act) == commits;
      } else {
        OnlyTheLanding(fs, act.change, q);
        RecordedStays(cfg, q, fs.files[q], commits, NewCommits(act));
      }
    }
  }

  /** The paths one put touches are not staging paths of another. */
  lemma PathsApart(cfg: Config, a: Proc, b: Proc)
    requires a.Putting? && b.Putting? && a.tmp != b.tmp && a.hex != b.hex && |a.hex| == |b.hex|
    requires ValidId(a.job.id, cfg.settings.buckets) && ValidId(b.job.id, cfg.settings.buckets)
    ensures TmpPath(b.tmp) !in Touched(a) && StagePath(b.job.id, b.hex) !in Touched(a)
  {
    hide InBucket, InTmp, IsSidecar, ObjPath, MetaPath, StagePath, ValidId;
    Places(cfg, a.job.id, a.tmp, a.hex);
    Places(cfg, b.job.id, b.tmp, b.hex);
    StagePathsDiffer(a.job.id, a.hex, b.job.id, b.hex);
  }

  /** An operation in flight stays good while nothing appears at its own staging paths. */
  lemma ProcStays(cfg: Config, fs: Fs, change: Change, issued: set<string>, commits: seq<Commit>, more: seq<Commit>,
                  a: Proc, p: Proc)
    requires GoodProc(cfg, fs, issued, commits, p) && GoodProc(cfg, fs, issued, commits, a)
    requires Confined(a, change)
    requires a.Putting? && p.Putting? ==> a.tmp != p.tmp && a.hex != p.hex
    ensures GoodProc(cfg, Apply(fs, change), issued, commits + more, p)
  {
    hide InBucket, InTmp, IsSidecar, ObjPath, MetaPath, StagePath, TmpPath, ValidId, RecordOf, S2sCap, UserCap,
         ServiceOnly, Touched;
    if p.Putting? {
      if a.Putting? {
        PathsApart(cfg, a, p);
      }
      forall q | q in Apply(fs, change).files && (q == TmpPath(p.tmp) || q == StagePath(p.job.id, p.hex))
        ensures q in fs.files && Apply(fs, change).files[q] == fs.files[q]
      {
        OnlyTheLanding(fs, change, q);
      }
    }
  }

  lemma PerformKeepsOwned(cfg: Config, s: Sys, pid: nat, act: Act)
    requires Inv(cfg, s) && pid in s.procs && GoodAct(cfg, s.fs, s.issued, s.commits, s.procs[pid], act)
    ensures Owned(Perform(s, pid, act))
  {
    hide InBucket, InTmp, IsSidecar, ObjPath, MetaPath, StagePath, ValidId, RecordOf, S2sCap, UserCap, ServiceOnly,
         GoodTree, GoodSidecars, GoodCommits, GoodProc, Admissible, WellFormed, LayoutDirs;
    var t := Perform(s, pid, act);
    var p := s.procs[pid];
    forall f | f in t.fs.files && InTmp(f) ensures |f| == 2 && (f[1] in t.orphans || Held(t.procs, f[1])) {
      if Landing(act.change) == Some(f) {
        assert t.procs[pid] == act.after.proc;
        assert Held(t.procs, f[1]);
      } else {
        OnlyTheLanding(s.fs, act.change, f);
        if f[1] !in s.orphans {
          var q :| q in s.procs && HoldsTmp(s.procs[q]) && s.procs[q].tmp == f[1];
          TmpPathOf(f);
          if q != pid {
            assert t.procs[q] == s.procs[q];
            assert Held(t.procs, f[1]);
          } else if act.after.Stay? && HoldsTmp(act.after.proc) && act.after.proc.tmp == p.tmp {
            assert t.procs[pid] == act.after.proc;
            assert Held(t.procs, f[1]);
          }
        }
      }
    }
  }

  lemma TmpPathOf(f: Path)
    requires InTmp(f) && |f| == 2
    ensures f == TmpPath(f[1])
  {
  }

  lemma PastStaysGood(s: Sys, t: Sys)
    requires GoodTree(s.fs, s.issued, s.commits) && forall i :: 0 <= i < |s.past| ==>
               GoodTree(s.past[i], s.issued, s.commits)
    requires s.commits <= t.commits && s.issued <= t.issued
    ensures var past := s.past + [s.fs]; forall i :: 0 <= i < |past| ==> GoodTree(past[i], t.issued, t.commits)
  {
    hide GoodTree;
    var past := s.past + [s.fs];
    var more := t.commits[|s.commits|..];
    assert t.commits == s.commits + more;
    forall i | 0 <= i < |past| ensures GoodTree(past[i], t.issued, t.commits) {
      assert GoodTree(past[i], s.issued, s.commits);
      GoodTreeStays(past[i], s.issued, t.issued, s.commits, more);
    }
  }

  lemma PerformKeepsProcs(cfg: Config, s: Sys, pid: nat, act: Act)
    requires Inv(cfg, s) && pid in s.procs && GoodAct(cfg, s.fs, s.issued, s.commits, s.procs[pid], act)
    ensures var t := Perform(s, pid, act);
            Distinct(t.procs) && forall q :: q in t.procs ==> GoodProc(cfg, t.fs, t.issued, t.commits, t.procs[q])
  {
    hide GoodTree, GoodSidecars, GoodCommits, GoodProc, Admissible, WellFormed, LayoutDirs, Owned, Lawful, Honest,
         Confined, Accounts;
    var t := Perform(s, pid, act);
    assert t.commits == s.commits + NewCommits(act);
    forall q | q in t.procs ensures GoodProc(cfg, t.fs, t.issued, t.commits, t.procs[q]) {
      if q != pid {
        assert t.procs[q] == s.procs[q];
        ProcStays(cfg, s.fs, act.change, s.issued, s.commits, NewCommits(act), s.procs[pid], s.procs[q]);
      }
    }
  }

  lemma PerformKeepsInv(cfg: Config, s: Sys, pid: nat, act: Act)
    requires Inv(cfg, s) && pid in s.procs && GoodAct(cfg, s.fs, s.issued, s.commits, s.procs[pid], act)
    ensures Inv(cfg, Perform(s, pid, act).(past := s.past + [s.fs]))
  {
    hide GoodTree, GoodSidecars, GoodProc, Admissible, WellFormed, LayoutDirs, Owned, Lawful, Honest, Accounts,
         Distinct, Apply;
    var t := Perform(s, pid, act);
    assert t.commits == s.commits + NewCommits(act);
    LawfulKeepsTree(cfg, s.fs, act.change);
    LandingIsIssued(cfg, s.fs, s.issued, s.commits, s.procs[pid], act);
    HonestKeepsObjects(cfg, s.fs, s.issued, s.commits, s.procs[pid], act);
    if !s.powerLost {
      HonestKeepsSidecars(cfg, s.fs, s.commits, act);
    }
    PerformKeepsOwned(cfg, s, pid, act);
    PerformKeepsProcs(cfg, s, pid, act);
    PastStaysGood(s, t);
    OwnedIgnoresPast(t, s.past + [s.fs]);
  }

  lemma OwnedIgnoresPast(t: Sys, past: seq<Fs>)
    requires Owned(t)
    ensures Owned(t.(past := past))
  {
  }

  lemma LandingIsIssued(cfg: Config, fs: Fs, issued: set<string>, commits: seq<Commit>, p: Proc, act: Act)
    requires GoodProc(cfg, fs, issued, commits, p) && GoodAct(cfg, fs, issued, commits, p, act)
    ensures Landing(act.change).Some? && InTmp(Landing(act.change).value) ==>
              |Landing(act.change).value| == 2 && Landing(act.change).value[1] in issued
  {
    hide GoodTree, GoodSidecars, WellFormed, LayoutDirs, Lawful, ValidId, S2sCap, UserCap, ServiceOnly, InBucket,
         IsSidecar, ObjPath, MetaPath, StagePath, RecordOf;
  }

  // ---- Steps that are not an action of an operation ------------------------

  lemma StartKeepsInv(cfg: Config, s: Sys, pid: nat, p: Proc, issued: set<string>, t: Sys)
    requires Inv(cfg, s) && pid !in s.procs && s.issued <= issued
    requires p.Putting? ==>
               && p.tmp !in s.issued && p.hex !in s.issued && !PastEffect(p) && !HoldsTmp(p)
               && (forall q :: q in s.procs && s.procs[q].Putting? ==>
                     s.procs[q].tmp != p.tmp && s.procs[q].hex != p.hex)
    requires GoodProc(cfg, s.fs, issued, s.commits, p)
    requires t.fs == s.fs && t.procs == s.procs[pid := p] && t.issued == issued && t.past == s.past + [s.fs]
    requires t.commits == s.commits && t.orphans == s.orphans && t.powerLost == s.powerLost
    ensures Inv(cfg, t)
  {
    hide ObjPath, MetaPath, StagePath, TmpPath, InBucket, InTmp, IsSidecar, ValidId, S2sCap, UserCap, ServiceOnly,
         RecordOf, Backed, Recorded, GoodSidecars, GoodCommits, WellFormed, LayoutDirs, GoodStaging;
    PastStaysGood(s, t);
    assert s.commits + [] == s.commits;
    GoodTreeStays(s.fs, s.issued, issued, s.commits, []);
    forall f | f in t.fs.files && InTmp(f) ensures |f| == 2 && (f[1] in t.orphans || Held(t.procs, f[1])) {
      if f[1] !in s.orphans {
        var q :| q in s.procs && HoldsTmp(s.procs[q]) && s.procs[q].tmp == f[1];
        assert t.procs[q] == s.procs[q];
      }
    }
    forall q | q in t.procs ensures GoodProc(cfg, t.fs, t.issued, t.commits, t.procs[q]) {
      if q != pid {
        assert GoodProc(cfg, s.fs, s.issued, s.commits, s.procs[q]);
      }
    }
  }

  /** Names are issued to one put only, so a fresh name is no other put's. */
  lemma FreshNames(cfg: Config, s: Sys, name: string)
    requires Inv(cfg, s) && name !in s.issued
    ensures TmpPath(name) !in s.fs.files
    ensures forall q :: q in s.procs && s.procs[q].Putting? ==> s.procs[q].tmp != name && s.procs[q].hex != name
  {
    hide ObjPath, MetaPath, StagePath, InBucket, IsSidecar, ValidId, S2sCap, UserCap, ServiceOnly, RecordOf, Backed,
         GoodSidecars, GoodCommits, WellFormed, LayoutDirs, GoodStaging;
    forall q | q in s.procs && s.procs[q].Putting? ensures s.procs[q].tmp != name && s.procs[q].hex != name {
      assert GoodProc(cfg, s.fs, s.issued, s.commits, s.procs[q]);
    }
  }

  lemma StartPutIsGood(cfg: Config, s: Sys, job: Job, tmp: string, hex: string)
    requires Inv(cfg, s) && Admissible(cfg.settings, job)
    requires tmp !in s.issued && |tmp| == |hex| == UUID_LENGTH
    ensures var p := Putting(job, tmp, hex, [], if job.exclusive then Check else Open);
            GoodProc(cfg, s.fs, s.issued + {tmp, hex}, s.commits, p)
  {
    hide ObjPath, MetaPath, StagePath, InBucket, IsSidecar, ValidId, S2sCap, UserCap, ServiceOnly, RecordOf, TmpPath,
         Inv;
    FreshNames(cfg, s, tmp);
  }

  lemma OtherStepsKeepInv(cfg: Config, s: Sys, step: Step)
    requires Inv(cfg, s) && Enabled(cfg, s, step) && !Acts(step) && !step.Crash? && !step.PowerLoss?
    ensures Inv(cfg, Next(cfg, s, step))
  {
    hide ObjPath, MetaPath, StagePath, TmpPath, InBucket, InTmp, IsSidecar, ValidId, S2sCap, UserCap, ServiceOnly,
         RecordOf, GoodTree, GoodSidecars, GoodCommits, WellFormed, LayoutDirs, GoodPut, Owned, Distinct, Inv,
         MaySurvive, StagedNames, Admissible, MayWrite;
    var t := Next(cfg, s, step);
    match step
    case StartPut(pid, job, tmp, hex) =>
      FreshNames(cfg, s, tmp);
      FreshNames(cfg, s, hex);
      StartPutIsGood(cfg, s, job, tmp, hex);
      StartKeepsInv(cfg, s, pid, t.procs[pid], t.issued, t);
    case StartDelete(pid, id, who) => StartKeepsInv(cfg, s, pid, t.procs[pid], s.issued, t);
    case StartHead(pid, id) => StartKeepsInv(cfg, s, pid, t.procs[pid], s.issued, t);
    case StartGet(pid, id) => StartKeepsInv(cfg, s, pid, t.procs[pid], s.issued, t);
    case StartSweep(pid) => StartKeepsInv(cfg, s, pid, t.procs[pid], s.issued, t);
    case Tick(_) => TickKeepsInv(cfg, s, t);
  }

  lemma TickKeepsInv(cfg: Config, s: Sys, t: Sys)
    requires Inv(cfg, s) && t == s.(now := t.now, past := s.past + [s.fs])
    ensures Inv(cfg, t)
  {
    hide GoodTree, GoodSidecars, GoodCommits, WellFormed, LayoutDirs, GoodProc, Distinct, InTmp;
    PastStaysGood(s, t);
  }

  lemma CrashKeepsInv(cfg: Config, s: Sys, pids: set<nat>)
    requires Inv(cfg, s)
    ensures Inv(cfg, CrashOf(s, pids).(past := s.past + [s.fs]))
  {
    hide GoodTree, GoodSidecars, GoodCommits, WellFormed, LayoutDirs, GoodProc, InTmp, MetaPath, PastEffect;
    var t := CrashOf(s, pids).(past := s.past + [s.fs]);
    PastStaysGood(s, t);
    forall f | f in t.fs.files && InTmp(f) ensures |f| == 2 && (f[1] in t.orphans || Held(t.procs, f[1])) {
      if f[1] !in s.orphans {
        var q :| q in s.procs && HoldsTmp(s.procs[q]) && s.procs[q].tmp == f[1];
        if q in pids {
          assert q in s.procs.Keys * pids;
        } else {
          assert q in t.procs && t.procs[q] == s.procs[q];
        }
      }
    }
  }

  lemma SurvivorsAreGood(cfg: Config, s: Sys, fs: Fs)
    requires Inv(cfg, s) && MaySurvive(cfg, s, fs)
    ensures GoodTree(fs, s.issued, s.commits)
  {
    hide InBucket, InTmp, ObjPath, GoodSidecars, GoodCommits, WellFormed, LayoutDirs, GoodProc, Distinct, Owned;
    var history := s.past + [s.fs];
    forall p | p in fs.files
      ensures InBucket(p) ==> Backed(p, fs.files[p], s.commits)
      ensures InTmp(p) ==> |p| == 2 && p[1] in s.issued
    {
      var i :| 0 <= i <= |s.past| && HeldFile(history[i], p, fs.files[p]);
      assert history[i] == if i < |s.past| then s.past[i] else s.fs;
      assert GoodTree(history[i], s.issued, s.commits);
    }
  }

  lemma PowerLossKeepsInv(cfg: Config, s: Sys, fs: Fs)
    requires Inv(cfg, s) && MaySurvive(cfg, s, fs)
    ensures Inv(cfg, PowerLossOf(s, fs).(past := s.past + [s.fs]))
  {
    hide InBucket, InTmp, GoodSidecars, GoodCommits, WellFormed, LayoutDirs, GoodProc, Survives, GoodTree;
    var t := PowerLossOf(s, fs).(past := s.past + [s.fs]);
    SurvivorsAreGood(cfg, s, fs);
    PastStaysGood(s, t);
    EveryStagedFileIsNamed(fs, s.issued, s.commits);
  }

  lemma EveryStagedFileIsNamed(fs: Fs, issued: set<string>, commits: seq<Commit>)
    requires GoodTree(fs, issued, commits)
    ensures forall p :: p in fs.files && InTmp(p) ==> |p| == 2 && p[1] in StagedNames(fs)
  {
    hide Backed, InBucket, InTmp;
  }

  // ---- The invariant over all runs -----------------------------------------

  lemma NextKeepsInv(cfg: Config, s: Sys, step: Step)
    requires Inv(cfg, s) && Enabled(cfg, s, step)
    ensures Inv(cfg, Next(cfg, s, step))
  {
    hide GoodTree, GoodSidecars, GoodCommits, WellFormed, LayoutDirs, GoodProc, InTmp, MetaPath, PastEffect, Distinct,
         Owned, ActOf, Perform, GoodAct, CrashOf, PowerLossOf, MaySurvive;
    if Acts(step) {
      ActIsGood(cfg, s, step);
      PerformKeepsInv(cfg, s, step.pid, ActOf(cfg, s, step));
    } else {
      match step
      case Crash(pids) => CrashKeepsInv(cfg, s, pids);
      case PowerLoss(fs) => PowerLossKeepsInv(cfg, s, fs);
      case _ => OtherStepsKeepInv(cfg, s, step);
    }
  }

  lemma {:induction false} RunsKeepInv(cfg: Config, s: Sys, steps: seq<Step>, t: Sys)
    requires Inv(cfg, s) && Runs(cfg, s, steps, t)
    ensures Inv(cfg, t)
    decreases |steps|
  {
    hide Inv, Enabled, Next, Runs;
    RunsUnfold(cfg, s, steps, t);
    if steps != [] {
      NextKeepsInv(cfg, s, steps[0]);
      RunsKeepInv(cfg, Next(cfg, s, steps[0]), steps[1..], t);
    }
  }

  lemma ReachableInv(cfg: Config, s: Sys)
    requires Reachable(cfg, s)
    ensures Inv(cfg, s)
  {
    hide Runs;
    var init: Sys, steps: seq<Step> :| Initial(cfg, init) && Runs(cfg, init, steps, s);
    RunsKeepInv(cfg, init, steps, s);
  }

  // ---- What it means -------------------------------------------------------

  /**
   * Under every interleaving, fault, crash and power loss, every file below a bucket is the complete payload of
   * one put to exactly that path that reached its rename, admitted by the write policy and within its cap.
   */
  lemma EveryFileIsAWholePayload(cfg: Config, s: Sys, p: Path) returns (c: Commit)
    requires Reachable(cfg, s) && p in s.fs.files && InBucket(p)
    ensures c in s.commits && ObjPath(c.job.id) == p && s.fs.files[p].content == Bytes(c.payload)
    ensures Admissible(cfg.settings, c.job) && |c.payload| <= c.job.cap
  {
    hide GoodSidecars, WellFormed, LayoutDirs, GoodProc, Distinct, Owned, ObjPath, InTmp, Reachable, Admissible;
    ReachableInv(cfg, s);
    assert Backed(p, s.fs.files[p], s.commits);
    var i :| 0 <= i < |s.commits| && ObjPath(s.commits[i].job.id) == p
             && s.fs.files[p].content == Bytes(s.commits[i].payload);
    c := s.commits[i];
  }

  /** What is stored for a bucket and key was put to that bucket and key. */
  lemma StoredObjectIsItsOwnPayload(cfg: Config, s: Sys, id: Id) returns (c: Commit)
    requires Reachable(cfg, s) && ValidId(id, cfg.settings.buckets) && ObjPath(id) in s.fs.files
    ensures c in s.commits && c.job.id == id && s.fs.files[ObjPath(id)].content == Bytes(c.payload)
    ensures Admissible(cfg.settings, c.job) && |c.payload| <= c.job.cap
  {
    hide Reachable, Admissible, ObjPath, ValidId;
    BucketRegion(id, cfg.settings.buckets);
    c := EveryFileIsAWholePayload(cfg, s, ObjPath(id));
    PathsOfIds(c.job.id, id);
  }

  /** Without power loss, a sidecar is the complete record of some put to its own key that had renamed its object. */
  lemma SidecarIsItsOwnRecord(cfg: Config, s: Sys, id: Id) returns (c: Commit)
    requires Reachable(cfg, s) && !s.powerLost && MetaPath(id) in s.fs.files
    ensures c in s.commits && c.job.id == id && s.fs.files[MetaPath(id)].content.Json?
    ensures var record := s.fs.files[MetaPath(id)].content.record;
            && record.bytes == |c.payload| && record.etag == cfg.hash(c.payload)
            && record.contentType == c.job.contentType && record.metadata == c.job.metadata
            && ("uploader" in c.job.metadata ==> record.uploader == c.job.metadata["uploader"])
  {
    hide GoodTree, WellFormed, LayoutDirs, GoodProc, Distinct, Owned, MetaPath, InTmp, Reachable, GoodCommits;
    ReachableInv(cfg, s);
    var p := MetaPath(id);
    assert Recorded(cfg, p, s.fs.files[p], s.commits);
    var i :| 0 <= i < |s.commits| && MetaPath(s.commits[i].job.id) == p
             && s.fs.files[p].content == Json(RecordOf(cfg, s.commits[i]));
    c := s.commits[i];
    PathsOfIds(c.job.id, id);
  }

  /** What a put has staged never exceeds its cap, also after it was cut off. */
  lemma StagedWithinCap(cfg: Config, s: Sys, pid: nat)
    requires Reachable(cfg, s) && pid in s.procs && HoldsTmp(s.procs[pid])
    ensures TmpPath(s.procs[pid].tmp) in s.fs.files ==>
              |DataOf(s.fs.files[TmpPath(s.procs[pid].tmp)])| <= s.procs[pid].job.cap
  {
    hide GoodTree, WellFormed, LayoutDirs, Distinct, Owned, InTmp, Reachable, RecordOf, GoodCommits, GoodSidecars,
         Admissible;
    ReachableInv(cfg, s);
    assert GoodProc(cfg, s.fs, s.issued, s.commits, s.procs[pid]);
  }

  /** With no orphan on record and no put in flight, the staging area is empty. */
  lemma StagingIsConserved(cfg: Config, s: Sys)
    requires Reachable(cfg, s) && s.orphans == {} && forall q :: q in s.procs ==> !s.procs[q].Putting?
    ensures forall p :: p in s.fs.files ==> !InTmp(p)
  {
    hide GoodTree, WellFormed, LayoutDirs, Distinct, InTmp, Reachable, GoodProc, GoodCommits, GoodSidecars;
    ReachableInv(cfg, s);
  }

  /** Orphans come only from a failed unlink of a staging file, a crash, or a power loss. */
  lemma WhereOrphansComeFrom(cfg: Config, s: Sys, step: Step)
    requires Enabled(cfg, s, step) && Next(cfg, s, step).orphans != s.orphans
    ensures || step.Crash? || step.PowerLoss?
            || (step.Fault? && s.procs[step.pid].Putting? && s.procs[step.pid].stage.Clean?)
  {
    hide ObjPath, MetaPath, StagePath, TmpPath, Admissible, MayWrite, LookStep, MayMkdir, MayRename, MayCreate,
         MaySurvive, RecordOf, ValidId;
  }

  /** Files and directories are disjoint, and every one of them hangs below a directory. */
  lemma TreeShape(cfg: Config, s: Sys)
    requires Reachable(cfg, s)
    ensures forall p :: p in s.fs.files ==> p != [] && p !in s.fs.dirs && Parent(p) in s.fs.dirs
    ensures forall d :: d in s.fs.dirs && d != [] ==> Parent(d) in s.fs.dirs
  {
    hide GoodTree, LayoutDirs, Distinct, Reachable, GoodProc, GoodCommits, GoodSidecars, Owned;
    ReachableInv(cfg, s);
  }

  /** No stored object lies above another in the tree: `a.png` and `a.png/b.png` exclude each other. */
  lemma NoObjectAboveAnother(cfg: Config, s: Sys, a: Id, b: Id)
    requires Reachable(cfg, s) && ObjPath(a) in s.fs.files && ObjPath(b) in s.fs.files
    ensures !(ObjPath(a) < ObjPath(b))
  {
    hide GoodTree, LayoutDirs, Distinct, InTmp, Reachable, GoodProc, GoodCommits, GoodSidecars, Owned, ObjPath;
    ReachableInv(cfg, s);
    NoFileAboveAnother(s.fs, ObjPath(a), ObjPath(b));
  }

  /** No driver action removes a directory, so a path that became one stays closed to objects until a power loss. */
  lemma DirectoriesOnlyGrow(cfg: Config, s: Sys, step: Step)
    requires Enabled(cfg, s, step) && !step.PowerLoss?
    ensures s.fs.dirs <= Next(cfg, s, step).fs.dirs
  {
    hide ObjPath, MetaPath, StagePath, TmpPath, Admissible, MayWrite, MaySurvive, RecordOf, ValidId, ActOf;
  }

  // ---- What an action leaves alone -----------------------------------------

  predicate SameAt(fs: Fs, fs': Fs, q: Path)
  {
    (q in fs.files <==> q in fs'.files) && (q in fs.files ==> fs'.files[q] == fs.files[q])
  }

  /** The paths at which an operation creates, changes or removes files. */
  ghost function Own(p: Proc): set<Path>
  {
    match p
    case Putting(_, _, _, _, _) => Touched(p)
    case Deleting(id, _, _) => {ObjPath(id), MetaPath(id)}
    case Sweeping(_, _, victim) => if victim.Some? then {TmpPath(victim.value)} else {}
    case _ => {}
  }

  lemma ActFrame(cfg: Config, s: Sys, step: Step, q: Path)
    requires Acts(step) && Enabled(cfg, s, step) && q !in Own(s.procs[step.pid])
    ensures SameAt(s.fs, Apply(s.fs, ActOf(cfg, s, step).change), q)
  {
    hide ObjPath, MetaPath, StagePath, TmpPath, LookStep, RecordOf, MayMkdir, MayRename, MayCreate;
  }

  /** The object and the sidecar of a key are no other operation's. */
  lemma PairApart(cfg: Config, p: Proc, id: Id)
    requires ValidId(id, cfg.settings.buckets) && !Writes(p, id)
    requires p.Putting? || p.Deleting? ==> ValidId(WriterId(p), cfg.settings.buckets)
    ensures ObjPath(id) !in Own(p) && MetaPath(id) !in Own(p)
  {
    hide ObjPath, MetaPath, StagePath, TmpPath, ValidId, InBucket, InTmp, IsSidecar;
    Places(cfg, id, "", "");
    match p
    case Putting(job, tmp, hex, _, _) =>
      Places(cfg, job.id, tmp, hex);
      PathsOfIds(job.id, id);
    case Deleting(other, _, _) =>
      Places(cfg, other, "", "");
      PathsOfIds(other, id);
    case Sweeping(_, _, victim) =>
      if victim.Some? {
        Places(cfg, id, victim.value, "");
      }
    case _ =>
  }

  lemma OthersLeavePair(cfg: Config, s: Sys, step: Step, id: Id)
    requires Inv(cfg, s) && Acts(step) && Enabled(cfg, s, step)
    requires ValidId(id, cfg.settings.buckets) && !Writes(s.procs[step.pid], id)
    ensures var fs' := Apply(s.fs, ActOf(cfg, s, step).change);
            SameAt(s.fs, fs', ObjPath(id)) && SameAt(s.fs, fs', MetaPath(id))
  {
    hide ObjPath, MetaPath, StagePath, TmpPath, ValidId, Own, ActOf, GoodTree, GoodSidecars, GoodCommits, WellFormed,
         LayoutDirs, Owned, Distinct, GoodStaging, InTmp, IsSidecar, S2sCap, UserCap, ServiceOnly, RecordOf;
    var p := s.procs[step.pid];
    assert GoodProc(cfg, s.fs, s.issued, s.commits, p);
    PairApart(cfg, p, id);
    ActFrame(cfg, s, step, ObjPath(id));
    ActFrame(cfg, s, step, MetaPath(id));
  }

  // ---- Who changes an object -----------------------------------------------

  /** The principal on whose behalf an operation writes. */
  function Actor(p: Proc): Option<Principal>
  {
    match p
    case Putting(job, _, _, _, _) => Some(job.who)
    case Deleting(_, who, _) => Some(who)
    case _ => None
  }

  /**
   * An action changes the object at `id` only if it is the rename of a put to `id` or the unlink of a delete of `id`.
   */
  lemma ActsOnOwnObject(cfg: Config, s: Sys, step: Step, id: Id)
    requires Inv(cfg, s) && Acts(step) && Enabled(cfg, s, step) && ValidId(id, cfg.settings.buckets)
    requires !SameAt(s.fs, Apply(s.fs, ActOf(cfg, s, step).change), ObjPath(id))
    ensures var p := s.procs[step.pid];
            step.Go? && Writes(p, id) && Actor(p).Some? && MayWrite(cfg.settings, Actor(p).value, id)
    ensures var p := s.procs[step.pid];
            || (p.Putting? && p.stage.Install? && ActOf(cfg, s, step).mark == Commits(Commit(p.job, p.got)))
            || (p.Deleting? && p.gone.None?)
  {
    hide ObjPath, MetaPath, StagePath, TmpPath, InBucket, InTmp, IsSidecar, ValidId, S2sCap, UserCap, ServiceOnly,
         RecordOf, LookStep, GoodTree, GoodSidecars, GoodCommits, WellFormed, LayoutDirs, Owned, Distinct, GoodStaging;
    var p := s.procs[step.pid];
    assert GoodProc(cfg, s.fs, s.issued, s.commits, p);
    if !Writes(p, id) {
      OthersLeavePair(cfg, s, step, id);
    }
    if p.Putting? {
      Places(cfg, id, p.tmp, p.hex);
    } else {
      Places(cfg, id, "", "");
    }
  }

  /**
   * Between power losses an object is created, replaced or deleted only by an operation on its own key whose
   * principal may write it: service-only prefixes and `@` keys change only at the hands of a service.
   */
  lemma OnlyPermittedWritersChangeObjects(cfg: Config, s: Sys, step: Step, id: Id)
    requires Reachable(cfg, s) && Enabled(cfg, s, step) && !step.PowerLoss? && ValidId(id, cfg.settings.buckets)
    requires !SameAt(s.fs, Next(cfg, s, step).fs, ObjPath(id))
    ensures step.Go? && Actor(s.procs[step.pid]).Some?
    ensures MayWrite(cfg.settings, Actor(s.procs[step.pid]).value, id)
    ensures ServiceOnly(cfg.settings, id.key) || '@' in id.key ==> Actor(s.procs[step.pid]).value.Service?
  {
    hide Inv, ActOf, Apply, ObjPath, MetaPath, ValidId, ServiceOnly, Reachable, MaySurvive, Admissible;
    ReachableInv(cfg, s);
    assert Acts(step);
    ActsOnOwnObject(cfg, s, step, id);
  }

  // ---- Sweeps --------------------------------------------------------------

  lemma LostStagingInAct(cfg: Config, s: Sys, step: Step, pid: nat)
    requires Inv(cfg, s) && Acts(step) && Enabled(cfg, s, step)
    requires pid in s.procs && HoldsTmp(s.procs[pid]) && TmpPath(s.procs[pid].tmp) !in s.fs.files
    ensures TmpPath(s.procs[pid].tmp) !in Apply(s.fs, ActOf(cfg, s, step).change).files
  {
    hide ObjPath, MetaPath, StagePath, TmpPath, InBucket, InTmp, IsSidecar, ValidId, S2sCap, UserCap, ServiceOnly,
         RecordOf, LookStep, GoodTree, GoodSidecars, GoodCommits, WellFormed, LayoutDirs, Owned, GoodStaging;
    var p, q := s.procs[step.pid], s.procs[pid];
    assert GoodProc(cfg, s.fs, s.issued, s.commits, p) && GoodProc(cfg, s.fs, s.issued, s.commits, q);
    Places(cfg, q.job.id, q.tmp, q.hex);
    if p.Putting? {
      Places(cfg, p.job.id, p.tmp, p.hex);
      assert p.tmp == q.tmp ==> step.pid == pid;
      assert TmpPath(p.tmp)[1] == p.tmp && TmpPath(q.tmp)[1] == q.tmp;
    }
  }

  /** Any put that still owns this staging name holds a staging stage, and its file is gone. */
  ghost predicate Doomed(s: Sys, name: string)
  {
    && name in s.issued
    && forall q :: q in s.procs && s.procs[q].Putting? && s.procs[q].tmp == name ==>
         HoldsTmp(s.procs[q]) && TmpPath(name) !in s.fs.files
  }

  /** What an action of a put without its staging file comes to: it goes on or fails, and changes no file. */
  ghost predicate Futile(fs: Fs, p: Proc, act: Act)
    requires p.Putting?
  {
    && !act.mark.Commits?
    && (act.after.Stay? ==> act.after.proc.Putting? && act.after.proc.tmp == p.tmp && HoldsTmp(act.after.proc))
    && (act.after.Done? ==> act.after.answer.Failed?)
    && Apply(fs, act.change).files == fs.files
  }

  lemma GoIsFutile(cfg: Config, fs: Fs, now: int, p: Proc)
    requires HoldsTmp(p) && TmpPath(p.tmp) !in fs.files
    ensures Futile(fs, p, PutGo(cfg, fs, now, p))
  {
    hide ObjPath, MetaPath, StagePath, TmpPath, MayMkdir, MayCreate;
  }

  lemma DoomedActIsFutile(cfg: Config, s: Sys, step: Step)
    requires Acts(step) && Enabled(cfg, s, step)
    requires HoldsTmp(s.procs[step.pid]) && TmpPath(s.procs[step.pid].tmp) !in s.fs.files
    ensures Futile(s.fs, s.procs[step.pid], ActOf(cfg, s, step))
  {
    hide ObjPath, MetaPath, StagePath, TmpPath, PutGo, Futile;
    var p := s.procs[step.pid];
    if step.Go? {
      GoIsFutile(cfg, s.fs, s.now, p);
    } else {
      OtherActIsFutile(cfg, s, step);
    }
  }

  lemma OtherActIsFutile(cfg: Config, s: Sys, step: Step)
    requires Acts(step) && Enabled(cfg, s, step) && !step.Go?
    requires HoldsTmp(s.procs[step.pid]) && TmpPath(s.procs[step.pid].tmp) !in s.fs.files
    ensures Futile(s.fs, s.procs[step.pid], ActOf(cfg, s, step))
  {
    hide ObjPath, MetaPath, StagePath, TmpPath, PutGo;
  }

  lemma StepKeepsDoomed(cfg: Config, s: Sys, step: Step, name: string)
    requires Inv(cfg, s) && Doomed(s, name) && Enabled(cfg, s, step)
    ensures Doomed(Next(cfg, s, step), name)
  {
    hide Inv, ObjPath, MetaPath, StagePath, TmpPath, ActOf, Apply, StagedNames, MaySurvive, Admissible, MayWrite,
         ValidId;
    var t := Next(cfg, s, step);
    forall q | q in t.procs && t.procs[q].Putting? && t.procs[q].tmp == name
      ensures HoldsTmp(t.procs[q]) && TmpPath(name) !in t.fs.files
    {
      if Acts(step) {
        SamePutStays(cfg, s, step, q);
        LostStagingInAct(cfg, s, step, q);
        if q == step.pid {
          DoomedActIsFutile(cfg, s, step);
        }
      }
    }
  }

  /** A put found after an action was that put before. */
  lemma SamePutStays(cfg: Config, s: Sys, step: Step, q: nat)
    requires Acts(step) && Enabled(cfg, s, step)
    requires q in Next(cfg, s, step).procs && Next(cfg, s, step).procs[q].Putting?
    ensures q in s.procs && s.procs[q].Putting? && s.procs[q].tmp == Next(cfg, s, step).procs[q].tmp
    ensures q != step.pid ==> s.procs[q] == Next(cfg, s, step).procs[q]
  {
    hide ObjPath, MetaPath, StagePath, TmpPath, LookStep, RecordOf, MayMkdir, MayRename, MayCreate, Apply, Stale;
  }

  lemma {:induction false} RunsKeepDoomed(cfg: Config, s: Sys, steps: seq<Step>, t: Sys, name: string)
    requires Inv(cfg, s) && Doomed(s, name) && Runs(cfg, s, steps, t)
    ensures Inv(cfg, t) && Doomed(t, name)
    decreases |steps|
  {
    hide Inv, Doomed, Enabled, Next, Runs;
    RunsUnfold(cfg, s, steps, t);
    if steps != [] {
      NextKeepsInv(cfg, s, steps[0]);
      StepKeepsDoomed(cfg, s, steps[0], name);
      RunsKeepDoomed(cfg, Next(cfg, s, steps[0]), steps[1..], t, name);
    }
  }

  lemma LostIsDoomed(cfg: Config, s: Sys, pid: nat)
    requires Inv(cfg, s) && pid in s.procs && HoldsTmp(s.procs[pid]) && TmpPath(s.procs[pid].tmp) !in s.fs.files
    ensures Doomed(s, s.procs[pid].tmp)
  {
    hide TmpPath, GoodTree, GoodSidecars, GoodCommits, WellFormed, LayoutDirs, Owned, Admissible, GoodStaging;
    assert GoodProc(cfg, s.fs, s.issued, s.commits, s.procs[pid]);
  }

  /**
   * A put whose staging file was taken, at whatever stage, can only fail: in every later state of any run each of its
   * actions leaves every file and the commits as they are, and any answer it gives is a failure.
   */
  lemma PutThatLostItsStagingOnlyFails(cfg: Config, s: Sys, pid: nat, steps: seq<Step>, t: Sys, step: Step)
    requires Reachable(cfg, s) && pid in s.procs && HoldsTmp(s.procs[pid]) && TmpPath(s.procs[pid].tmp) !in s.fs.files
    requires Runs(cfg, s, steps, t) && Enabled(cfg, t, step) && Acts(step)
    requires t.procs[step.pid].Putting? && t.procs[step.pid].tmp == s.procs[pid].tmp
    ensures var u := Next(cfg, t, step);
            && u.commits == t.commits && u.fs.files == t.fs.files
            && (u.log == t.log || exists call, why :: u.log == t.log + [Event(call, Failed(why))])
  {
    hide Inv, Runs, Reachable, TmpPath, ActOf, Apply, Admissible, MayWrite, MaySurvive, ValidId;
    ReachableInv(cfg, s);
    LostIsDoomed(cfg, s, pid);
    RunsKeepDoomed(cfg, s, steps, t, s.procs[pid].tmp);
    DoomedActIsFutile(cfg, t, step);
    var act := ActOf(cfg, t, step);
    if act.after.Done? {
      assert Next(cfg, t, step).log == t.log + [Event(act.after.call, Failed(act.after.answer.why))];
    }
  }

  // ---- What a sweep removes ------------------------------------------------

  /** In some tree from number `first` on the file `name` was last written before `cutoff`. */
  ghost predicate SeenStale(history: seq<Fs>, first: nat, name: string, cutoff: int)
  {
    exists i :: first <= i < |history| && Stale(history[i], name, cutoff)
  }

  /** If `pid` is a sweep about to remove a file, it saw that file stale in a tree from number `first` on. */
  ghost predicate SawVictim(s: Sys, pid: nat, first: nat)
  {
    pid in s.procs && s.procs[pid].Sweeping? ==>
      && s.procs[pid].cutoff + STALE_AFTER <= s.now
      && (s.procs[pid].victim.Some? ==>
            SeenStale(s.past + [s.fs], first, s.procs[pid].victim.value, s.procs[pid].cutoff))
  }

  lemma SeenStaleStays(history: seq<Fs>, fs: Fs, first: nat, name: string, cutoff: int)
    requires SeenStale(history, first, name, cutoff)
    ensures SeenStale(history + [fs], first, name, cutoff)
  {
    hide Stale;
    var i :| first <= i < |history| && Stale(history[i], name, cutoff);
    assert (history + [fs])[i] == history[i];
  }

  lemma NextKeepsVictim(cfg: Config, s: Sys, step: Step, pid: nat, first: nat)
    requires SawVictim(s, pid, first) && first <= |s.past| && Enabled(cfg, s, step)
    ensures SawVictim(Next(cfg, s, step), pid, first) && |Next(cfg, s, step).past| == |s.past| + 1
  {
    hide ObjPath, MetaPath, StagePath, TmpPath, Admissible, MayWrite, MaySurvive, RecordOf, ValidId, PutGo, PutFault,
         PutFeed, DeleteGo, DeleteFault, HeadGo, GetGo, SeenStale, Stale, StagedNames, Apply;
    var t := Next(cfg, s, step);
    assert t.past == s.past + [s.fs];
    if pid in t.procs && t.procs[pid].Sweeping? && t.procs[pid].victim.Some? {
      if !(pid in s.procs && s.procs[pid] == t.procs[pid]) {
        JustSeenStale(cfg, s, step, pid, first);
      }
      SeenStaleStays(s.past + [s.fs], t.fs, first, t.procs[pid].victim.value, t.procs[pid].cutoff);
    }
    PutsDoNotSweep(cfg, s, step);
  }

  /** An operation never turns into a sweep, and a sweep keeps its cutoff. */
  lemma PutsDoNotSweep(cfg: Config, s: Sys, step: Step)
    requires Enabled(cfg, s, step)
    ensures var t := Next(cfg, s, step);
            forall q :: q in t.procs && t.procs[q].Sweeping? && !(step.StartSweep? && q == step.pid) ==>
              q in s.procs && s.procs[q].Sweeping? && s.procs[q].cutoff == t.procs[q].cutoff
  {
    hide ObjPath, MetaPath, StagePath, TmpPath, Admissible, MayWrite, MaySurvive, RecordOf, ValidId, LookStep, Stale,
         StagedNames, Apply;
  }

  lemma JustSeenStale(cfg: Config, s: Sys, step: Step, q: nat, first: nat)
    requires Enabled(cfg, s, step) && first <= |s.past|
    requires var t := Next(cfg, s, step);
             && q in t.procs && t.procs[q].Sweeping? && t.procs[q].victim.Some?
             && !(q in s.procs && s.procs[q] == t.procs[q])
    ensures var t := Next(cfg, s, step);
            SeenStale(s.past + [s.fs], first, t.procs[q].victim.value, t.procs[q].cutoff)
  {
    hide ObjPath, MetaPath, StagePath, TmpPath, Admissible, MayWrite, MaySurvive, RecordOf, ValidId, LookStep, Stale,
         StagedNames, Apply;
    PutsDoNotSweep(cfg, s, step);
    assert (s.past + [s.fs])[|s.past|] == s.fs;
  }

  lemma {:induction false} RunsKeepVictim(cfg: Config, s: Sys, steps: seq<Step>, t: Sys, pid: nat, first: nat)
    requires SawVictim(s, pid, first) && first <= |s.past| && Runs(cfg, s, steps, t)
    ensures SawVictim(t, pid, first)
    decreases |steps|
  {
    hide SawVictim, Enabled, Next, Runs;
    RunsUnfold(cfg, s, steps, t);
    if steps != [] {
      NextKeepsVictim(cfg, s, steps[0], pid, first);
      RunsKeepVictim(cfg, Next(cfg, s, steps[0]), steps[1..], t, pid, first);
    }
  }

  /**
   * What a sweep is about to remove was, in some tree after the sweep began, a file last written more than 3600 seconds
   * before.
   */
  lemma SweepRemovesOnlyStale(cfg: Config, s: Sys, pid: nat, steps: seq<Step>, t: Sys)
    requires Enabled(cfg, s, StartSweep(pid)) && Runs(cfg, Next(cfg, s, StartSweep(pid)), steps, t)
    requires pid in t.procs && t.procs[pid].Sweeping? && t.procs[pid].victim.Some?
    ensures t.procs[pid].cutoff <= t.now - 3600
    ensures var tested := TmpPath(t.procs[pid].victim.value); var trees := t.past + [t.fs];
            exists i :: |s.past| < i < |trees| && tested in trees[i].files
                        && trees[i].files[tested].mtime < t.procs[pid].cutoff
    ensures Next(cfg, t, Go(pid)).fs == Unlink(t.fs, TmpPath(t.procs[pid].victim.value))
  {
    hide Runs, TmpPath, StagedNames;
    RunsKeepVictim(cfg, Next(cfg, s, StartSweep(pid)), steps, t, pid, |s.past| + 1);
  }
}
