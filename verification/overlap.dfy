/**
 * Why first-write-wins is claimed only for requests that do not overlap: the existence check and the rename of an
 * exclusive put are separate actions (src/drivers/local_fs.py:62 and 85), and here is a run in which two of them
 * commit.
 */
module Overlap {
  import opened Strings
  import opened Options
  import opened Layout
  import opened FileSystem
  import opened Policy
  import opened Machine
  import opened Safety
  import opened Driver

  /** `t` is `s` after operation `pid` performed `act`; every other operation is where it was. */
  ghost predicate Did(s: Sys, t: Sys, pid: nat, act: Act)
  {
    && t.fs == Apply(s.fs, act.change) && t.now == s.now && t.powerLost == s.powerLost && t.issued == s.issued
    && t.procs == (if act.after.Stay? then s.procs[pid := act.after.proc] else s.procs - {pid})
    && t.commits == (if act.mark.Commits? then s.commits + [act.mark.commit] else s.commits)
    && t.log == (if act.after.Done? then s.log + [Event(act.after.call, act.after.answer)] else s.log)
    && t.solo == (if act.after.Stay? then s.solo else s.solo - {pid})
    && t.tainted == (if act.mark.Taints? then s.tainted + {act.mark.id}
                     else if act.mark.Heals? && pid in s.solo then s.tainted - {act.mark.id}
                     else s.tainted)
  }

  lemma Takes(cfg: Config, start: Sys, steps: seq<Step>, s: Sys, step: Step) returns (more: seq<Step>, t: Sys)
    requires Inv(cfg, s) && Runs(cfg, start, steps, s) && Enabled(cfg, s, step)
    ensures t == Next(cfg, s, step) && Inv(cfg, t) && Runs(cfg, start, more, t)
  {
    hide Inv, Runs, Enabled, Next;
    NextKeepsInv(cfg, s, step);
    RunsSnoc(cfg, start, steps, s, step);
    more, t := steps + [step], Next(cfg, s, step);
  }

  /** Operation `pid` takes its next action. */
  lemma Goes(cfg: Config, start: Sys, steps: seq<Step>, s: Sys, pid: nat, act: Act) returns (more: seq<Step>, t: Sys)
    requires Inv(cfg, s) && Runs(cfg, start, steps, s) && pid in s.procs && !s.procs[pid].Sweeping?
    requires act == GoAct(cfg, s.fs, s.now, s.procs[pid]) && !act.mark.Orphans?
    ensures Inv(cfg, t) && Runs(cfg, start, more, t) && Did(s, t, pid, act)
  {
    hide Inv, Runs, GoAct, Apply;
    more, t := Takes(cfg, start, steps, s, Go(pid));
  }

  /** The next action of operation `pid` is a fault. */
  lemma Fails(cfg: Config, start: Sys, steps: seq<Step>, s: Sys, pid: nat, act: Act) returns (more: seq<Step>, t: Sys)
    requires Inv(cfg, s) && Runs(cfg, start, steps, s) && pid in s.procs
    requires act == FaultAct(cfg, s.fs, s.procs[pid], false) && !act.mark.Orphans?
    ensures Inv(cfg, t) && Runs(cfg, start, more, t) && Did(s, t, pid, act)
  {
    hide Inv, Runs, FaultAct, Apply;
    more, t := Takes(cfg, start, steps, s, Fault(pid, false));
  }

  lemma FeedsOn(cfg: Config, start: Sys, steps: seq<Step>, s: Sys, pid: nat, chunk: seq<Byte>)
    returns (more: seq<Step>, t: Sys)
    requires Inv(cfg, s) && Runs(cfg, start, steps, s) && pid in s.procs
    requires s.procs[pid].Putting? && s.procs[pid].stage.Stream? && s.procs[pid].got == []
    requires |chunk| <= s.procs[pid].job.cap
    requires TmpPath(s.procs[pid].tmp) in s.fs.files && s.fs.files[TmpPath(s.procs[pid].tmp)].content == Bytes([])
    ensures Inv(cfg, t) && Runs(cfg, start, more, t)
    ensures Did(s, t, pid, PutFeed(s.fs, s.now, s.procs[pid], chunk, |chunk|))
    ensures t.procs == s.procs[pid := s.procs[pid].(got := chunk)] && Same(s, t)
    ensures t.fs.dirs == s.fs.dirs && t.commits == s.commits && TmpPath(s.procs[pid].tmp) in t.fs.files
    ensures chunk != [] ==> t.fs.files[TmpPath(s.procs[pid].tmp)].mtime == s.now
    ensures OnlyAt(s.fs, t.fs, {TmpPath(s.procs[pid].tmp)})
  {
    hide Inv, Runs, TmpPath;
    assert s.procs[pid].got + chunk == chunk;
    more, t := Takes(cfg, start, steps, s, Feed(pid, chunk, |chunk|));
  }

  /** Nothing was answered, and nobody started, ended, or fell out with a sidecar. */
  ghost predicate Same(s: Sys, t: Sys)
  {
    && t.log == s.log && t.now == s.now && t.powerLost == s.powerLost
    && t.solo == s.solo && t.tainted == s.tainted && t.issued == s.issued
  }

  /** Nothing obstructs the object, and the staging file can be opened. */
  ghost predicate Clear(cfg: Config, s: Sys, p: Proc)
    requires p.Putting?
  {
    && cfg.nameMax >= 255 && ValidId(p.job.id, cfg.settings.buckets) && |p.tmp| == UUID_LENGTH
    && TmpPath(p.tmp) !in s.fs.dirs && !Blocked(s.fs, ObjPath(p.job.id))
  }

  /** Opening the staging file, writing one chunk and syncing it. */
  lemma Stages(cfg: Config, start: Sys, steps: seq<Step>, s: Sys, pid: nat, p: Proc, chunk: seq<Byte>)
    returns (more: seq<Step>, t: Sys)
    requires Inv(cfg, s) && Runs(cfg, start, steps, s) && pid in s.procs && s.procs[pid] == p
    requires p.Putting? && p.stage.Open? && p.got == [] && |chunk| <= p.job.cap && Clear(cfg, s, p)
    ensures Inv(cfg, t) && Runs(cfg, start, more, t)
    ensures t.procs == s.procs[pid := p.(got := chunk, stage := Dirs(0))]
    ensures t.commits == s.commits && Same(s, t)
    ensures t.fs.dirs == s.fs.dirs && TmpPath(p.tmp) in t.fs.files && OnlyAt(s.fs, t.fs, {TmpPath(p.tmp)})
  {
    hide Inv, Runs, ObjPath, TmpPath, GoAct, PutFeed, MayCreate, ValidId, OnlyAt, Blocked;
    PutFits(cfg, s, p.job.id, p.tmp);
    OpenAct(cfg, s.fs, s.now, p);
    more, t := Goes(cfg, start, steps, s, pid, GoAct(cfg, s.fs, s.now, p));
    PutIsOnlyAt(s.fs, TmpPath(p.tmp), File(Bytes([]), false, s.now));
    var started := t;
    more, t := FeedsOn(cfg, start, more, started, pid, chunk);
    OnlyAtAgain(s.fs, started.fs, t.fs, TmpPath(p.tmp));
    var fed := t;
    SyncAct(cfg, fed.fs, fed.now, fed.procs[pid]);
    more, t := Goes(cfg, start, more, fed, pid, GoAct(cfg, fed.fs, fed.now, fed.procs[pid]));
    PutIsOnlyAt(fed.fs, TmpPath(p.tmp), File(Bytes(chunk), true, fed.now));
    OnlyAtAgain(s.fs, fed.fs, t.fs, TmpPath(p.tmp));
  }

  lemma PutIsOnlyAt(fs: Fs, p: Path, f: File)
    ensures OnlyAt(fs, FileSystem.Put(fs, p, f), {p})
  {
  }

  /** Making the directories of the object one by one. */
  lemma MakesWay(cfg: Config, start: Sys, steps: seq<Step>, s: Sys, pid: nat, p: Proc) returns (more: seq<Step>, t: Sys)
    requires Inv(cfg, s) && Runs(cfg, start, steps, s) && pid in s.procs && s.procs[pid] == p
    requires p.Putting? && p.stage == Dirs(0) && !FileOnTheWay(s.fs, ObjPath(p.job.id))
    requires forall k :: 0 <= k < |ObjPath(p.job.id)| ==> |ObjPath(p.job.id)[k]| <= cfg.nameMax
    ensures Inv(cfg, t) && Runs(cfg, start, more, t)
    ensures t.procs == s.procs[pid := p.(stage := Install)]
    ensures t.commits == s.commits && Same(s, t)
    ensures t.fs.files == s.fs.files && Parent(ObjPath(p.job.id)) in t.fs.dirs
    ensures forall d :: d in t.fs.dirs && d !in s.fs.dirs ==> d < ObjPath(p.job.id)
  {
    hide Inv, Runs, ObjPath, MetaPath, GoAct, MayMkdir;
    var obj := ObjPath(p.job.id);
    var depth := 0;
    more, t := steps, s;
    RootIsDirectory(cfg, s);
    assert obj[..0] == [];
    while depth < |obj| - 1
      invariant 0 <= depth <= |obj| - 1
      invariant Inv(cfg, t) && Runs(cfg, start, more, t)
      invariant t.procs == s.procs[pid := p.(stage := Dirs(depth))]
      invariant t.commits == s.commits && Same(s, t) && t.fs.files == s.fs.files && obj[..depth] in t.fs.dirs
      invariant forall d :: d in t.fs.dirs && d !in s.fs.dirs ==> d < obj
    {
      var d := obj[..depth + 1];
      FilesAreNoDirectories(cfg, t, d);
      DirsAct(cfg, t.fs, t.now, t.procs[pid], false, depth);
      more, t := Goes(cfg, start, more, t, pid, GoAct(cfg, t.fs, t.now, t.procs[pid]));
      depth := depth + 1;
    }
    DirsDoneAct(cfg, t.fs, t.now, t.procs[pid], false);
    more, t := Goes(cfg, start, more, t, pid, GoAct(cfg, t.fs, t.now, t.procs[pid]));
    assert obj[..depth] == Parent(obj);
  }

  /**
   * A put past its existence check, with nothing in its way, runs to its rename without looking at the object again.
   */
  lemma ReachesRename(cfg: Config, start: Sys, steps: seq<Step>, s: Sys, pid: nat, p: Proc, chunk: seq<Byte>)
    returns (more: seq<Step>, t: Sys)
    requires Inv(cfg, s) && Runs(cfg, start, steps, s) && pid in s.procs && s.procs[pid] == p
    requires p.Putting? && p.stage.Open? && p.got == [] && |chunk| <= p.job.cap && Clear(cfg, s, p)
    ensures Inv(cfg, t) && Runs(cfg, start, more, t)
    ensures t.procs == s.procs[pid := p.(got := chunk, stage := SideDirs(0))]
    ensures t.commits == s.commits + [Commit(p.job, chunk)] && Same(s, t)
    ensures OnlyAt(s.fs, t.fs, {TmpPath(p.tmp), ObjPath(p.job.id)})
    ensures ObjPath(p.job.id) in t.fs.files && t.fs.files[ObjPath(p.job.id)].content == Bytes(chunk)
    ensures forall d :: d in t.fs.dirs && d !in s.fs.dirs ==> d < ObjPath(p.job.id)
  {
    hide Inv, Runs, ObjPath, TmpPath, GoAct, MayRename, MayCreate, ValidId, OnlyAt, FileOnTheWay, InBucket, InTmp,
         IsSidecar;
    var obj := ObjPath(p.job.id);
    PutFits(cfg, s, p.job.id, p.tmp);
    Places(cfg, p.job.id, p.tmp, "");
    more, t := Stages(cfg, start, steps, s, pid, p, chunk);
    StagingDoesNotBlock(s.fs, t.fs, TmpPath(p.tmp), obj);
    var staged := t;
    more, t := MakesWay(cfg, start, more, staged, pid, staged.procs[pid]);
    var ready := t;
    StagedIsPayload(cfg, ready, pid);
    RenameNeedsFreePlace(ready.fs, TmpPath(p.tmp), obj, cfg.nameMax);
    InstallAct(cfg, ready.fs, ready.now, ready.procs[pid]);
    more, t := Goes(cfg, start, more, ready, pid, GoAct(cfg, ready.fs, ready.now, ready.procs[pid]));
    RenameIsOnlyAt(s.fs, ready.fs, TmpPath(p.tmp), obj);
  }

  lemma RenameIsOnlyAt(fs: Fs, ready: Fs, a: Path, b: Path)
    requires a in ready.files && OnlyAt(fs, Fs(ready.files, fs.dirs), {a})
    ensures OnlyAt(fs, Rename(ready, a, b), {a, b})
  {
    forall q | q != a && q != b ensures SameAt(fs, Rename(ready, a, b), q) {
      assert SameAt(fs, Fs(ready.files, fs.dirs), q);
    }
  }

  lemma StagedIsPayload(cfg: Config, s: Sys, pid: nat)
    requires Inv(cfg, s) && pid in s.procs && s.procs[pid].Putting? && s.procs[pid].stage.Install?
    requires TmpPath(s.procs[pid].tmp) in s.fs.files
    ensures s.fs.files[TmpPath(s.procs[pid].tmp)].content == Bytes(s.procs[pid].got)
  {
    hide TmpPath, GoodTree, GoodSidecars, GoodCommits, WellFormed, LayoutDirs, Distinct, Owned, Admissible;
    assert GoodProc(cfg, s.fs, s.issued, s.commits, s.procs[pid]);
  }

  /** Two exclusive puts of one absent key that have both just started. */
  lemma BothPassAndCommit(cfg: Config, start: Sys, before: seq<Step>, s: Sys, a: nat, b: nat, first: seq<Byte>,
                          second: seq<Byte>)
    returns (steps: seq<Step>, t: Sys)
    requires Inv(cfg, s) && Runs(cfg, start, before, s)
    requires a in s.procs && b in s.procs && a != b && s.procs[a].Putting? && s.procs[b].Putting?
    requires s.procs[a].stage == Check && s.procs[b].stage == Check && s.procs[a].job.id == s.procs[b].job.id
    requires s.procs[a].got == [] && s.procs[b].got == [] && |first| <= s.procs[a].job.cap
    requires |second| <= s.procs[b].job.cap
    requires Clear(cfg, s, s.procs[a]) && Clear(cfg, s, s.procs[b]) && ObjPath(s.procs[a].job.id) !in s.fs.files
    ensures Runs(cfg, start, steps, t) && t.log == s.log
    ensures t.commits == s.commits + [Commit(s.procs[a].job, first), Commit(s.procs[b].job, second)]
    ensures ObjPath(s.procs[b].job.id) in t.fs.files && t.fs.files[ObjPath(s.procs[b].job.id)].content == Bytes(second)
  {
    hide Inv, Runs, ObjPath, TmpPath, GoAct, ValidId, FileOnTheWay, InBucket, InTmp, IsSidecar, StagePath, MetaPath;
    var id := s.procs[a].job.id;
    CheckAct(cfg, s.fs, s.now, s.procs[a]);
    steps, t := Goes(cfg, start, before, s, a, GoAct(cfg, s.fs, s.now, s.procs[a]));
    CheckAct(cfg, t.fs, t.now, t.procs[b]);
    steps, t := Goes(cfg, start, steps, t, b, GoAct(cfg, t.fs, t.now, t.procs[b]));
    steps, t := ReachesRename(cfg, start, steps, t, a, t.procs[a], first);
    StillClear(cfg, s, t, s.procs[b]);
    steps, t := ReachesRename(cfg, start, steps, t, b, t.procs[b], second);
  }

  /**
   * From any reachable state in which nothing obstructs an absent key: two exclusive puts to it, started one after the
   * other, can both pass the check and both commit, whatever they carry, with no call answered in between.
   */
  lemma BothExclusivePutsCommit(cfg: Config, s: Sys, a: nat, one: Job, tmp: string, hex: string,
                                b: nat, two: Job, tmp': string, hex': string, first: seq<Byte>, second: seq<Byte>)
    returns (steps: seq<Step>, t: Sys)
    requires Reachable(cfg, s) && one.id == two.id && one.exclusive && two.exclusive
    requires Enabled(cfg, s, StartPut(a, one, tmp, hex))
    requires Enabled(cfg, Next(cfg, s, StartPut(a, one, tmp, hex)), StartPut(b, two, tmp', hex'))
    requires cfg.nameMax >= 255 && TmpPath(tmp) !in s.fs.dirs && TmpPath(tmp') !in s.fs.dirs
    requires ObjPath(one.id) !in s.fs.files && !Blocked(s.fs, ObjPath(one.id))
    requires |first| <= one.cap && |second| <= two.cap
    ensures Runs(cfg, s, steps, t) && t.log == s.log
    ensures t.commits == s.commits + [Commit(one, first), Commit(two, second)]
    ensures ObjPath(two.id) in t.fs.files && t.fs.files[ObjPath(two.id)].content == Bytes(second)
  {
    hide Inv, Runs, Reachable, ObjPath, TmpPath, ValidId, Blocked, Admissible, Next;
    ReachableInv(cfg, s);
    RunsNothing(cfg, s);
    StartPutMeans(cfg, s, a, one, tmp, hex);
    steps, t := Takes(cfg, s, [], s, StartPut(a, one, tmp, hex));
    StartPutMeans(cfg, t, b, two, tmp', hex');
    steps, t := Takes(cfg, s, steps, t, StartPut(b, two, tmp', hex'));
    steps, t := BothPassAndCommit(cfg, s, steps, t, a, b, first, second);
  }

  /** The object itself is in nobody's way. */
  lemma StillClear(cfg: Config, s: Sys, t: Sys, p: Proc)
    requires p.Putting? && Clear(cfg, s, p) && Inv(cfg, t) && ObjPath(p.job.id) in t.fs.files
    requires forall d :: d in t.fs.dirs && d !in s.fs.dirs ==> d < ObjPath(p.job.id)
    ensures Clear(cfg, t, p)
  {
    hide ObjPath, TmpPath, ValidId, GoodTree, GoodSidecars, GoodCommits, LayoutDirs, Distinct, Owned, GoodProc,
         InBucket, InTmp, IsSidecar;
    var obj := ObjPath(p.job.id);
    Places(cfg, p.job.id, p.tmp, "");
    forall n | 0 < n < |obj| ensures obj[..n] !in t.fs.files {
      AboveFile(t.fs, obj, n);
    }
    NoPrefixAcross(TmpPath(p.tmp), obj);
  }

  lemma NoPrefixAcross(tmp: Path, obj: Path)
    requires InTmp(tmp) && InBucket(obj)
    ensures !(tmp < obj)
  {
  }
}
