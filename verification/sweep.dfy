/**
 * Orphaned staging files and the sweeps that remove them (`cleanup_stale_tmp` in src/drivers/paths.py, the start-up and
 * hourly sweeps in src/main.py): which files they take, and how long an orphan can last.
 */
module Sweep {
  import opened Strings
  import opened Options
  import opened Layout
  import opened FileSystem
  import opened Policy
  import opened Machine
  import opened Safety

  /** A staging name that has been given out and belongs to no put in flight. */
  ghost predicate Loose(s: Sys, name: string)
  {
    name in s.issued && forall q :: q in s.procs && s.procs[q].Putting? ==> s.procs[q].tmp != name
  }

  ghost predicate OrphansLoose(s: Sys) { forall name :: name in s.orphans ==> Loose(s, name) }

  lemma LooseStaysLoose(cfg: Config, s: Sys, step: Step, name: string)
    requires Loose(s, name) && Enabled(cfg, s, step)
    ensures Loose(Next(cfg, s, step), name)
  {
    hide ObjPath, MetaPath, StagePath, TmpPath, Admissible, MayWrite, MaySurvive, RecordOf, ValidId, LookStep, Stale,
         StagedNames, Apply, MayMkdir, MayRename, MayCreate;
  }

  lemma NextKeepsOrphansLoose(cfg: Config, s: Sys, step: Step)
    requires Inv(cfg, s) && OrphansLoose(s) && Enabled(cfg, s, step)
    ensures OrphansLoose(Next(cfg, s, step))
  {
    hide Inv, Enabled, Next, Loose;
    forall name | name in Next(cfg, s, step).orphans ensures Loose(Next(cfg, s, step), name) {
      if name in s.orphans {
        LooseStaysLoose(cfg, s, step, name);
      } else {
        NewOrphanIsLoose(cfg, s, step, name);
      }
    }
  }

  lemma NewOrphanIsLoose(cfg: Config, s: Sys, step: Step, name: string)
    requires Inv(cfg, s) && Enabled(cfg, s, step) && name !in s.orphans && name in Next(cfg, s, step).orphans
    ensures Loose(Next(cfg, s, step), name)
  {
    hide ObjPath, MetaPath, StagePath, Admissible, MayWrite, RecordOf, ValidId, LookStep, Stale, Apply, MayMkdir,
         MayRename, MayCreate, GoodSidecars, GoodCommits, WellFormed, LayoutDirs, Owned, GoodStaging, Survives,
         InBucket, Backed;
    WhereOrphansComeFrom(cfg, s, step);
    if step.PowerLoss? {
      SurvivingNamesWereIssued(cfg, s, step.survivors, name);
    } else if step.Crash? {
      var q :| q in s.procs && q in step.pids && HoldsTmp(s.procs[q]) && s.procs[q].tmp == name;
      assert GoodProc(cfg, s.fs, s.issued, s.commits, s.procs[q]);
    } else {
      assert GoodProc(cfg, s.fs, s.issued, s.commits, s.procs[step.pid]);
    }
  }

  lemma SurvivingNamesWereIssued(cfg: Config, s: Sys, fs: Fs, name: string)
    requires Inv(cfg, s) && MaySurvive(cfg, s, fs) && name in StagedNames(fs)
    ensures name in s.issued
  {
    hide GoodSidecars, GoodCommits, WellFormed, LayoutDirs, Owned, GoodProc, Distinct, Survives, InBucket, Backed;
    var p :| p in fs.files && InTmp(p) && |p| == 2 && p[1] == name;
    var i :| 0 <= i <= |s.past| && HeldFile((s.past + [s.fs])[i], p, fs.files[p]);
    assert GoodTree((s.past + [s.fs])[i], s.issued, s.commits);
  }

  lemma {:induction false} RunsKeepOrphansLoose(cfg: Config, s: Sys, steps: seq<Step>, t: Sys)
    requires Inv(cfg, s) && OrphansLoose(s) && Runs(cfg, s, steps, t)
    ensures OrphansLoose(t)
    decreases |steps|
  {
    hide Inv, OrphansLoose, Enabled, Next, Runs;
    RunsUnfold(cfg, s, steps, t);
    if steps != [] {
      NextKeepsInv(cfg, s, steps[0]);
      NextKeepsOrphansLoose(cfg, s, steps[0]);
      RunsKeepOrphansLoose(cfg, Next(cfg, s, steps[0]), steps[1..], t);
    }
  }

  lemma OrphanIsLoose(cfg: Config, s: Sys, name: string)
    requires Reachable(cfg, s) && name in s.orphans
    ensures Loose(s, name) && Inv(cfg, s)
  {
    hide Runs, Inv;
    var init: Sys, steps: seq<Step> :| Initial(cfg, init) && Runs(cfg, init, steps, s);
    ReachableInv(cfg, s);
    InitialIsFine(cfg, init);
    RunsKeepOrphansLoose(cfg, init, steps, s);
  }

  lemma InitialIsFine(cfg: Config, s: Sys)
    requires Initial(cfg, s)
    ensures Inv(cfg, s) && OrphansLoose(s)
  {
  }

  // ---- What happens to a loose file ----------------------------------------

  /** The file is as it was, or gone. */
  ghost predicate KeptOrGone(fs: Fs, fs': Fs, name: string)
  {
    SameAt(fs, fs', TmpPath(name)) || TmpPath(name) !in fs'.files
  }

  lemma LooseFileIsKeptOrGone(cfg: Config, s: Sys, step: Step, name: string)
    requires Inv(cfg, s) && Loose(s, name) && Enabled(cfg, s, step) && !step.PowerLoss?
    ensures KeptOrGone(s.fs, Next(cfg, s, step).fs, name)
  {
    hide Inv, ActOf, Apply, TmpPath, StagedNames, Enabled;
    if Acts(step) {
      LooseInAct(cfg, s, step, name);
    }
  }

  lemma LooseInAct(cfg: Config, s: Sys, step: Step, name: string)
    requires Inv(cfg, s) && Loose(s, name) && Acts(step) && Enabled(cfg, s, step)
    ensures KeptOrGone(s.fs, Apply(s.fs, ActOf(cfg, s, step).change), name)
  {
    hide ObjPath, MetaPath, StagePath, TmpPath, InBucket, InTmp, IsSidecar, ValidId, S2sCap, UserCap, ServiceOnly,
         RecordOf, LookStep, GoodTree, GoodSidecars, GoodCommits, WellFormed, LayoutDirs, Owned, Distinct, GoodStaging,
         ActOf;
    var p := s.procs[step.pid];
    assert GoodProc(cfg, s.fs, s.issued, s.commits, p);
    assert TmpPath(name)[1] == name;
    if TmpPath(name) !in Own(p) {
      ActFrame(cfg, s, step, TmpPath(name));
    } else if p.Putting? {
      Places(cfg, p.job.id, name, p.hex);
      assert false;
    } else if p.Deleting? {
      Places(cfg, p.id, name, "");
      assert false;
    } else {
      SweepActs(cfg, s, step);
    }
  }

  /** A sweep removes its victim or does nothing to the tree. */
  lemma SweepActs(cfg: Config, s: Sys, step: Step)
    requires Acts(step) && Enabled(cfg, s, step) && s.procs[step.pid].Sweeping?
    ensures var p := s.procs[step.pid]; var change := ActOf(cfg, s, step).change;
            change == Keep || (p.victim.Some? && change == Remove(TmpPath(p.victim.value)))
  {
    hide TmpPath, Stale;
  }

  // ---- What happens to a file whose put may still be writing ---------------

  /** The name was given out, and a put that owns it has opened its file. */
  ghost predicate Opened(s: Sys, name: string)
  {
    && name in s.issued
    && forall q :: q in s.procs && s.procs[q].Putting? && s.procs[q].tmp == name ==> PastOpen(s.procs[q])
  }

  predicate PastOpen(p: Proc) { p.Putting? && !p.stage.Check? && !p.stage.Found? && !p.stage.Open? }

  /** Operation `q` is a put that still streams into `name`. */
  ghost predicate Streams(s: Sys, name: string, q: nat)
  {
    q in s.procs && s.procs[q].Putting? && s.procs[q].tmp == name && s.procs[q].stage.Stream?
  }

  /** A step by which the put that streamed into `name` in `s` may write. */
  ghost predicate MayWriteNow(s: Sys, name: string, step: Step)
  {
    (step.Feed? || step.Go?) && Streams(s, name, step.pid)
  }

  /**
   * Since `s` the file has not come back, and is as it was unless its own put, streaming in `s`, has written it
   * since.
   */
  ghost predicate Since(s: Sys, t: Sys, name: string, wrote: bool)
  {
    && Opened(t, name) && s.now <= t.now
    && (forall q :: Streams(t, name, q) ==> Streams(s, name, q))
    && (TmpPath(name) in t.fs.files ==>
          && TmpPath(name) in s.fs.files
          && (|| t.fs.files[TmpPath(name)] == s.fs.files[TmpPath(name)]
              || (wrote && t.fs.files[TmpPath(name)].mtime >= s.now)))
  }

  /** What an action of a put past its open does to its staging file and its stage. */
  ghost predicate WritesOnlyStreaming(fs: Fs, now: int, p: Proc, act: Act, writing: bool)
    requires p.Putting?
  {
    var fs' := Apply(fs, act.change);
    && (act.after.Stay? ==>
          && act.after.proc.Putting? && act.after.proc.tmp == p.tmp && PastOpen(act.after.proc)
          && (act.after.proc.stage.Stream? ==> p.stage.Stream?))
    && (TmpPath(p.tmp) in fs'.files ==>
          && TmpPath(p.tmp) in fs.files
          && (|| SameAt(fs, fs', TmpPath(p.tmp))
              || (p.stage.Stream? && writing && fs'.files[TmpPath(p.tmp)].mtime == now)))
  }

  lemma GoWritesOnlyStreaming(cfg: Config, fs: Fs, now: int, p: Proc)
    requires PastOpen(p) && ValidId(p.job.id, cfg.settings.buckets)
    ensures WritesOnlyStreaming(fs, now, p, PutGo(cfg, fs, now, p), true)
  {
    hide ObjPath, MetaPath, StagePath, TmpPath, RecordOf, ValidId, InBucket, InTmp, IsSidecar, MayMkdir;
    Places(cfg, p.job.id, p.tmp, p.hex);
  }

  lemma OwnActWritesOnlyStreaming(cfg: Config, s: Sys, step: Step)
    requires Acts(step) && Enabled(cfg, s, step) && PastOpen(s.procs[step.pid])
    requires ValidId(s.procs[step.pid].job.id, cfg.settings.buckets)
    ensures WritesOnlyStreaming(s.fs, s.now, s.procs[step.pid], ActOf(cfg, s, step), step.Feed? || step.Go?)
  {
    hide ObjPath, MetaPath, StagePath, TmpPath, RecordOf, ValidId, PutGo, WritesOnlyStreaming;
    if step.Go? {
      GoWritesOnlyStreaming(cfg, s.fs, s.now, s.procs[step.pid]);
    } else {
      OtherActWritesOnlyStreaming(cfg, s, step);
    }
  }

  lemma OtherActWritesOnlyStreaming(cfg: Config, s: Sys, step: Step)
    requires Acts(step) && Enabled(cfg, s, step) && PastOpen(s.procs[step.pid]) && !step.Go?
    ensures WritesOnlyStreaming(s.fs, s.now, s.procs[step.pid], ActOf(cfg, s, step), step.Feed?)
  {
    hide ObjPath, MetaPath, StagePath, TmpPath, PutGo;
  }

  /** Nobody else does anything to the file but remove it. */
  lemma OthersKeepOrRemove(cfg: Config, s: Sys, step: Step, name: string)
    requires Inv(cfg, s) && Acts(step) && Enabled(cfg, s, step)
    requires s.procs[step.pid].Putting? ==> s.procs[step.pid].tmp != name
    ensures KeptOrGone(s.fs, Apply(s.fs, ActOf(cfg, s, step).change), name)
  {
    hide ObjPath, MetaPath, StagePath, TmpPath, InBucket, InTmp, IsSidecar, ValidId, S2sCap, UserCap, ServiceOnly,
         RecordOf, LookStep, GoodTree, GoodSidecars, GoodCommits, WellFormed, LayoutDirs, Owned, Distinct, GoodStaging,
         ActOf;
    var p := s.procs[step.pid];
    assert GoodProc(cfg, s.fs, s.issued, s.commits, p);
    assert TmpPath(name)[1] == name;
    if TmpPath(name) !in Own(p) {
      ActFrame(cfg, s, step, TmpPath(name));
    } else if p.Putting? {
      Places(cfg, p.job.id, name, p.hex);
      assert false;
    } else if p.Deleting? {
      Places(cfg, p.id, name, "");
      assert false;
    } else {
      SweepActs(cfg, s, step);
    }
  }

  lemma StepKeepsSince(cfg: Config, s: Sys, t: Sys, step: Step, name: string, wrote: bool)
    requires Inv(cfg, t) && Since(s, t, name, wrote) && Enabled(cfg, t, step) && !step.PowerLoss?
    ensures Since(s, Next(cfg, t, step), name, wrote || MayWriteNow(s, name, step))
  {
    hide Inv, TmpPath, ActOf, Apply, StagedNames, MaySurvive, Admissible, MayWrite, ValidId, PastOpen;
    if Acts(step) {
      var p := t.procs[step.pid];
      OpenedStays(cfg, t, step, name);
      if p.Putting? && p.tmp == name {
        PutIsValid(cfg, t, step.pid);
        OwnActWritesOnlyStreaming(cfg, t, step);
      } else {
        OthersKeepOrRemove(cfg, t, step, name);
      }
    } else {
      StartKeepsOpened(cfg, t, step, name);
    }
  }

  lemma PutIsValid(cfg: Config, s: Sys, q: nat)
    requires Inv(cfg, s) && q in s.procs && s.procs[q].Putting?
    ensures ValidId(s.procs[q].job.id, cfg.settings.buckets)
  {
    hide ValidId, GoodTree, GoodSidecars, GoodCommits, WellFormed, LayoutDirs, Owned, Distinct, S2sCap, UserCap,
         ServiceOnly;
    assert GoodProc(cfg, s.fs, s.issued, s.commits, s.procs[q]);
  }

  lemma OpenedStays(cfg: Config, s: Sys, step: Step, name: string)
    requires Inv(cfg, s) && Opened(s, name) && Acts(step) && Enabled(cfg, s, step)
    ensures Opened(Next(cfg, s, step), name)
    ensures forall q :: Streams(Next(cfg, s, step), name, q) ==> Streams(s, name, q)
  {
    hide Inv, TmpPath, ActOf, Apply, ValidId, PastOpen;
    var t := Next(cfg, s, step);
    forall q | q in t.procs && t.procs[q].Putting? && t.procs[q].tmp == name
      ensures PastOpen(t.procs[q]) && (t.procs[q].stage.Stream? ==> Streams(s, name, q))
    {
      SamePutStays(cfg, s, step, q);
      if q == step.pid {
        PutIsValid(cfg, s, q);
        OwnActWritesOnlyStreaming(cfg, s, step);
      }
    }
  }

  lemma StartKeepsOpened(cfg: Config, s: Sys, step: Step, name: string)
    requires Opened(s, name) && !Acts(step) && Enabled(cfg, s, step)
    ensures Opened(Next(cfg, s, step), name)
    ensures forall q :: Streams(Next(cfg, s, step), name, q) ==> Streams(s, name, q)
  {
    hide TmpPath, StagedNames, MaySurvive, Admissible, MayWrite, ValidId, PastOpen;
  }

  ghost predicate MayHaveWritten(s: Sys, name: string, steps: seq<Step>)
  {
    exists i :: 0 <= i < |steps| && MayWriteNow(s, name, steps[i])
  }

  lemma {:induction false} RunsKeepSince(cfg: Config, s: Sys, t: Sys, steps: seq<Step>, u: Sys, name: string,
                                         wrote: bool)
    requires Inv(cfg, t) && Since(s, t, name, wrote) && Runs(cfg, t, steps, u) && NoPowerLoss(steps)
    ensures Since(s, u, name, wrote || MayHaveWritten(s, name, steps))
    decreases |steps|
  {
    hide Inv, Enabled, Next, Runs, Opened, Streams, TmpPath;
    RunsUnfold(cfg, t, steps, u);
    if steps != [] {
      var wrote' := wrote || MayWriteNow(s, name, steps[0]);
      NextKeepsInv(cfg, t, steps[0]);
      StepKeepsSince(cfg, s, t, steps[0], name, wrote);
      RunsKeepSince(cfg, s, Next(cfg, t, steps[0]), steps[1..], u, name, wrote');
      if MayHaveWritten(s, name, steps[1..]) {
        var i :| 0 <= i < |steps[1..]| && MayWriteNow(s, name, steps[1..][i]);
        assert MayWriteNow(s, name, steps[i + 1]);
      }
    }
  }

  /** A staging file a put has lost does not come back under its name in any later state before a power loss. */
  lemma LostStagingStaysLost(cfg: Config, s: Sys, pid: nat, steps: seq<Step>, t: Sys)
    requires Reachable(cfg, s) && Runs(cfg, s, steps, t) && NoPowerLoss(steps)
    requires pid in s.procs && HoldsTmp(s.procs[pid]) && TmpPath(s.procs[pid].tmp) !in s.fs.files
    ensures TmpPath(s.procs[pid].tmp) !in t.fs.files
  {
    hide Inv, Runs, Reachable, TmpPath, Opened;
    ReachableInv(cfg, s);
    HolderIsOpened(cfg, s, pid);
    RunsKeepSince(cfg, s, s, steps, t, s.procs[pid].tmp, false);
  }

  lemma HolderIsOpened(cfg: Config, s: Sys, pid: nat)
    requires Inv(cfg, s) && pid in s.procs && HoldsTmp(s.procs[pid])
    ensures Opened(s, s.procs[pid].tmp)
  {
    hide TmpPath, GoodTree, GoodSidecars, GoodCommits, WellFormed, LayoutDirs, Owned, Admissible, GoodStaging;
    assert GoodProc(cfg, s.fs, s.issued, s.commits, s.procs[pid]);
  }

  /** A name whose file exists was given out, and its put has opened it. */
  lemma StagedIsOpened(cfg: Config, s: Sys, name: string)
    requires Inv(cfg, s) && TmpPath(name) in s.fs.files
    ensures Opened(s, name)
  {
    hide TmpPath, GoodSidecars, GoodCommits, WellFormed, LayoutDirs, Owned, Distinct, Admissible, GoodStaging, InBucket,
         Backed;
    assert InTmp(TmpPath(name)) && TmpPath(name)[1] == name;
    forall q | q in s.procs && s.procs[q].Putting? && s.procs[q].tmp == name ensures PastOpen(s.procs[q]) {
      assert GoodProc(cfg, s.fs, s.issued, s.commits, s.procs[q]);
    }
  }

  /**
   * The age test and the removal are two actions. Whatever runs between them, the file that is there to be removed is
   * still older than the cutoff exactly when it is the file that was tested; and it is another one only if the put
   * that was still streaming into it at the test has written since.
   */
  lemma SweptFileIsStaleUnlessWritten(cfg: Config, s: Sys, pid: nat, name: string, steps: seq<Step>, t: Sys)
    requires Reachable(cfg, s) && Enabled(cfg, s, Test(pid, name)) && Stale(s.fs, name, s.procs[pid].cutoff)
    requires Runs(cfg, Next(cfg, s, Test(pid, name)), steps, t) && NoPowerLoss(steps)
    ensures TmpPath(name) in t.fs.files ==>
              && (Stale(t.fs, name, s.procs[pid].cutoff) <==> t.fs.files[TmpPath(name)] == s.fs.files[TmpPath(name)])
              && (!Stale(t.fs, name, s.procs[pid].cutoff) ==> MayHaveWritten(s, name, steps))
  {
    hide Inv, Runs, Reachable, TmpPath, Opened;
    var u := Next(cfg, s, Test(pid, name));
    ReachableInv(cfg, s);
    CutoffIsPast(cfg, s, pid);
    StagedIsOpened(cfg, s, name);
    NextKeepsInv(cfg, s, Test(pid, name));
    TestTouchesNothing(cfg, s, pid, name);
    assert Since(s, u, name, false) by {
      StepKeepsSince(cfg, s, s, Test(pid, name), name, false);
    }
    RunsKeepSince(cfg, s, u, steps, t, name, false);
  }

  lemma CutoffIsPast(cfg: Config, s: Sys, pid: nat)
    requires Reachable(cfg, s) && pid in s.procs && s.procs[pid].Sweeping?
    ensures s.procs[pid].cutoff <= s.now - 3600
  {
    hide Runs;
    var init: Sys, steps: seq<Step> :| Initial(cfg, init) && Runs(cfg, init, steps, s);
    RunsKeepVictim(cfg, init, steps, s, pid, 0);
  }

  lemma TestTouchesNothing(cfg: Config, s: Sys, pid: nat, name: string)
    requires Enabled(cfg, s, Test(pid, name))
    ensures Next(cfg, s, Test(pid, name)).fs == s.fs
  {
    hide Stale;
  }

  // ---- One sweep -----------------------------------------------------------

  /** The sweep `pid` has `name` still before it, unless the file is gone. */
  ghost predicate Due(s: Sys, pid: nat, name: string, cutoff: int)
  {
    TmpPath(name) in s.fs.files ==>
      && s.fs.files[TmpPath(name)].mtime < cutoff
      && pid in s.procs && s.procs[pid].Sweeping? && s.procs[pid].cutoff == cutoff
      && (name in s.procs[pid].todo || s.procs[pid].victim == Some(name))
  }

  /** The sweep meets no fault and its process lives. */
  predicate Undisturbed(steps: seq<Step>, pid: nat)
  {
    forall i :: 0 <= i < |steps| ==>
      !steps[i].PowerLoss? && !(steps[i].Fault? && steps[i].pid == pid) && !(steps[i].Crash? && pid in steps[i].pids)
  }

  lemma StepKeepsDue(cfg: Config, s: Sys, step: Step, pid: nat, name: string, cutoff: int)
    requires Inv(cfg, s) && Loose(s, name) && Due(s, pid, name, cutoff) && Enabled(cfg, s, step)
    requires Undisturbed([step], pid)
    ensures Due(Next(cfg, s, step), pid, name, cutoff)
  {
    hide Inv, Loose, TmpPath, StagedNames, Admissible, MayWrite, MaySurvive, ValidId, PutGo, PutFault, PutFeed,
         DeleteGo, DeleteFault, HeadGo, GetGo, LookStep, Apply;
    assert [step][0] == step;
    LooseFileIsKeptOrGone(cfg, s, step, name);
    var t := Next(cfg, s, step);
    if TmpPath(name) in t.fs.files && Acts(step) && step.pid == pid {
      OwnSweepStep(cfg, s, step, pid, name, cutoff);
    }
  }

  lemma OwnSweepStep(cfg: Config, s: Sys, step: Step, pid: nat, name: string, cutoff: int)
    requires Acts(step) && Enabled(cfg, s, step) && step.pid == pid && !step.Fault?
    requires TmpPath(name) in s.fs.files && Due(s, pid, name, cutoff) && TmpPath(name) in Next(cfg, s, step).fs.files
    ensures var t := Next(cfg, s, step);
            && pid in t.procs && t.procs[pid].Sweeping? && t.procs[pid].cutoff == cutoff
            && (name in t.procs[pid].todo || t.procs[pid].victim == Some(name))
  {
    hide TmpPath;
  }

  lemma {:induction false} SweepFinishes(cfg: Config, s: Sys, pid: nat, steps: seq<Step>, t: Sys, name: string,
                                         cutoff: int)
    requires Inv(cfg, s) && Loose(s, name) && Due(s, pid, name, cutoff)
    requires Runs(cfg, s, steps, t) && Undisturbed(steps, pid)
    ensures Due(t, pid, name, cutoff)
    decreases |steps|
  {
    hide Inv, Loose, Due, Enabled, Next, Runs;
    RunsUnfold(cfg, s, steps, t);
    if steps != [] {
      assert Undisturbed([steps[0]], pid);
      StepKeepsDue(cfg, s, steps[0], pid, name, cutoff);
      NextKeepsInv(cfg, s, steps[0]);
      LooseStaysLoose(cfg, s, steps[0], name);
      SweepFinishes(cfg, Next(cfg, s, steps[0]), pid, steps[1..], t, name, cutoff);
    }
  }

  /** A sweep from its start in `start` to an end at which it is over. */
  datatype SweepRun = SweepRun(start: Sys, pid: nat, steps: seq<Step>, end: Sys)

  ghost predicate Completed(cfg: Config, r: SweepRun)
  {
    && Reachable(cfg, r.start) && Enabled(cfg, r.start, StartSweep(r.pid))
    && Runs(cfg, Next(cfg, r.start, StartSweep(r.pid)), r.steps, r.end)
    && Undisturbed(r.steps, r.pid) && r.pid !in r.end.procs
  }

  /**
   * An undisturbed sweep takes every orphan that was last written more than 3600 seconds before it began, whatever else
   * runs beside it.
   */
  lemma SweepTakesOldOrphans(cfg: Config, r: SweepRun, name: string)
    requires Completed(cfg, r) && name in r.start.orphans
    requires TmpPath(name) in r.start.fs.files ==> r.start.fs.files[TmpPath(name)].mtime < r.start.now - 3600
    ensures TmpPath(name) !in r.end.fs.files
  {
    hide Inv, Loose, Runs, Reachable, TmpPath, Undisturbed;
    OrphanIsLoose(cfg, r.start, name);
    var s := Next(cfg, r.start, StartSweep(r.pid));
    NextKeepsInv(cfg, r.start, StartSweep(r.pid));
    LooseStaysLoose(cfg, r.start, StartSweep(r.pid), name);
    NameIsStaged(r.start.fs, name);
    SweepFinishes(cfg, s, r.pid, r.steps, r.end, name, r.start.now - 3600);
  }

  lemma NameIsStaged(fs: Fs, name: string)
    ensures TmpPath(name) in fs.files ==> name in StagedNames(fs)
  {
  }

  // ---- A schedule of sweeps ------------------------------------------------

  predicate NoPowerLoss(steps: seq<Step>) { forall i :: 0 <= i < |steps| ==> !steps[i].PowerLoss? }

  /** Between two states of a run a loose file either stays as it is or goes for good. */
  lemma {:induction false} LooseOverRun(cfg: Config, s: Sys, steps: seq<Step>, t: Sys, name: string)
    requires Inv(cfg, s) && Loose(s, name) && Runs(cfg, s, steps, t) && NoPowerLoss(steps)
    ensures Loose(t, name) && KeptOrGone(s.fs, t.fs, name)
    decreases |steps|
  {
    hide Inv, Loose, Enabled, Next, TmpPath, Runs;
    RunsUnfold(cfg, s, steps, t);
    if steps != [] {
      LooseFileIsKeptOrGone(cfg, s, steps[0], name);
      NextKeepsInv(cfg, s, steps[0]);
      LooseStaysLoose(cfg, s, steps[0], name);
      LooseOverRun(cfg, Next(cfg, s, steps[0]), steps[1..], t, name);
    }
  }

  ghost predicate Follows(cfg: Config, s: Sys, t: Sys)
  {
    s.orphans <= t.orphans && exists steps: seq<Step> :: Runs(cfg, s, steps, t) && NoPowerLoss(steps)
  }

  /** Sweeps of one run without power loss, each completed, begun at most `gap` seconds apart. */
  ghost predicate Schedule(cfg: Config, sweeps: seq<SweepRun>, gap: nat)
  {
    && (forall i :: 0 <= i < |sweeps| ==> Completed(cfg, sweeps[i]))
    && (forall i :: 0 < i < |sweeps| ==>
          && Follows(cfg, sweeps[0].start, sweeps[i].start)
          && sweeps[i].start.now - sweeps[i - 1].start.now <= gap)
  }

  /** The first sweep that finds the file old enough begins no later than `gap` after it became so. */
  lemma {:induction false} FirstSweepAfter(times: seq<int>, due: int, gap: nat, n: nat)
    requires n < |times| && times[0] <= due + gap && times[n] > due
    requires forall i :: 0 < i < |times| ==> times[i] - times[i - 1] <= gap
    ensures exists i :: 0 <= i <= n && due < times[i] <= due + gap
    decreases n
  {
    if n > 0 && times[n] > due + gap {
      FirstSweepAfter(times, due, gap, n - 1);
    } else {
      assert due < times[n] <= due + gap;
    }
  }

  /**
   * With sweeps at most `gap` seconds apart, an orphan last written at `mtime` is gone once some sweep that began by
   * `mtime + 3600 + gap` is over.
   */
  lemma OrphansAreGoneInTime(cfg: Config, sweeps: seq<SweepRun>, gap: nat, name: string, mtime: int) returns (i: nat)
    requires sweeps != [] && Schedule(cfg, sweeps, gap)
    requires name in sweeps[0].start.orphans
    requires TmpPath(name) in sweeps[0].start.fs.files && sweeps[0].start.fs.files[TmpPath(name)].mtime == mtime
    requires sweeps[0].start.now <= mtime + 3600 + gap && Last(sweeps).start.now > mtime + 3600
    ensures i < |sweeps| && sweeps[i].start.now <= mtime + 3600 + gap
    ensures TmpPath(name) !in sweeps[i].end.fs.files
  {
    hide Inv, Loose, Runs, Reachable, TmpPath, Completed;
    var times := seq(|sweeps|, j requires 0 <= j < |sweeps| => sweeps[j].start.now);
    FirstSweepAfter(times, mtime + 3600, gap, |sweeps| - 1);
    i :| 0 <= i < |sweeps| && mtime + 3600 < times[i] <= mtime + 3600 + gap;
    if i > 0 {
      ReachableStart(cfg, sweeps[0]);
      OrphanIsLoose(cfg, sweeps[0].start, name);
      var steps: seq<Step> :| Runs(cfg, sweeps[0].start, steps, sweeps[i].start) && NoPowerLoss(steps);
      LooseOverRun(cfg, sweeps[0].start, steps, sweeps[i].start, name);
    }
    SweepTakesOldOrphans(cfg, sweeps[i], name);
  }

  lemma ReachableStart(cfg: Config, r: SweepRun)
    requires Completed(cfg, r)
    ensures Reachable(cfg, r.start)
  {
    hide Runs, Reachable;
  }
}
