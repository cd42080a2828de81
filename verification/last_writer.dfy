/**
 * Which put an object comes from: the last one that renamed to its key (src/drivers/local_fs.py, the write handlers).
 */
module LastWriter {
  import opened Strings
  import opened Options
  import opened Layout
  import opened FileSystem
  import opened Policy
  import opened Machine
  import opened Safety
  import opened Agreement

  /** `data` is the payload of the last commit to `id`. */
  ghost predicate LastCommitted(commits: seq<Commit>, id: Id, data: seq<Byte>)
  {
    exists i :: 0 <= i < |commits| && IsLast(commits, id, i) && commits[i].payload == data
  }

  ghost predicate IsLast(commits: seq<Commit>, id: Id, i: nat)
    requires i < |commits|
  {
    commits[i].job.id == id && forall j :: i < j < |commits| ==> commits[j].job.id != id
  }

  ghost predicate LastWins(cfg: Config, s: Sys)
  {
    !s.powerLost ==>
      forall id :: ValidId(id, cfg.settings.buckets) && ObjPath(id) in s.fs.files ==> HoldsLast(s.fs, s.commits, id)
  }

  ghost predicate HoldsLast(fs: Fs, commits: seq<Commit>, id: Id)
    requires ObjPath(id) in fs.files
  {
    var f := fs.files[ObjPath(id)];
    f.content.Bytes? && LastCommitted(commits, id, f.content.data)
  }

  lemma LastAfterAnother(commits: seq<Commit>, c: Commit, id: Id, data: seq<Byte>)
    requires LastCommitted(commits, id, data) && c.job.id != id
    ensures LastCommitted(commits + [c], id, data)
  {
    var i :| 0 <= i < |commits| && IsLast(commits, id, i) && commits[i].payload == data;
    assert IsLast(commits + [c], id, i);
  }

  lemma LastIsNew(commits: seq<Commit>, c: Commit)
    ensures LastCommitted(commits + [c], c.job.id, c.payload)
  {
    assert IsLast(commits + [c], c.job.id, |commits|);
  }

  /** A commit is the rename of a completely staged payload to its own path. */
  lemma CommitInstallsPayload(cfg: Config, s: Sys, step: Step)
    requires Inv(cfg, s) && Acts(step) && Enabled(cfg, s, step) && ActOf(cfg, s, step).mark.Commits?
    ensures var c := ActOf(cfg, s, step).mark.commit; var fs' := Apply(s.fs, ActOf(cfg, s, step).change);
            && ObjPath(c.job.id) in fs'.files && fs'.files[ObjPath(c.job.id)].content == Bytes(c.payload)
            && s.procs[step.pid].Putting? && c == Commit(s.procs[step.pid].job, s.procs[step.pid].got)
  {
    hide ObjPath, MetaPath, StagePath, TmpPath, ValidId, S2sCap, UserCap, ServiceOnly, RecordOf, LookStep, GoodTree,
         GoodSidecars, GoodCommits, WellFormed, LayoutDirs, Owned, Distinct;
    assert GoodProc(cfg, s.fs, s.issued, s.commits, s.procs[step.pid]);
  }

  lemma ActKeepsLast(cfg: Config, s: Sys, step: Step, id: Id)
    requires Inv(cfg, s) && Acts(step) && Enabled(cfg, s, step) && ValidId(id, cfg.settings.buckets)
    requires ObjPath(id) in s.fs.files ==> HoldsLast(s.fs, s.commits, id)
    requires ObjPath(id) in Next(cfg, s, step).fs.files
    ensures HoldsLast(Next(cfg, s, step).fs, Next(cfg, s, step).commits, id)
  {
    hide Inv, ObjPath, ValidId, LastCommitted, ActOf, Apply, Enabled;
    var act := ActOf(cfg, s, step);
    if act.mark.Commits? {
      CommitInstallsPayload(cfg, s, step);
    }
    if act.mark.Commits? && act.mark.commit.job.id == id {
      LastIsNew(s.commits, act.mark.commit);
    } else {
      OtherActsKeepObject(cfg, s, step, id);
      if act.mark.Commits? {
        LastAfterAnother(s.commits, act.mark.commit, id, s.fs.files[ObjPath(id)].content.data);
      }
    }
  }

  /** Any action but a commit to `id` leaves its object as it is, or removes it. */
  lemma OtherActsKeepObject(cfg: Config, s: Sys, step: Step, id: Id)
    requires Inv(cfg, s) && Acts(step) && Enabled(cfg, s, step) && ValidId(id, cfg.settings.buckets)
    requires var mark := ActOf(cfg, s, step).mark; mark.Commits? ==> mark.commit.job.id != id
    requires ObjPath(id) in Apply(s.fs, ActOf(cfg, s, step).change).files
    ensures SameAt(s.fs, Apply(s.fs, ActOf(cfg, s, step).change), ObjPath(id))
  {
    hide Inv, ObjPath, MetaPath, StagePath, TmpPath, ValidId, LookStep, RecordOf, MayMkdir, MayRename, MayCreate, PutGo,
         PutFeed, PutFault;
    if !SameAt(s.fs, Apply(s.fs, ActOf(cfg, s, step).change), ObjPath(id)) {
      ActsOnOwnObject(cfg, s, step, id);
      assert false;
    }
  }

  lemma NextKeepsLast(cfg: Config, s: Sys, step: Step)
    requires Inv(cfg, s) && LastWins(cfg, s) && Enabled(cfg, s, step)
    ensures LastWins(cfg, Next(cfg, s, step))
  {
    hide Inv, ObjPath, ValidId, HoldsLast, ActOf, Apply, Admissible, MayWrite, MaySurvive, StagedNames;
    var t := Next(cfg, s, step);
    if !t.powerLost {
      forall id | ValidId(id, cfg.settings.buckets) && ObjPath(id) in t.fs.files
        ensures HoldsLast(t.fs, t.commits, id)
      {
        if Acts(step) {
          ActKeepsLast(cfg, s, step, id);
        }
      }
    }
  }

  lemma {:induction false} RunsKeepLast(cfg: Config, s: Sys, steps: seq<Step>, t: Sys)
    requires Inv(cfg, s) && LastWins(cfg, s) && Runs(cfg, s, steps, t)
    ensures LastWins(cfg, t)
    decreases |steps|
  {
    hide Inv, LastWins, Enabled, Next, Runs;
    RunsUnfold(cfg, s, steps, t);
    if steps != [] {
      NextKeepsInv(cfg, s, steps[0]);
      NextKeepsLast(cfg, s, steps[0]);
      RunsKeepLast(cfg, Next(cfg, s, steps[0]), steps[1..], t);
    }
  }

  /**
   * In every run without power loss each stored object is the payload of the last put that renamed to its key; that
   * put was permitted to write the key, and the payload is within that put's cap.
   */
  lemma StoredObjectIsTheLastPut(cfg: Config, s: Sys, id: Id) returns (i: nat)
    requires Reachable(cfg, s) && !s.powerLost && ValidId(id, cfg.settings.buckets) && ObjPath(id) in s.fs.files
    ensures i < |s.commits| && s.commits[i].job.id == id
    ensures s.fs.files[ObjPath(id)].content == Bytes(s.commits[i].payload)
    ensures forall j :: i < j < |s.commits| ==> s.commits[j].job.id != id
    ensures MayWrite(cfg.settings, s.commits[i].job.who, id)
    ensures |s.commits[i].payload| <= s.commits[i].job.cap
    ensures s.commits[i].job.who.Service? ==> s.commits[i].job.cap == S2sCap(cfg.settings, id.key)
    ensures s.commits[i].job.who.User? ==>
              UserCap(cfg.settings, Some(s.commits[i].job.contentType)) == Ok(s.commits[i].job.cap)
  {
    hide ObjPath, ValidId, Runs, GoodSidecars, WellFormed, LayoutDirs, GoodProc, Distinct, Owned, GoodTree, S2sCap,
         UserCap, ServiceOnly;
    var init: Sys, steps: seq<Step> :| Initial(cfg, init) && Runs(cfg, init, steps, s);
    InitialLast(cfg, init);
    RunsKeepLast(cfg, init, steps, s);
    ReachableInv(cfg, s);
    var data := s.fs.files[ObjPath(id)].content.data;
    i :| 0 <= i < |s.commits| && IsLast(s.commits, id, i) && s.commits[i].payload == data;
    assert Admissible(cfg.settings, s.commits[i].job);
  }

  lemma InitialLast(cfg: Config, s: Sys)
    requires Initial(cfg, s)
    ensures Inv(cfg, s) && LastWins(cfg, s)
  {
  }

  /**
   * Over every run without power loss a `get` that yields bytes yields the payload of the last put that renamed to its
   * key, whatever happened between its two actions; one that yields nothing without a fault found the key absent.
   */
  lemma GetAnswersTheLastPut(cfg: Config, s: Sys, step: Step, data: Option<seq<Byte>>)
    requires Reachable(cfg, s) && !s.powerLost && Enabled(cfg, s, step) && Acts(step) && s.procs[step.pid].Getting?
    requires Next(cfg, s, step).log == s.log + [Event(GetCall(s.procs[step.pid].id), Data(data))]
    ensures data.Some? ==> LastCommitted(s.commits, s.procs[step.pid].id, data.value)
    ensures data.None? && !step.Fault? ==> ObjPath(s.procs[step.pid].id) !in s.fs.files
  {
    hide Reachable, ObjPath, ValidId, Runs;
    var p := s.procs[step.pid];
    GetterIsValid(cfg, s, step.pid);
    assert Last(Next(cfg, s, step).log) == Event(GetCall(p.id), Data(data));
    if data.Some? {
      var i := StoredObjectIsTheLastPut(cfg, s, p.id);
      assert IsLast(s.commits, p.id, i);
    }
  }

  lemma GetterIsValid(cfg: Config, s: Sys, pid: nat)
    requires Reachable(cfg, s) && pid in s.procs && s.procs[pid].Getting?
    ensures ValidId(s.procs[pid].id, cfg.settings.buckets)
  {
    hide Reachable, ValidId, GoodTree, GoodSidecars, GoodCommits, WellFormed, LayoutDirs, Owned, Distinct;
    ReachableInv(cfg, s);
    assert GoodProc(cfg, s.fs, s.issued, s.commits, s.procs[pid]);
  }

  // ---- When an exclusive put may replace something -------------------------

  /** The put is in flight, and no other writer of its key has overlapped it. */
  ghost predicate PutAlone(s: Sys, pid: nat, job: Job)
  {
    pid in s.procs && s.procs[pid].Putting? && s.procs[pid].job == job && pid in s.solo
  }

  /** Past its existence check and short of its rename, the put has nothing at its path. */
  ghost predicate AbsentSinceCheck(s: Sys, pid: nat)
    requires pid in s.procs && s.procs[pid].Putting?
  {
    var p := s.procs[pid];
    !p.stage.Check? && !p.stage.Found? && !PastEffect(p) ==> ObjPath(p.job.id) !in s.fs.files
  }

  /** The action leaves the put, if it goes on, still with nothing at its path. */
  ghost predicate AbsentAfter(fs: Fs, act: Act, id: Id)
  {
    act.after.Stay? && act.after.proc.Putting? ==>
      var q := act.after.proc;
      !q.stage.Check? && !q.stage.Found? && !PastEffect(q) ==> ObjPath(id) !in Apply(fs, act.change).files
  }

  lemma OwnGoKeepsAbsent(cfg: Config, fs: Fs, now: int, p: Proc)
    requires p.Putting? && ValidId(p.job.id, cfg.settings.buckets)
    requires !p.stage.Check? && !p.stage.Found? && !PastEffect(p) ==> ObjPath(p.job.id) !in fs.files
    ensures AbsentAfter(fs, PutGo(cfg, fs, now, p), p.job.id)
  {
    hide ObjPath, MetaPath, StagePath, TmpPath, RecordOf, ValidId, InBucket, InTmp, IsSidecar, MayMkdir, MayCreate,
         LookStep;
    Places(cfg, p.job.id, p.tmp, p.hex);
  }

  lemma OwnOtherKeepsAbsent(cfg: Config, s: Sys, step: Step)
    requires Acts(step) && Enabled(cfg, s, step) && !step.Go? && s.procs[step.pid].Putting?
    requires AbsentSinceCheck(s, step.pid)
    requires ValidId(s.procs[step.pid].job.id, cfg.settings.buckets) && !(step.Fault? && s.procs[step.pid].stage.Check?)
    ensures AbsentAfter(s.fs, ActOf(cfg, s, step), s.procs[step.pid].job.id)
  {
    hide ObjPath, MetaPath, StagePath, TmpPath, RecordOf, ValidId, InBucket, InTmp, IsSidecar, PutGo, LookStep;
    Places(cfg, s.procs[step.pid].job.id, s.procs[step.pid].tmp, s.procs[step.pid].hex);
  }

  lemma OwnActKeepsAbsent(cfg: Config, s: Sys, step: Step)
    requires Acts(step) && Enabled(cfg, s, step) && s.procs[step.pid].Putting? && AbsentSinceCheck(s, step.pid)
    requires ValidId(s.procs[step.pid].job.id, cfg.settings.buckets) && !(step.Fault? && s.procs[step.pid].stage.Check?)
    ensures AbsentAfter(s.fs, ActOf(cfg, s, step), s.procs[step.pid].job.id)
  {
    hide ObjPath, ValidId, PutGo, AbsentAfter, PutFeed, PutFault;
    if step.Go? {
      OwnGoKeepsAbsent(cfg, s.fs, s.now, s.procs[step.pid]);
    } else {
      OwnOtherKeepsAbsent(cfg, s, step);
    }
  }

  lemma StepKeepsAbsent(cfg: Config, s: Sys, step: Step, pid: nat, job: Job)
    requires Inv(cfg, s) && SoloRule(s) && PutAlone(s, pid, job) && AbsentSinceCheck(s, pid) && Enabled(cfg, s, step)
    requires !(step.Fault? && step.pid == pid && s.procs[pid].stage.Check?)
    requires ValidId(job.id, cfg.settings.buckets) && PutAlone(Next(cfg, s, step), pid, job)
    ensures AbsentSinceCheck(Next(cfg, s, step), pid)
  {
    hide Inv, ObjPath, MetaPath, StagePath, TmpPath, ValidId, ActOf, Apply, StagedNames, MaySurvive, Admissible,
         MayWrite;
    if Acts(step) {
      if step.pid == pid {
        OwnActKeepsAbsent(cfg, s, step);
      } else {
        OthersLeavePair(cfg, s, step, job.id);
      }
    }
  }

  ghost predicate AlwaysAlone(states: seq<Sys>, pid: nat, job: Job)
  {
    forall i :: 0 <= i < |states| ==> PutAlone(states[i], pid, job)
  }

  /** The existence check of the put meets no fault. */
  ghost predicate CheckIsSound(states: seq<Sys>, steps: seq<Step>, pid: nat)
    requires |steps| < |states|
  {
    forall i :: 0 <= i < |steps| ==>
      !(steps[i].Fault? && steps[i].pid == pid && InFlight(states[i], pid) && states[i].procs[pid].stage.Check?)
  }

  lemma AloneAt(states: seq<Sys>, pid: nat, job: Job, n: nat)
    requires AlwaysAlone(states, pid, job) && n < |states|
    ensures PutAlone(states[n], pid, job) && InFlight(states[n], pid)
  {
  }

  lemma SoundAt(states: seq<Sys>, steps: seq<Step>, pid: nat, n: nat)
    requires n < |steps| < |states| && CheckIsSound(states, steps, pid) && InFlight(states[n], pid)
    ensures !(steps[n].Fault? && steps[n].pid == pid && states[n].procs[pid].stage.Check?)
  {
  }

  lemma LagHasRule(cfg: Config, s: Sys)
    requires Lag(cfg, s)
    ensures SoloRule(s)
  {
    hide SoloRule, SoloPayload, Settled;
  }

  ghost predicate InFlight(s: Sys, pid: nat) { pid in s.procs && s.procs[pid].Putting? }

  lemma {:induction false} AbsentOverRun(cfg: Config, states: seq<Sys>, steps: seq<Step>, n: nat, pid: nat, job: Job)
    requires n <= |steps| < |states| && Visits(cfg, states[0], states, steps, states[|steps|])
    requires Inv(cfg, states[0]) && Lag(cfg, states[0]) && ValidId(job.id, cfg.settings.buckets)
    requires AlwaysAlone(states, pid, job) && CheckIsSound(states, steps, pid)
    requires AbsentSinceCheck(states[0], pid)
    ensures Inv(cfg, states[n]) && Lag(cfg, states[n]) && AbsentSinceCheck(states[n], pid)
    decreases n
  {
    hide Inv, Lag, ValidId, Enabled, Next, AbsentSinceCheck, CheckIsSound, AlwaysAlone;
    AloneAt(states, pid, job, n);
    if n > 0 {
      AbsentOverRun(cfg, states, steps, n - 1, pid, job);
      assert Leads(cfg, states, steps, n - 1);
      NextKeepsInv(cfg, states[n - 1], steps[n - 1]);
      NextKeepsLag(cfg, states[n - 1], steps[n - 1]);
      AloneAt(states, pid, job, n - 1);
      SoundAt(states, steps, pid, n - 1);
      LagHasRule(cfg, states[n - 1]);
      StepKeepsAbsent(cfg, states[n - 1], steps[n - 1], pid, job);
    }
  }

  /**
   * Over every run, an exclusive put that reaches its rename finds its key absent there, unless its existence check
   * met a fault or another writer of the key overlapped it: only these two can make it replace an object.
   */
  lemma ExclusivePutFindsKeyAbsent(cfg: Config, s: Sys, pid: nat, job: Job, tmp: string, hex: string,
                                   states: seq<Sys>, steps: seq<Step>, t: Sys)
    requires Reachable(cfg, s) && Enabled(cfg, s, StartPut(pid, job, tmp, hex)) && job.exclusive
    requires Visits(cfg, Next(cfg, s, StartPut(pid, job, tmp, hex)), states, steps, t)
    requires AlwaysAlone(states, pid, job) && CheckIsSound(states, steps, pid)
    requires t.procs[pid].stage.Install?
    ensures ObjPath(job.id) !in t.fs.files
  {
    hide Inv, Reachable, ObjPath, ValidId, Lag, AlwaysAlone, CheckIsSound, Enabled, Next;
    AloneAt(states, pid, job, 0);
    AloneAt(states, pid, job, |steps|);
    ReachableInv(cfg, s);
    ReachableLag(cfg, s);
    NextKeepsInv(cfg, s, StartPut(pid, job, tmp, hex));
    NextKeepsLag(cfg, s, StartPut(pid, job, tmp, hex));
    StartedAtCheck(cfg, s, pid, job, tmp, hex);
    AbsentOverRun(cfg, states, steps, |steps|, pid, job);
  }

  lemma StartedAtCheck(cfg: Config, s: Sys, pid: nat, job: Job, tmp: string, hex: string)
    requires Enabled(cfg, s, StartPut(pid, job, tmp, hex)) && job.exclusive
    ensures var t := Next(cfg, s, StartPut(pid, job, tmp, hex));
            pid in t.procs && t.procs[pid] == Putting(job, tmp, hex, [], Check)
    ensures ValidId(job.id, cfg.settings.buckets)
  {
    hide ValidId, S2sCap, UserCap, ServiceOnly;
  }
}
