/**
 * When `head` tells the truth (src/drivers/local_fs.py:139-172). The sidecar is written after the rename and read
 * before the file, so it can lag behind the object. This module shows exactly which events let it.
 */
module Agreement {
  import opened Strings
  import opened Options
  import opened Layout
  import opened FileSystem
  import opened Policy
  import opened Machine
  import opened Safety

  /** A sidecar, if there is one, describes the object that is there. */
  ghost predicate Agree(cfg: Config, fs: Fs, id: Id)
  {
    MetaPath(id) in fs.files ==>
      && ObjPath(id) in fs.files
      && fs.files[MetaPath(id)].content.Json?
      && fs.files[MetaPath(id)].content.record.bytes == |DataOf(fs.files[ObjPath(id)])|
      && fs.files[MetaPath(id)].content.record.etag == cfg.hash(DataOf(fs.files[ObjPath(id)]))
  }

  ghost predicate Unsettled(s: Sys, id: Id)
  {
    exists q :: q in s.procs && Writes(s.procs[q], id) && PastEffect(s.procs[q])
  }

  ghost predicate Writer(p: Proc) { p.Putting? || p.Deleting? }

  /** A solo writer is the only writer on its key, and every other writer's key is tainted. */
  ghost predicate SoloRule(s: Sys)
  {
    && (forall a :: a in s.solo ==> a in s.procs && Writer(s.procs[a]))
    && (forall a, b :: a in s.solo && b in s.procs && a != b ==>
          a in s.procs && Writer(s.procs[a]) && !Writes(s.procs[b], WriterId(s.procs[a])))
    && (forall a :: a in s.procs && Writer(s.procs[a]) && a !in s.solo ==> WriterId(s.procs[a]) in s.tainted)
  }

  /** A solo put that has renamed its object still finds its payload there. */
  ghost predicate SoloPayload(s: Sys)
  {
    forall a :: a in s.solo && a in s.procs && s.procs[a].Putting? && PastEffect(s.procs[a]) ==> Holds(s.fs, s.procs[a])
  }

  ghost predicate Holds(fs: Fs, p: Proc)
    requires p.Putting?
  {
    ObjPath(p.job.id) in fs.files && fs.files[ObjPath(p.job.id)].content == Bytes(p.got)
  }

  ghost predicate Settled(cfg: Config, s: Sys)
  {
    forall id :: ValidId(id, cfg.settings.buckets) && id !in s.tainted && !Unsettled(s, id) ==> Agree(cfg, s.fs, id)
  }

  ghost predicate Lag(cfg: Config, s: Sys)
  {
    SoloRule(s) && (!s.powerLost ==> SoloPayload(s) && Settled(cfg, s))
  }

  // ---- Actions -------------------------------------------------------------

  lemma AgreeFrame(cfg: Config, fs: Fs, fs': Fs, id: Id)
    requires Agree(cfg, fs, id) && SameAt(fs, fs', ObjPath(id)) && SameAt(fs, fs', MetaPath(id))
    ensures Agree(cfg, fs', id)
  {
    hide ObjPath, MetaPath;
  }

  ghost predicate KeyState(cfg: Config, fs: Fs, p: Proc)
    requires p.Putting?
  {
    if PastEffect(p) then Holds(fs, p) else Agree(cfg, fs, p.job.id)
  }

  /** The key of a put after one of its actions: the put goes on, or its sidecar agrees, or the key is tainted. */
  ghost predicate KeyStateAfter(cfg: Config, fs: Fs, p: Proc, act: Act)
    requires p.Putting?
  {
    var fs' := Apply(fs, act.change);
    if act.after.Stay? then act.after.proc.Putting? && KeyState(cfg, fs', act.after.proc)
    else act.mark == Taints(p.job.id) || Agree(cfg, fs', p.job.id)
  }

  lemma OwnKeyAfterGo(cfg: Config, fs: Fs, now: int, issued: set<string>, commits: seq<Commit>, p: Proc)
    requires p.Putting? && GoodPut(cfg, fs, issued, commits, p) && KeyState(cfg, fs, p)
    ensures KeyStateAfter(cfg, fs, p, PutGo(cfg, fs, now, p))
  {
    hide ObjPath, MetaPath, StagePath, TmpPath, InBucket, InTmp, IsSidecar, ValidId, S2sCap, UserCap, ServiceOnly,
         LookStep;
    Places(cfg, p.job.id, p.tmp, p.hex);
  }

  lemma OwnKeyAfterOther(cfg: Config, s: Sys, step: Step)
    requires Acts(step) && !step.Go? && Enabled(cfg, s, step) && s.procs[step.pid].Putting?
    requires GoodPut(cfg, s.fs, s.issued, s.commits, s.procs[step.pid]) && KeyState(cfg, s.fs, s.procs[step.pid])
    ensures KeyStateAfter(cfg, s.fs, s.procs[step.pid], ActOf(cfg, s, step))
  {
    hide ObjPath, MetaPath, StagePath, TmpPath, InBucket, InTmp, IsSidecar, ValidId, S2sCap, UserCap, ServiceOnly,
         LookStep, PutGo;
    var p := s.procs[step.pid];
    Places(cfg, p.job.id, p.tmp, p.hex);
  }

  lemma OwnKeyAfterPut(cfg: Config, s: Sys, step: Step)
    requires Inv(cfg, s) && Acts(step) && Enabled(cfg, s, step) && s.procs[step.pid].Putting?
    requires KeyState(cfg, s.fs, s.procs[step.pid])
    ensures KeyStateAfter(cfg, s.fs, s.procs[step.pid], ActOf(cfg, s, step))
  {
    hide GoodPut, KeyState, KeyStateAfter, PutGo, PutFault, PutFeed, GoodTree, GoodSidecars, GoodCommits, WellFormed,
         LayoutDirs, Owned, Distinct;
    assert GoodProc(cfg, s.fs, s.issued, s.commits, s.procs[step.pid]);
    if step.Go? {
      OwnKeyAfterGo(cfg, s.fs, s.now, s.issued, s.commits, s.procs[step.pid]);
    } else {
      OwnKeyAfterOther(cfg, s, step);
    }
  }

  lemma OwnKeyAfterDelete(cfg: Config, s: Sys, step: Step)
    requires Acts(step) && Enabled(cfg, s, step) && s.procs[step.pid].Deleting?
    ensures var p := s.procs[step.pid]; var act := ActOf(cfg, s, step); var fs' := Apply(s.fs, act.change);
            && (act.after.Stay? ==> PastEffect(act.after.proc))
            && (!act.after.Stay? ==> act.mark == Taints(p.id) || Agree(cfg, fs', p.id))
  {
    hide ObjPath, MetaPath;
  }

  /** A put goes on as itself, and marks its own key when it ends past its effect. */
  ghost predicate Shaped(p: Proc, act: Act)
  {
    && (act.after.Stay? ==>
          && SamePut(p, act.after.proc) && Writer(p) == Writer(act.after.proc)
          && (Writer(p) ==> WriterId(act.after.proc) == WriterId(p))
          && (PastEffect(p) ==> PastEffect(act.after.proc)))
    && (act.mark.Taints? || act.mark.Heals? ==>
          Writer(p) && act.mark.id == WriterId(p) && PastEffect(p) && !act.after.Stay?)
  }

  lemma PutGoShape(cfg: Config, fs: Fs, now: int, p: Proc)
    requires p.Putting?
    ensures Shaped(p, PutGo(cfg, fs, now, p))
  {
    hide ObjPath, MetaPath, StagePath, TmpPath, LookStep, RecordOf, MayMkdir, MayRename, MayCreate;
  }

  lemma PutFaultShape(cfg: Config, fs: Fs, p: Proc, noSpace: bool)
    requires p.Putting?
    ensures Shaped(p, PutFault(cfg, fs, p, noSpace))
  {
    hide ObjPath, MetaPath, StagePath, TmpPath, LookStep, RecordOf;
  }

  lemma ActShape(cfg: Config, s: Sys, step: Step)
    requires Acts(step) && Enabled(cfg, s, step)
    ensures step.pid in s.procs && Shaped(s.procs[step.pid], ActOf(cfg, s, step))
  {
    hide ObjPath, MetaPath, StagePath, TmpPath, LookStep, PutGo, PutFault, Rewrite, Stale;
    var p := s.procs[step.pid];
    if p.Putting? && step.Go? {
      PutGoShape(cfg, s.fs, s.now, p);
    } else if p.Putting? && step.Fault? {
      PutFaultShape(cfg, s.fs, p, step.noSpace);
    }
  }

  lemma ActKeepsSoloRule(cfg: Config, s: Sys, step: Step)
    requires SoloRule(s) && Acts(step) && Enabled(cfg, s, step)
    ensures SoloRule(Next(cfg, s, step))
  {
    hide ActOf, Apply, Enabled;
    ActShape(cfg, s, step);
    var t := Next(cfg, s, step);
    var pid := step.pid;
    var act := ActOf(cfg, s, step);
    forall a | a in t.procs && Writer(t.procs[a]) && a !in t.solo ensures WriterId(t.procs[a]) in t.tainted {
      assert a in s.procs && Writer(s.procs[a]) && WriterId(s.procs[a]) == WriterId(t.procs[a]);
      if act.mark.Heals? && pid in s.solo && a != pid {
        assert !Writes(s.procs[a], WriterId(s.procs[pid]));
      }
    }
  }

  lemma ActKeepsSoloPayload(cfg: Config, s: Sys, step: Step)
    requires Inv(cfg, s) && Lag(cfg, s) && !s.powerLost && Acts(step) && Enabled(cfg, s, step)
    ensures SoloPayload(Next(cfg, s, step))
  {
    hide ActOf, Apply, Enabled, ObjPath, MetaPath, ValidId, Agree, GoodTree, GoodSidecars, GoodCommits, WellFormed,
         LayoutDirs, Owned, Distinct, GoodStaging, InTmp, IsSidecar, S2sCap, UserCap, ServiceOnly, RecordOf, TmpPath,
         StagePath;
    ActShape(cfg, s, step);
    var t := Next(cfg, s, step);
    var pid := step.pid;
    forall a | a in t.solo && a in t.procs && t.procs[a].Putting? && PastEffect(t.procs[a])
      ensures Holds(t.fs, t.procs[a])
    {
      assert GoodProc(cfg, s.fs, s.issued, s.commits, s.procs[a]);
      if a == pid {
        if !PastEffect(s.procs[a]) {
          SoloIsSettled(cfg, s, a);
        }
        PayloadAfterPut(cfg, s, step);
      } else {
        assert !Writes(s.procs[pid], s.procs[a].job.id);
        OthersLeavePair(cfg, s, step, s.procs[a].job.id);
      }
    }
  }

  /** A solo writer's key has no other writer, so it is unsettled only by that writer itself. */
  lemma SoloIsSettled(cfg: Config, s: Sys, a: nat)
    requires SoloRule(s) && a in s.solo && a in s.procs && !PastEffect(s.procs[a])
    ensures !Unsettled(s, WriterId(s.procs[a]))
  {
  }

  /** Renaming establishes the payload whatever was there before. */
  lemma PayloadAfterPut(cfg: Config, s: Sys, step: Step)
    requires Inv(cfg, s) && Acts(step) && Enabled(cfg, s, step) && s.procs[step.pid].Putting?
    requires PastEffect(s.procs[step.pid]) ==> Holds(s.fs, s.procs[step.pid])
    ensures var act := ActOf(cfg, s, step);
            act.after.Stay? && PastEffect(act.after.proc) ==>
              act.after.proc.Putting? && Holds(Apply(s.fs, act.change), act.after.proc)
  {
    hide ObjPath, MetaPath, StagePath, TmpPath, InBucket, InTmp, IsSidecar, ValidId, S2sCap, UserCap, ServiceOnly,
         LookStep, GoodTree, GoodSidecars, GoodCommits, WellFormed, LayoutDirs, Owned, Distinct, MayMkdir, MayCreate;
    var p := s.procs[step.pid];
    assert GoodProc(cfg, s.fs, s.issued, s.commits, p);
    Places(cfg, p.job.id, p.tmp, p.hex);
  }

  lemma ActKeepsSettled(cfg: Config, s: Sys, step: Step, id: Id)
    requires Inv(cfg, s) && Lag(cfg, s) && !s.powerLost && Acts(step) && Enabled(cfg, s, step)
    requires var t := Next(cfg, s, step); ValidId(id, cfg.settings.buckets) && id !in t.tainted && !Unsettled(t, id)
    ensures Agree(cfg, Next(cfg, s, step).fs, id)
  {
    hide ActOf, Apply, Enabled, ObjPath, MetaPath, ValidId, Agree, Inv;
    ActShape(cfg, s, step);
    var t := Next(cfg, s, step);
    var pid := step.pid;
    var p := s.procs[pid];
    var act := ActOf(cfg, s, step);
    if !Writes(p, id) {
      UnsettledByOthers(cfg, s, step, id);
      OthersLeavePair(cfg, s, step, id);
      AgreeFrame(cfg, s.fs, t.fs, id);
    } else {
      WriterOfCleanKeyIsSolo(cfg, s, step, id);
      if !PastEffect(p) {
        SoloIsSettled(cfg, s, pid);
      }
      assert act.after.Stay? ==> t.procs[pid] == act.after.proc;
      if p.Putting? {
        OwnKeyAfterPut(cfg, s, step);
      } else {
        OwnKeyAfterDelete(cfg, s, step);
      }
    }
  }

  lemma UnsettledByOthers(cfg: Config, s: Sys, step: Step, id: Id)
    requires Acts(step) && Enabled(cfg, s, step) && !Writes(s.procs[step.pid], id)
    ensures Unsettled(s, id) ==> Unsettled(Next(cfg, s, step), id)
    ensures id in s.tainted ==> id in Next(cfg, s, step).tainted
  {
    hide ActOf, Apply, Enabled;
    ActShape(cfg, s, step);
    var t := Next(cfg, s, step);
    if Unsettled(s, id) {
      var q :| q in s.procs && Writes(s.procs[q], id) && PastEffect(s.procs[q]);
      assert t.procs[q] == s.procs[q];
    }
  }

  lemma WriterOfCleanKeyIsSolo(cfg: Config, s: Sys, step: Step, id: Id)
    requires SoloRule(s) && Acts(step) && Enabled(cfg, s, step) && Writes(s.procs[step.pid], id)
    requires id !in Next(cfg, s, step).tainted
    ensures step.pid in s.solo
    ensures var act := ActOf(cfg, s, step);
            id !in s.tainted || (act.mark.Heals? && !act.after.Stay? && PastEffect(s.procs[step.pid]))
  {
    hide ActOf, Apply, Enabled;
    ActShape(cfg, s, step);
  }

  // ---- Other steps ---------------------------------------------------------

  lemma StartWriterKeepsSoloRule(s: Sys, pid: nat, id: Id, p: Proc)
    requires SoloRule(s) && pid !in s.procs && pid !in s.solo && Writer(p) && WriterId(p) == id
    ensures SoloRule(StartWriter(s, pid, id, p))
  {
    var others := set q | q in s.procs && Writes(s.procs[q], id);
    var t := StartWriter(s, pid, id, p);
    forall a, b | a in t.solo && b in t.procs && a != b
      ensures a in t.procs && Writer(t.procs[a]) && !Writes(t.procs[b], WriterId(t.procs[a]))
    {
      if b == pid {
        assert a !in others;
      } else if a == pid {
        assert b !in others;
      }
    }
  }

  lemma SameKeysUnsettled(s: Sys, t: Sys, id: Id)
    requires forall q :: q in s.procs ==> q in t.procs && t.procs[q] == s.procs[q]
    ensures Unsettled(s, id) ==> Unsettled(t, id)
  {
    if Unsettled(s, id) {
      var q :| q in s.procs && Writes(s.procs[q], id) && PastEffect(s.procs[q]);
      assert t.procs[q] == s.procs[q];
    }
  }

  lemma StartKeepsSettled(cfg: Config, s: Sys, t: Sys)
    requires Settled(cfg, s) && t.fs == s.fs && s.tainted <= t.tainted
    requires forall q :: q in s.procs ==> q in t.procs && t.procs[q] == s.procs[q]
    ensures Settled(cfg, t)
  {
    hide Agree, ValidId, Unsettled;
    forall id | ValidId(id, cfg.settings.buckets) && id !in t.tainted && !Unsettled(t, id)
      ensures Agree(cfg, t.fs, id)
    {
      SameKeysUnsettled(s, t, id);
    }
  }

  lemma StartKeepsLag(cfg: Config, s: Sys, step: Step)
    requires Lag(cfg, s) && Enabled(cfg, s, step) && !Acts(step) && !step.Crash? && !step.PowerLoss?
    ensures Lag(cfg, Next(cfg, s, step))
  {
    hide Agree, ValidId, Admissible, MayWrite, StagedNames, Holds, Settled, StartWriter, SoloRule;
    var t := Next(cfg, s, step);
    StartKeepsSoloRule(cfg, s, step);
    StartsKeepProcs(cfg, s, step);
    if !s.powerLost {
      StartKeepsSettled(cfg, s, t);
    }
  }

  lemma StartsKeepProcs(cfg: Config, s: Sys, step: Step)
    requires Enabled(cfg, s, step) && !Acts(step) && !step.Crash? && !step.PowerLoss?
    ensures var t := Next(cfg, s, step);
            && t.fs == s.fs && s.tainted <= t.tainted && t.powerLost == s.powerLost
            && (forall q :: q in s.procs ==> q in t.procs && t.procs[q] == s.procs[q])
            && (forall q :: q in t.solo && q !in s.procs ==> q in t.procs ==> !PastEffect(t.procs[q]))
            && (forall q :: q in t.solo && q in s.procs ==> q in s.solo)
  {
    hide ValidId, Admissible, MayWrite, StagedNames;
  }

  /** An operation that is no writer does not matter to the rule. */
  lemma ReaderKeepsSoloRule(s: Sys, t: Sys, pid: nat, p: Proc)
    requires SoloRule(s) && pid !in s.procs && !Writer(p)
    requires t.procs == s.procs[pid := p] && t.solo == s.solo && t.tainted == s.tainted
    ensures SoloRule(t)
  {
    forall a, b | a in t.solo && b in t.procs && a != b
      ensures a in t.procs && Writer(t.procs[a]) && !Writes(t.procs[b], WriterId(t.procs[a]))
    {
      assert a in s.procs;
    }
  }

  lemma SameSoloRule(s: Sys, t: Sys)
    requires SoloRule(s) && t.procs == s.procs && t.solo == s.solo && t.tainted == s.tainted
    ensures SoloRule(t)
  {
  }

  lemma StartKeepsSoloRule(cfg: Config, s: Sys, step: Step)
    requires SoloRule(s) && Enabled(cfg, s, step) && !Acts(step) && !step.Crash? && !step.PowerLoss?
    ensures SoloRule(Next(cfg, s, step))
  {
    hide ValidId, Admissible, MayWrite, StagedNames, StartWriter, SoloRule;
    var t := Next(cfg, s, step);
    match step
    case StartPut(pid, job, tmp, hex) =>
      var issued := s.(issued := s.issued + {tmp, hex});
      var p := Putting(job, tmp, hex, [], if job.exclusive then Check else Open);
      SameSoloRule(s, issued);
      StartWriterKeepsSoloRule(issued, pid, job.id, p);
      SameSoloRule(StartWriter(issued, pid, job.id, p), t);
    case StartDelete(pid, id, who) =>
      StartWriterKeepsSoloRule(s, pid, id, Deleting(id, who, None));
      SameSoloRule(StartWriter(s, pid, id, Deleting(id, who, None)), t);
    case Tick(_) => SameSoloRule(s, t);
    case StartHead(pid, id) => ReaderKeepsSoloRule(s, t, pid, Heading(id, Stat));
    case StartGet(pid, id) => ReaderKeepsSoloRule(s, t, pid, Getting(id, false));
    case StartSweep(pid) => ReaderKeepsSoloRule(s, t, pid, t.procs[pid]);
  }

  lemma CrashedWriterTaints(s: Sys, pids: set<nat>, id: Id)
    requires Unsettled(s, id) && MetaPath(id) in s.fs.files
    ensures id in CrashOf(s, pids).tainted || Unsettled(CrashOf(s, pids), id)
  {
    hide MetaPath;
    var t := CrashOf(s, pids);
    var q :| q in s.procs && Writes(s.procs[q], id) && PastEffect(s.procs[q]);
    assert WriterId(s.procs[q]) == id;
    if q in pids {
      assert q in s.procs.Keys * pids;
    } else {
      assert q in t.procs && t.procs[q] == s.procs[q];
    }
  }

  lemma CrashKeepsSoloRule(s: Sys, pids: set<nat>)
    requires SoloRule(s)
    ensures SoloRule(CrashOf(s, pids))
  {
    hide MetaPath, PastEffect;
  }

  lemma CrashKeepsLag(cfg: Config, s: Sys, pids: set<nat>)
    requires Lag(cfg, s)
    ensures Lag(cfg, Next(cfg, s, Crash(pids)))
  {
    hide ObjPath, MetaPath, ValidId, Holds, Unsettled, SoloRule;
    var t := CrashOf(s, pids);
    CrashKeepsSoloRule(s, pids);
    LagIgnoresPast(cfg, t, s.past + [s.fs]);
    if !s.powerLost {
      forall id | ValidId(id, cfg.settings.buckets) && id !in t.tainted && !Unsettled(t, id)
        ensures Agree(cfg, t.fs, id)
      {
        if MetaPath(id) in s.fs.files {
          assert !Unsettled(s, id) by {
            if Unsettled(s, id) {
              CrashedWriterTaints(s, pids, id);
            }
          }
        }
      }
    }
  }

  lemma LagIgnoresPast(cfg: Config, t: Sys, past: seq<Fs>)
    ensures Lag(cfg, t.(past := past)) <==> Lag(cfg, t)
  {
    hide Agree, ValidId, Holds;
    var u := t.(past := past);
    assert forall id :: Unsettled(u, id) <==> Unsettled(t, id);
  }

  lemma NextKeepsLag(cfg: Config, s: Sys, step: Step)
    requires Inv(cfg, s) && Lag(cfg, s) && Enabled(cfg, s, step)
    ensures Lag(cfg, Next(cfg, s, step))
  {
    hide Inv, ActOf, Apply, Enabled, ObjPath, MetaPath, ValidId, Agree, Holds, SoloRule, SoloPayload, Unsettled,
         CrashOf;
    if Acts(step) {
      ActKeepsSoloRule(cfg, s, step);
      if !s.powerLost {
        ActKeepsSoloPayload(cfg, s, step);
        var t := Next(cfg, s, step);
        forall id | ValidId(id, cfg.settings.buckets) && id !in t.tainted && !Unsettled(t, id)
          ensures Agree(cfg, t.fs, id)
        {
          ActKeepsSettled(cfg, s, step, id);
        }
      }
    } else {
      match step
      case Crash(pids) => CrashKeepsLag(cfg, s, pids);
      case PowerLoss(fs) => PowerLossKeepsLag(cfg, s, fs);
      case _ => StartKeepsLag(cfg, s, step);
    }
  }

  lemma PowerLossKeepsLag(cfg: Config, s: Sys, fs: Fs)
    requires Enabled(cfg, s, PowerLoss(fs))
    ensures Lag(cfg, Next(cfg, s, PowerLoss(fs)))
  {
    hide StagedNames, MaySurvive;
  }

  lemma {:induction false} RunsKeepLag(cfg: Config, s: Sys, steps: seq<Step>, t: Sys)
    requires Inv(cfg, s) && Lag(cfg, s) && Runs(cfg, s, steps, t)
    ensures Lag(cfg, t)
    decreases |steps|
  {
    hide Inv, Lag, Enabled, Next, Runs;
    RunsUnfold(cfg, s, steps, t);
    if steps != [] {
      NextKeepsInv(cfg, s, steps[0]);
      NextKeepsLag(cfg, s, steps[0]);
      RunsKeepLag(cfg, Next(cfg, s, steps[0]), steps[1..], t);
    }
  }

  lemma ReachableLag(cfg: Config, s: Sys)
    requires Reachable(cfg, s)
    ensures Lag(cfg, s)
  {
    hide Runs;
    var init: Sys, steps: seq<Step> :| Initial(cfg, init) && Runs(cfg, init, steps, s);
    RunsKeepLag(cfg, init, steps, s);
  }

  // ---- Head ----------------------------------------------------------------

  /** `head` on a tree that does not change meanwhile. */
  function HeadFrom(cfg: Config, fs: Fs, id: Id, look: Look): Option<ObjectInfo>
    decreases match look case Stat => 3 case IsFile(_) => 2 case ReadSidecar(_) => 1 case Rehash(_) => 0
  {
    match LookStep(cfg, fs, id, look, false)
    case Seen(info) => info
    case More(next) => HeadFrom(cfg, fs, id, next)
  }

  function HeadAnswer(cfg: Config, fs: Fs, id: Id): Option<ObjectInfo> { HeadFrom(cfg, fs, id, Stat) }

  /** The answer in one piece: absent, from the sidecar, or from the file itself. */
  lemma HeadAnswerIs(cfg: Config, fs: Fs, id: Id)
    ensures HeadAnswer(cfg, fs, id) ==
            if ObjPath(id) !in fs.files then None
            else if MetaPath(id) in fs.files && fs.files[MetaPath(id)].content.Json?
            then Some(SidecarInfo(cfg, id, fs.files[MetaPath(id)].content.record))
            else
              var data := DataOf(fs.files[ObjPath(id)]);
              Some(FallbackInfo(cfg, id, |data|, if |data| > ETAG_FALLBACK_MAX_BYTES then "" else cfg.hash(data)))
  {
    hide ObjPath, MetaPath, SidecarInfo, FallbackInfo;
    if ObjPath(id) in fs.files {
      var size := |DataOf(fs.files[ObjPath(id)])|;
      assert HeadFrom(cfg, fs, id, Stat) == HeadFrom(cfg, fs, id, IsFile(size));
      assert HeadFrom(cfg, fs, id, IsFile(size)) == HeadFrom(cfg, fs, id, ReadSidecar(size));
    } else {
      assert HeadFrom(cfg, fs, id, Stat).None? || HeadFrom(cfg, fs, id, Stat) == HeadFrom(cfg, fs, id, IsFile(0));
    }
  }

  /**
   * The answer field by field. Without an object there is none; with a readable sidecar it is that record, an empty
   * content type replaced by the guess; otherwise it is the file's size, the guess, its hash up to 100 MiB, and no
   * metadata.
   */
  lemma HeadAnswerFields(cfg: Config, fs: Fs, id: Id)
    ensures var head := HeadAnswer(cfg, fs, id); var obj, meta := ObjPath(id), MetaPath(id);
            var readable := meta in fs.files && fs.files[meta].content.Json?;
            && (head.Some? <==> obj in fs.files)
            && (head.Some? && readable ==>
                  var record := fs.files[meta].content.record;
                  && head.value.bytes == record.bytes && head.value.etag == record.etag
                  && head.value.metadata == record.metadata
                  && (record.contentType != "" ==> head.value.contentType == record.contentType)
                  && (record.contentType == "" ==> head.value.contentType == cfg.guessMime(id.key)))
            && (head.Some? && !readable && fs.files[obj].content.Bytes? ==>
                  var data := fs.files[obj].content.data;
                  && head.value.bytes == |data| && head.value.contentType == cfg.guessMime(id.key)
                  && head.value.metadata == map[]
                  && head.value.etag == if |data| <= 104857600 then cfg.hash(data) else "")
  {
    hide ObjPath, MetaPath, HeadAnswer;
    HeadAnswerIs(cfg, fs, id);
  }

  /**
   * `info` reports the size and hash of the bytes that are there, or that there are none; the one gap is an empty etag
   * for a large object whose sidecar is missing.
   */
  ghost predicate Truthful(cfg: Config, fs: Fs, id: Id, info: Option<ObjectInfo>)
  {
    && (info.Some? <==> ObjPath(id) in fs.files)
    && (info.Some? ==>
          var data := DataOf(fs.files[ObjPath(id)]);
          && info.value.bytes == |data|
          && (|| info.value.etag == cfg.hash(data)
              || (info.value.etag == "" && |data| > 104857600 && MetaPath(id) !in fs.files)))
  }

  /**
   * In every state reachable without power loss, `head` of the tree as it stands is truthful on an untainted key with
   * no writer between its two effects.
   */
  lemma HeadTellsTheTruth(cfg: Config, s: Sys, id: Id)
    requires Reachable(cfg, s) && !s.powerLost && ValidId(id, cfg.settings.buckets)
    requires id !in s.tainted && !Unsettled(s, id)
    ensures Truthful(cfg, s.fs, id, HeadAnswer(cfg, s.fs, id))
  {
    hide ObjPath, MetaPath, ValidId, Reachable, LookStep, HeadAnswer;
    ReachableLag(cfg, s);
    HeadAnswerIs(cfg, s.fs, id);
  }

  /**
   * A key becomes tainted only when writers overlap on it, when a writer that has renamed or unlinked dies before its
   * sidecar is dealt with, or when such a writer's sidecar action fails: it ends, the tree unchanged, an older
   * sidecar left.
   */
  lemma WhereTaintComesFrom(cfg: Config, s: Sys, step: Step, id: Id)
    requires Enabled(cfg, s, step) && id !in s.tainted && id in Next(cfg, s, step).tainted
    ensures || (step.StartPut? && step.job.id == id && exists q :: q in s.procs && Writes(s.procs[q], id))
            || (step.StartDelete? && step.id == id && exists q :: q in s.procs && Writes(s.procs[q], id))
            || (step.Crash?
                && exists q :: q in s.procs && q in step.pids && Writes(s.procs[q], id) && PastEffect(s.procs[q]))
            || (Acts(step) && Writes(s.procs[step.pid], id) && PastEffect(s.procs[step.pid])
                && step.pid !in Next(cfg, s, step).procs
                && Next(cfg, s, step).fs == s.fs && MetaPath(id) in s.fs.files)
  {
    hide ActOf, MetaPath, ValidId, StagedNames, MaySurvive, Admissible, MayWrite;
    if Acts(step) {
      ActShape(cfg, s, step);
      TaintingActFailed(cfg, s, step);
    } else if step.StartPut? {
      SomeOther(s, id, step.job.id);
    } else if step.StartDelete? {
      SomeOther(s, id, step.id);
    }
  }

  /** An action that taints has changed nothing and leaves a sidecar behind. */
  ghost predicate FailedAtSidecar(fs: Fs, act: Act)
  {
    act.mark.Taints? ==> act.change == Keep && MetaPath(act.mark.id) in fs.files
  }

  lemma PutGoTaint(cfg: Config, fs: Fs, now: int, p: Proc)
    requires p.Putting?
    ensures FailedAtSidecar(fs, PutGo(cfg, fs, now, p))
  {
    hide ObjPath, MetaPath, StagePath, TmpPath, LookStep, RecordOf, MayMkdir, MayRename, MayCreate;
  }

  lemma PutFaultTaint(cfg: Config, fs: Fs, p: Proc, noSpace: bool)
    requires p.Putting?
    ensures FailedAtSidecar(fs, PutFault(cfg, fs, p, noSpace))
  {
    hide ObjPath, MetaPath, StagePath, TmpPath, LookStep, RecordOf;
  }

  lemma TaintingActFailed(cfg: Config, s: Sys, step: Step)
    requires Acts(step) && Enabled(cfg, s, step)
    ensures FailedAtSidecar(s.fs, ActOf(cfg, s, step))
  {
    hide ObjPath, MetaPath, StagePath, TmpPath, LookStep, PutGo, PutFault, Rewrite, Stale, StagedNames;
    var p := s.procs[step.pid];
    if p.Putting? && step.Go? {
      PutGoTaint(cfg, s.fs, s.now, p);
    } else if p.Putting? && step.Fault? {
      PutFaultTaint(cfg, s.fs, p, step.noSpace);
    }
  }

  lemma SomeOther(s: Sys, id: Id, mine: Id)
    ensures (set q | q in s.procs && Writes(s.procs[q], mine)) != {} && id == mine ==>
              exists q :: q in s.procs && Writes(s.procs[q], id)
  {
    if (set q | q in s.procs && Writes(s.procs[q], mine)) != {} && id == mine {
      var q :| q in (set q | q in s.procs && Writes(s.procs[q], mine));
    }
  }

  /**
   * Who counts as solo: a writer that starts while nothing else writes its key, until it ends or another writer of that
   * key starts.
   */
  lemma SoloExact(cfg: Config, s: Sys, step: Step, a: nat)
    requires Enabled(cfg, s, step)
    ensures var t := Next(cfg, s, step);
            && (a in s.procs && Writer(s.procs[a]) ==>
                  var id := WriterId(s.procs[a]);
                  (a in t.solo <==>
                    && a in s.solo && a in t.procs
                    && !(step.StartPut? && step.job.id == id) && !(step.StartDelete? && step.id == id)))
            && (step.StartPut? && step.pid == a ==>
                  (a in t.solo <==> forall q :: q in s.procs ==> !Writes(s.procs[q], step.job.id)))
            && (step.StartDelete? && step.pid == a ==>
                  (a in t.solo <==> forall q :: q in s.procs ==> !Writes(s.procs[q], step.id)))
  {
    hide ActOf, ValidId, StagedNames, MaySurvive, Admissible, MayWrite, Apply, MetaPath;
    if step.StartPut? {
      NoOthers(s, step.job.id);
    } else if step.StartDelete? {
      NoOthers(s, step.id);
    }
  }

  lemma NoOthers(s: Sys, id: Id)
    ensures (set q | q in s.procs && Writes(s.procs[q], id)) == {} <==>
            forall q :: q in s.procs ==> !Writes(s.procs[q], id)
  {
    var others := set q | q in s.procs && Writes(s.procs[q], id);
    assert forall q :: q in s.procs && Writes(s.procs[q], id) ==> q in others;
  }

  /** The last action of a writer: a put renames its sidecar into place, a delete unlinks the sidecar. */
  ghost predicate DealsWithSidecar(cfg: Config, fs: Fs, p: Proc)
  {
    || (p.Putting? && p.stage.SideInstall?
        && MayRename(fs, StagePath(p.job.id, p.hex), MetaPath(p.job.id), cfg.nameMax))
    || (p.Deleting? && p.gone.Some?)
  }

  /** A taint ends exactly when a writer no other has overlapped deals with the sidecar of its key. */
  lemma SoloWriterHeals(cfg: Config, s: Sys, step: Step, id: Id)
    requires Enabled(cfg, s, step) && id in s.tainted
    ensures id !in Next(cfg, s, step).tainted <==>
              && step.Go? && step.pid in s.solo
              && Writes(s.procs[step.pid], id) && DealsWithSidecar(cfg, s.fs, s.procs[step.pid])
  {
    hide ActOf, DealsWithSidecar, ObjPath, MetaPath, StagePath, TmpPath, ValidId, StagedNames, MaySurvive, Admissible,
         MayWrite, Apply;
    if Acts(step) {
      ActShape(cfg, s, step);
      HealingActs(cfg, s, step);
    }
  }

  lemma HealingActs(cfg: Config, s: Sys, step: Step)
    requires Acts(step) && Enabled(cfg, s, step)
    ensures ActOf(cfg, s, step).mark.Heals? <==> step.Go? && DealsWithSidecar(cfg, s.fs, s.procs[step.pid])
  {
    hide ObjPath, MetaPath, StagePath, TmpPath, LookStep, RecordOf, MayRename, PutGo, Stale;
    if s.procs[step.pid].Putting? && step.Go? {
      PutGoHeals(cfg, s.fs, s.now, s.procs[step.pid]);
    }
  }

  lemma PutGoHeals(cfg: Config, fs: Fs, now: int, p: Proc)
    requires p.Putting?
    ensures PutGo(cfg, fs, now, p).mark.Heals? <==> DealsWithSidecar(cfg, fs, p)
  {
    hide ObjPath, MetaPath, StagePath, TmpPath, LookStep, RecordOf, MayRename, MayCreate, MayMkdir;
  }

  /**
   * On a key that is neither tainted nor between the two effects of a writer, losing the sidecar costs neither the size
   * nor, up to 100 MiB, the etag.
   */
  lemma SidecarLossIsHarmless(cfg: Config, s: Sys, id: Id)
    requires Reachable(cfg, s) && !s.powerLost && ValidId(id, cfg.settings.buckets)
    requires id !in s.tainted && !Unsettled(s, id) && ObjPath(id) in s.fs.files
    ensures var before := HeadAnswer(cfg, s.fs, id); var after := HeadAnswer(cfg, Unlink(s.fs, MetaPath(id)), id);
            && before.Some? && after.Some?
            && after.value.bytes == before.value.bytes
            && after.value.etag == if before.value.bytes <= 104857600 then before.value.etag else ""
  {
    hide ObjPath, MetaPath, LookStep, HeadAnswer, Reachable, ValidId, InBucket, InTmp, IsSidecar, StagePath, TmpPath;
    ReachableLag(cfg, s);
    assert Agree(cfg, s.fs, id);
    Places(cfg, id, "", "");
    HeadAnswerIs(cfg, s.fs, id);
    HeadAnswerIs(cfg, Unlink(s.fs, MetaPath(id)), id);
  }

  // ---- A head call among other operations ----------------------------------

  /**
   * `head` goes on as before when the object and the sidecar are as before; directories do not matter to its answer.
   */
  lemma HeadFromFrame(cfg: Config, fs: Fs, fs': Fs, id: Id, look: Look)
    requires SameAt(fs, fs', ObjPath(id)) && SameAt(fs, fs', MetaPath(id))
    ensures HeadFrom(cfg, fs', id, look) == HeadFrom(cfg, fs, id, look)
    decreases match look case Stat => 3 case IsFile(_) => 2 case ReadSidecar(_) => 1 case Rehash(_) => 0
  {
    hide ObjPath, MetaPath, SidecarInfo, FallbackInfo;
    var now, then' := LookStep(cfg, fs, id, look, false), LookStep(cfg, fs', id, look, false);
    if now.More? && then'.More? {
      HeadFromFrame(cfg, fs, fs', id, now.look);
    }
  }

  /** The call `pid` of `head` on `id` has not answered, and no writer of the key is past its rename or unlink. */
  ghost predicate HeadInPeace(s: Sys, pid: nat, id: Id)
  {
    pid in s.procs && s.procs[pid].Heading? && s.procs[pid].id == id && !Unsettled(s, id)
  }

  /** What is left of the call would answer what `head` answers on the tree of `s`. */
  ghost predicate HeadOnCourse(cfg: Config, s: Sys, t: Sys, pid: nat, id: Id)
  {
    && HeadInPeace(t, pid, id) && t.powerLost == s.powerLost
    && SameAt(s.fs, t.fs, ObjPath(id)) && SameAt(s.fs, t.fs, MetaPath(id))
    && HeadFrom(cfg, t.fs, id, t.procs[pid].look) == HeadAnswer(cfg, s.fs, id)
  }

  /** A writer that is past its effect after neither this nor its next action leaves object and sidecar alone. */
  lemma BeforeEffectLeavesPair(cfg: Config, s: Sys, step: Step, id: Id)
    requires Inv(cfg, s) && Acts(step) && Enabled(cfg, s, step) && ValidId(id, cfg.settings.buckets)
    requires !Unsettled(s, id) && !Unsettled(Next(cfg, s, step), id)
    ensures var fs' := Apply(s.fs, ActOf(cfg, s, step).change);
            SameAt(s.fs, fs', ObjPath(id)) && SameAt(s.fs, fs', MetaPath(id))
  {
    hide Inv, ObjPath, MetaPath, ValidId, ActOf, Apply;
    var p := s.procs[step.pid];
    if !Writes(p, id) {
      OthersLeavePair(cfg, s, step, id);
    } else {
      assert !PastEffect(p);
      var t := Next(cfg, s, step);
      var act := ActOf(cfg, s, step);
      ActShape(cfg, s, step);
      EffectShows(cfg, s, step);
      if act.after.Stay? {
        SettledWriter(t, step.pid, id);
      }
    }
  }

  lemma SettledWriter(s: Sys, q: nat, id: Id)
    requires !Unsettled(s, id) && q in s.procs && Writes(s.procs[q], id)
    ensures !PastEffect(s.procs[q])
  {
  }

  /** An action of a writer changes its object or sidecar only if the writer is past its effect before or after. */
  lemma EffectShows(cfg: Config, s: Sys, step: Step)
    requires Inv(cfg, s) && Acts(step) && Enabled(cfg, s, step) && Writer(s.procs[step.pid])
    requires !PastEffect(s.procs[step.pid])
    ensures var id := WriterId(s.procs[step.pid]); var act := ActOf(cfg, s, step); var fs' := Apply(s.fs, act.change);
            || (act.after.Stay? && PastEffect(act.after.proc))
            || (SameAt(s.fs, fs', ObjPath(id)) && SameAt(s.fs, fs', MetaPath(id)))
  {
    hide ObjPath, MetaPath, StagePath, TmpPath, InBucket, InTmp, IsSidecar, ValidId, S2sCap, UserCap, ServiceOnly,
         RecordOf, LookStep, GoodTree, GoodSidecars, GoodCommits, WellFormed, LayoutDirs, Owned, Distinct, GoodStaging,
         MayMkdir, MayCreate;
    var p := s.procs[step.pid];
    assert GoodProc(cfg, s.fs, s.issued, s.commits, p);
    if p.Putting? {
      Places(cfg, p.job.id, p.tmp, p.hex);
    }
  }

  lemma StepKeepsCourse(cfg: Config, s: Sys, t: Sys, step: Step, pid: nat, id: Id)
    requires Inv(cfg, t) && ValidId(id, cfg.settings.buckets) && HeadOnCourse(cfg, s, t, pid, id)
    requires Enabled(cfg, t, step) && !(step.Fault? && step.pid == pid)
    requires HeadInPeace(Next(cfg, t, step), pid, id)
    ensures HeadOnCourse(cfg, s, Next(cfg, t, step), pid, id)
  {
    hide Inv, ObjPath, MetaPath, ValidId, HeadAnswer, HeadFrom, Unsettled, LookStep, Apply, ActOf, StagedNames,
         MaySurvive, Admissible, MayWrite;
    var u := Next(cfg, t, step);
    if Acts(step) {
      BeforeEffectLeavesPair(cfg, t, step, id);
      HeadFromFrame(cfg, t.fs, u.fs, id, u.procs[pid].look);
      if step.pid == pid {
        HeadStepOnCourse(cfg, t, step, id);
      }
    }
  }

  lemma HeadStepOnCourse(cfg: Config, t: Sys, step: Step, id: Id)
    requires Acts(step) && Enabled(cfg, t, step) && !step.Fault?
    requires t.procs[step.pid].Heading? && t.procs[step.pid].id == id
    requires step.pid in Next(cfg, t, step).procs && Next(cfg, t, step).procs[step.pid].Heading?
    ensures Next(cfg, t, step).fs == t.fs
    ensures var u := Next(cfg, t, step);
            HeadFrom(cfg, t.fs, id, u.procs[step.pid].look) == HeadFrom(cfg, t.fs, id, t.procs[step.pid].look)
  {
    hide ObjPath, MetaPath, LookStep;
  }

  /**
   * The states of a call of `head`, from just after its start: it takes no fault, and its key is at peace in each of
   * them.
   */
  ghost predicate HeadRan(cfg: Config, s: Sys, pid: nat, id: Id, states: seq<Sys>, steps: seq<Step>, t: Sys)
  {
    && Enabled(cfg, s, StartHead(pid, id)) && Visits(cfg, Next(cfg, s, StartHead(pid, id)), states, steps, t)
    && (forall i :: 0 <= i < |states| ==> HeadInPeace(states[i], pid, id))
    && (forall i :: 0 <= i < |steps| ==> !(steps[i].Fault? && steps[i].pid == pid))
  }

  lemma {:induction false} CourseOverRun(cfg: Config, s: Sys, pid: nat, id: Id, states: seq<Sys>, steps: seq<Step>,
                                         n: nat)
    requires n <= |steps| < |states|
    requires Inv(cfg, states[0]) && ValidId(id, cfg.settings.buckets) && HeadOnCourse(cfg, s, states[0], pid, id)
    requires Visits(cfg, states[0], states, steps, states[|steps|])
    requires forall i :: 0 <= i < |states| ==> HeadInPeace(states[i], pid, id)
    requires forall i :: 0 <= i < |steps| ==> !(steps[i].Fault? && steps[i].pid == pid)
    ensures Inv(cfg, states[n]) && HeadOnCourse(cfg, s, states[n], pid, id)
    decreases n
  {
    hide Inv, ValidId, HeadOnCourse, Enabled, Next, HeadInPeace;
    if n > 0 {
      CourseOverRun(cfg, s, pid, id, states, steps, n - 1);
      assert Leads(cfg, states, steps, n - 1);
      NextKeepsInv(cfg, states[n - 1], steps[n - 1]);
      StepKeepsCourse(cfg, s, states[n - 1], steps[n - 1], pid, id);
    }
  }

  /**
   * Over every run without power loss: a call of `head` that takes no fault, begun on an untainted key, and during
   * which no writer of the key is past its rename or unlink, answers truthfully about the tree it answers in. Writers
   * of other keys, and writers of this key on their way to their effect, may act between its actions.
   */
  lemma HeadCallTellsTheTruth(cfg: Config, s: Sys, pid: nat, id: Id, states: seq<Sys>, steps: seq<Step>, t: Sys,
                              info: Option<ObjectInfo>)
    requires Reachable(cfg, s) && !s.powerLost && id !in s.tainted && HeadRan(cfg, s, pid, id, states, steps, t)
    requires Replies(cfg, t, pid, id, info)
    ensures Truthful(cfg, t.fs, id, info)
  {
    hide Inv, Reachable, ObjPath, MetaPath, LookStep, ValidId, HeadAnswer, HeadFrom, Enabled, Next, Truthful;
    ReachableInv(cfg, s);
    StartHeadIsEnabled(cfg, s, pid, id, states, steps, t);
    NextKeepsInv(cfg, s, StartHead(pid, id));
    HeadBegins(cfg, s, pid, id);
    CourseOverRun(cfg, s, pid, id, states, steps, |steps|);
    HeadTellsTheTruth(cfg, s, id);
    HeadFromAnswers(cfg, t.fs, id, t.procs[pid].look);
    TruthFrame(cfg, s.fs, t.fs, id, info);
  }

  /** Without a fault, the next action of the call answers `info`. */
  ghost predicate Replies(cfg: Config, t: Sys, pid: nat, id: Id, info: Option<ObjectInfo>)
  {
    && pid in t.procs && t.procs[pid].Heading? && t.procs[pid].id == id
    && LookStep(cfg, t.fs, id, t.procs[pid].look, false) == Seen(info)
  }

  /** That answer is what the call logs. */
  lemma ReplyIsLogged(cfg: Config, t: Sys, pid: nat, id: Id, info: Option<ObjectInfo>)
    requires Replies(cfg, t, pid, id, info)
    ensures Enabled(cfg, t, Go(pid)) && Next(cfg, t, Go(pid)).log == t.log + [Event(HeadCall(id), Info(info))]
  {
    hide LookStep;
  }

  lemma StartHeadIsEnabled(cfg: Config, s: Sys, pid: nat, id: Id, states: seq<Sys>, steps: seq<Step>, t: Sys)
    requires HeadRan(cfg, s, pid, id, states, steps, t)
    ensures Enabled(cfg, s, StartHead(pid, id)) && states[0] == Next(cfg, s, StartHead(pid, id)) && states[|steps|] == t
    ensures HeadInPeace(Next(cfg, s, StartHead(pid, id)), pid, id)
  {
    hide Enabled, Next, HeadInPeace;
  }

  lemma TruthFrame(cfg: Config, fs: Fs, fs': Fs, id: Id, info: Option<ObjectInfo>)
    requires Truthful(cfg, fs, id, info) && SameAt(fs, fs', ObjPath(id)) && SameAt(fs, fs', MetaPath(id))
    ensures Truthful(cfg, fs', id, info)
  {
    hide ObjPath, MetaPath;
  }

  lemma HeadBegins(cfg: Config, s: Sys, pid: nat, id: Id)
    requires Enabled(cfg, s, StartHead(pid, id)) && HeadInPeace(Next(cfg, s, StartHead(pid, id)), pid, id)
    ensures HeadOnCourse(cfg, s, Next(cfg, s, StartHead(pid, id)), pid, id) && ValidId(id, cfg.settings.buckets)
    ensures !Unsettled(s, id)
  {
    hide ObjPath, MetaPath, ValidId, LookStep;
    var t := Next(cfg, s, StartHead(pid, id));
    forall q | q in s.procs && Writes(s.procs[q], id) ensures !PastEffect(s.procs[q]) {
      SettledWriter(t, q, id);
    }
  }

  lemma HeadFromAnswers(cfg: Config, fs: Fs, id: Id, look: Look)
    requires LookStep(cfg, fs, id, look, false).Seen?
    ensures HeadFrom(cfg, fs, id, look) == LookStep(cfg, fs, id, look, false).info
  {
    hide LookStep;
  }
}
