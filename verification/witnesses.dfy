/**
 * Runs that show the side conditions of the other theorems to be needed: what the driver in src/drivers/local_fs.py and
 * the sweep in src/drivers/paths.py can really do from any reachable state.
 */
module Witnesses {
  import opened Strings
  import opened Options
  import opened Layout
  import opened FileSystem
  import opened Policy
  import opened Machine
  import opened Safety
  import opened Agreement
  import opened Driver
  import opened Overlap

  // ---- A sweep takes a file written a moment ago ---------------------------

  /**
   * An upload that stalls for more than an hour is found stale, writes again before the removal, and loses a file
   * that is no second old: the age test and the removal are separate actions.
   */
  lemma SweepTakesAFreshFile(cfg: Config, s: Sys, q: nat, pid: nat, job: Job, tmp: string, hex: string,
                             chunk: seq<Byte>)
    returns (steps: seq<Step>, t: Sys)
    requires Reachable(cfg, s) && Enabled(cfg, s, StartPut(q, job, tmp, hex)) && !job.exclusive
    requires Fresh(s, pid) && pid != q && chunk != [] && |chunk| <= job.cap
    requires cfg.nameMax >= 255 && TmpPath(tmp) !in s.fs.dirs
    ensures Runs(cfg, s, steps, t) && Enabled(cfg, t, Go(pid))
    ensures TmpPath(tmp) in t.fs.files && t.fs.files[TmpPath(tmp)].mtime == t.now
    ensures TmpPath(tmp) !in Next(cfg, t, Go(pid)).fs.files
  {
    hide Inv, Runs, Reachable, ObjPath, TmpPath, ValidId, Admissible, Enabled, Next, GoAct, MayCreate, StagedNames,
         Stale;
    ReachableInv(cfg, s);
    RunsNothing(cfg, s);
    StartPutMeans(cfg, s, q, job, tmp, hex);
    StartPutSolo(cfg, s, q, job, tmp, hex);
    steps, t := Takes(cfg, s, [], s, StartPut(q, job, tmp, hex));
    PutFits(cfg, t, job.id, tmp);
    OpenAct(cfg, t.fs, t.now, t.procs[q]);
    steps, t := Goes(cfg, s, steps, t, q, GoAct(cfg, t.fs, t.now, t.procs[q]));
    TickMeans(cfg, t, 3601);
    steps, t := Takes(cfg, s, steps, t, Tick(3601));
    FreshSweep(cfg, t, pid);
    StartSweepMeans(cfg, t, pid);
    NameIsListed(t.fs, tmp);
    steps, t := Takes(cfg, s, steps, t, StartSweep(pid));
    SweepTestMeans(cfg, t, pid, tmp);
    StaleMeans(t.fs, tmp, t.procs[pid].cutoff);
    steps, t := Takes(cfg, s, steps, t, Test(pid, tmp));
    steps, t := FeedsOn(cfg, s, steps, t, q, chunk);
    SweepGoMeans(cfg, t, pid);
  }

  lemma TickMeans(cfg: Config, s: Sys, seconds: nat)
    ensures Enabled(cfg, s, Tick(seconds))
    ensures var t := Next(cfg, s, Tick(seconds)); t == s.(now := s.now + seconds, past := s.past + [s.fs])
  {
  }

  lemma StartPutSolo(cfg: Config, s: Sys, pid: nat, job: Job, tmp: string, hex: string)
    requires Enabled(cfg, s, StartPut(pid, job, tmp, hex))
    ensures Next(cfg, s, StartPut(pid, job, tmp, hex)).solo <= s.solo + {pid}
  {
    hide Admissible;
  }

  lemma FreshSweep(cfg: Config, t: Sys, pid: nat)
    requires pid !in t.procs && pid !in t.solo
    ensures Enabled(cfg, t, StartSweep(pid))
  {
  }

  lemma NameIsListed(fs: Fs, name: string)
    ensures TmpPath(name) in fs.files ==> name in StagedNames(fs)
  {
  }

  // ---- A head that lies without any taint ----------------------------------

  /** The first two actions of a `head` on a present object. */
  lemma LooksTwice(cfg: Config, s: Sys, h: nat, id: Id) returns (steps: seq<Step>, t: Sys)
    requires Inv(cfg, s) && ValidId(id, cfg.settings.buckets) && ObjPath(id) in s.fs.files && Fresh(s, h)
    ensures Runs(cfg, s, steps, t) && Inv(cfg, t) && t.fs == s.fs && Same(s, t)
    ensures t.procs == s.procs[h := Heading(id, ReadSidecar(|DataOf(s.fs.files[ObjPath(id)])|))]
  {
    hide Inv, Runs, ObjPath, MetaPath, ValidId, GoAct, Next, Enabled;
    RunsNothing(cfg, s);
    StartHeadMeans(cfg, s, h, id);
    steps, t := Takes(cfg, s, [], s, StartHead(h, id));
    LooksAt(cfg, t.fs, t.now, t.procs[h]);
    steps, t := Goes(cfg, s, steps, t, h, GoAct(cfg, t.fs, t.now, t.procs[h]));
    LooksAt(cfg, t.fs, t.now, t.procs[h]);
    steps, t := Goes(cfg, s, steps, t, h, GoAct(cfg, t.fs, t.now, t.procs[h]));
  }

  /** A delete that runs from start to end with nothing beside it. */
  lemma DeletesAlone(cfg: Config, start: Sys, before: seq<Step>, s: Sys, d: nat, id: Id, who: Principal)
    returns (steps: seq<Step>, t: Sys)
    requires Inv(cfg, s) && Runs(cfg, start, before, s) && MayWrite(cfg.settings, who, id)
    requires ObjPath(id) in s.fs.files && Fresh(s, d) && forall q :: q in s.procs ==> !Writes(s.procs[q], id)
    ensures Runs(cfg, start, steps, t) && Inv(cfg, t) && t.procs == s.procs && id !in t.tainted && t.now == s.now
    ensures t.log == s.log + [Event(DeleteCall(id), Deleted(true))]
    ensures ObjPath(id) !in t.fs.files && MetaPath(id) !in t.fs.files
  {
    hide Inv, Runs, ObjPath, MetaPath, GoAct, Next, Enabled, MayWrite;
    LoneDelete(cfg, s, d, id, who);
    steps, t := Takes(cfg, start, before, s, StartDelete(d, id, who));
    DeleteAct(cfg, t.fs, t.now, t.procs[d]);
    steps, t := Goes(cfg, start, steps, t, d, GoAct(cfg, t.fs, t.now, t.procs[d]));
    DeleteAct(cfg, t.fs, t.now, t.procs[d]);
    steps, t := Goes(cfg, start, steps, t, d, GoAct(cfg, t.fs, t.now, t.procs[d]));
    assert t.procs == s.procs;
  }

  /** The last two actions of a `head` whose object and sidecar are gone. */
  lemma FindsNothingLeft(cfg: Config, start: Sys, before: seq<Step>, s: Sys, h: nat, id: Id, size: nat)
    returns (steps: seq<Step>, t: Sys)
    requires Inv(cfg, s) && Runs(cfg, start, before, s) && h in s.procs && s.procs[h] == Heading(id, ReadSidecar(size))
    requires ObjPath(id) !in s.fs.files && MetaPath(id) !in s.fs.files
    ensures Runs(cfg, start, steps, t) && t.procs == s.procs - {h} && t.tainted == s.tainted && t.fs == s.fs
    ensures t.log == s.log + [Event(HeadCall(id), Info(Some(FallbackInfo(cfg, id, size, ""))))]
  {
    hide Inv, Runs, ObjPath, MetaPath, GoAct, Next, Enabled, FallbackInfo;
    LooksAt(cfg, s.fs, s.now, s.procs[h]);
    steps, t := Goes(cfg, start, before, s, h, GoAct(cfg, s.fs, s.now, s.procs[h]));
    LooksAt(cfg, t.fs, t.now, t.procs[h]);
    steps, t := Goes(cfg, start, steps, t, h, GoAct(cfg, t.fs, t.now, t.procs[h]));
    assert t.procs == s.procs - {h};
  }

  /**
   * One complete, fault-free, undisturbed delete of the key between the second and the third action of `head`: the call
   * answers with the size of bytes that are gone and an empty etag, and no taint is left.
   */
  lemma HeadLiesDuringDelete(cfg: Config, s: Sys, h: nat, d: nat, id: Id, who: Principal)
    returns (steps: seq<Step>, t: Sys)
    requires Reachable(cfg, s) && MayWrite(cfg.settings, who, id)
    requires ObjPath(id) in s.fs.files && Fresh(s, h) && Fresh(s, d) && h != d
    requires forall q :: q in s.procs ==> !Writes(s.procs[q], id)
    ensures Runs(cfg, s, steps, t) && t.procs == s.procs && id !in t.tainted
    ensures s.fs.files[ObjPath(id)].content.Bytes?
    ensures var lie := ObjectInfo(|s.fs.files[ObjPath(id)].content.data|, cfg.guessMime(id.key), "", map[]);
            && t.log == s.log + [Event(DeleteCall(id), Deleted(true)), Event(HeadCall(id), Info(Some(lie)))]
            && !Truthful(cfg, t.fs, id, Some(lie))
  {
    hide Inv, Runs, Reachable, ObjPath, MetaPath, ValidId, ServiceOnly;
    ReachableInv(cfg, s);
    ObjectsAreBytes(cfg, s, id);
    steps, t := LooksTwice(cfg, s, h, id);
    steps, t := DeletesAlone(cfg, s, steps, t, d, id, who);
    steps, t := FindsNothingLeft(cfg, s, steps, t, h, id, |DataOf(s.fs.files[ObjPath(id)])|);
    assert t.procs == s.procs;
  }

  lemma ObjectsAreBytes(cfg: Config, s: Sys, id: Id)
    requires Reachable(cfg, s) && ValidId(id, cfg.settings.buckets) && ObjPath(id) in s.fs.files
    ensures s.fs.files[ObjPath(id)].content.Bytes?
  {
    hide Reachable, ObjPath, ValidId, InBucket, Inv;
    BucketRegion(id, cfg.settings.buckets);
    var c := EveryFileIsAWholePayload(cfg, s, ObjPath(id));
  }

  lemma StartHeadMeans(cfg: Config, s: Sys, pid: nat, id: Id)
    requires Fresh(s, pid) && ValidId(id, cfg.settings.buckets)
    ensures Enabled(cfg, s, StartHead(pid, id))
    ensures Next(cfg, s, StartHead(pid, id)) == s.(procs := s.procs[pid := Heading(id, Stat)], past := s.past + [s.fs])
  {
    hide ValidId;
  }

  /** The next action of a `head` that meets no fault. */
  lemma LooksAt(cfg: Config, fs: Fs, now: int, p: Proc)
    requires p.Heading?
    ensures var act := GoAct(cfg, fs, now, p); var obj, meta := ObjPath(p.id), MetaPath(p.id);
            && act.change == Keep && act.mark == NoMark
            && (p.look.Stat? && obj in fs.files ==> act.after == Stay(p.(look := IsFile(|DataOf(fs.files[obj])|))))
            && (p.look.IsFile? && obj in fs.files ==> act.after == Stay(p.(look := ReadSidecar(p.look.size))))
            && (p.look.ReadSidecar? && meta !in fs.files ==> act.after == Stay(p.(look := Rehash(p.look.size))))
            && (p.look.Rehash? && obj !in fs.files ==>
                  act.after == Done(HeadCall(p.id), Info(Some(FallbackInfo(cfg, p.id, p.look.size, "")))))
  {
    hide ObjPath, MetaPath, FallbackInfo, SidecarInfo;
  }

  lemma LoneDelete(cfg: Config, s: Sys, d: nat, id: Id, who: Principal)
    requires Fresh(s, d) && MayWrite(cfg.settings, who, id) && forall q :: q in s.procs ==> !Writes(s.procs[q], id)
    ensures Enabled(cfg, s, StartDelete(d, id, who))
    ensures var t := Next(cfg, s, StartDelete(d, id, who));
            && t.fs == s.fs && t.now == s.now && t.log == s.log && t.procs == s.procs[d := Deleting(id, who, None)]
            && d in t.solo && t.tainted == s.tainted
  {
    hide ValidId, ServiceOnly;
    assert (set q | q in s.procs && Writes(s.procs[q], id)) == {};
  }

  // ---- A head that lies because of a taint ---------------------------------

  /**
   * A put that replaces an object and then loses its sidecar, to a fault or to a crash of its process, leaves the new
   * bytes beside the old sidecar: from then on `head` describes bytes that are no longer there.
   */
  lemma HeadLiesAfterLostSidecar(cfg: Config, s: Sys, pid: nat, job: Job, tmp: string, hex: string, payload: seq<Byte>,
                                 crash: bool)
    returns (steps: seq<Step>, t: Sys)
    requires Reachable(cfg, s) && Enabled(cfg, s, StartPut(pid, job, tmp, hex)) && !job.exclusive
    requires |payload| <= job.cap
    requires ObjPath(job.id) in s.fs.files && MetaPath(job.id) in s.fs.files
    requires s.fs.files[MetaPath(job.id)].content.Json?
    requires cfg.nameMax >= 255 && TmpPath(tmp) !in s.fs.dirs
    ensures Runs(cfg, s, steps, t) && t.procs == s.procs && job.id in t.tainted
    ensures ObjPath(job.id) in t.fs.files && t.fs.files[ObjPath(job.id)].content == Bytes(payload)
    ensures var said := HeadAnswer(cfg, t.fs, job.id); var record := s.fs.files[MetaPath(job.id)].content.record;
            && said.Some? && said.value.bytes == record.bytes && said.value.etag == record.etag
            && said.value.metadata == record.metadata
            && (record.bytes != |payload| || record.etag != cfg.hash(payload) ==> !Truthful(cfg, t.fs, job.id, said))
  {
    hide Inv, Runs, Reachable, ObjPath, MetaPath, TmpPath, StagePath, ValidId, Admissible, FaultAct, HeadAnswer, OnlyAt,
         Blocked, InBucket, InTmp, IsSidecar;
    ReachableInv(cfg, s);
    RunsNothing(cfg, s);
    StartPutMeans(cfg, s, pid, job, tmp, hex);
    Places(cfg, job.id, tmp, hex);
    steps, t := Takes(cfg, s, [], s, StartPut(pid, job, tmp, hex));
    PresentIsClear(cfg, t, t.procs[pid]);
    steps, t := ReachesRename(cfg, s, steps, t, pid, t.procs[pid], payload);
    MetaStays(s.fs, t.fs, TmpPath(tmp), ObjPath(job.id), MetaPath(job.id));
    var stored := t;
    if crash {
      CrashMeans(cfg, stored, pid, job);
      steps, t := Takes(cfg, s, steps, stored, Crash({pid}));
    } else {
      SidecarFaultAct(cfg, t.fs, t.procs[pid]);
      steps, t := Fails(cfg, s, steps, stored, pid, FaultAct(cfg, stored.fs, stored.procs[pid], false));
    }
    assert t.procs == s.procs;
    HeadAnswerIs(cfg, t.fs, job.id);
  }

  /** Where an object is, nothing obstructs a put to it. */
  lemma PresentIsClear(cfg: Config, s: Sys, p: Proc)
    requires Inv(cfg, s) && p.Putting? && ValidId(p.job.id, cfg.settings.buckets) && ObjPath(p.job.id) in s.fs.files
    requires cfg.nameMax >= 255 && |p.tmp| == UUID_LENGTH && TmpPath(p.tmp) !in s.fs.dirs
    ensures Clear(cfg, s, p)
  {
    hide ObjPath, TmpPath, ValidId, GoodTree, GoodSidecars, GoodCommits, LayoutDirs, Distinct, Owned, GoodProc;
    forall n | 0 < n < |ObjPath(p.job.id)| ensures ObjPath(p.job.id)[..n] !in s.fs.files {
      AboveFile(s.fs, ObjPath(p.job.id), n);
    }
  }

  lemma MetaStays(fs: Fs, fs': Fs, tmp: Path, obj: Path, meta: Path)
    requires OnlyAt(fs, fs', {tmp, obj}) && meta != tmp && meta != obj
    ensures SameAt(fs, fs', meta)
  {
  }

  lemma CrashMeans(cfg: Config, s: Sys, pid: nat, job: Job)
    requires pid in s.procs && s.procs[pid].Putting? && s.procs[pid].job == job && s.procs[pid].stage.SideDirs?
    requires MetaPath(job.id) in s.fs.files
    ensures Enabled(cfg, s, Crash({pid}))
    ensures var t := Next(cfg, s, Crash({pid})); t.fs == s.fs && t.procs == s.procs - {pid} && job.id in t.tainted
  {
    hide MetaPath;
    assert WriterId(s.procs[pid]) == job.id;
  }

  lemma SidecarFaultAct(cfg: Config, fs: Fs, p: Proc)
    requires p.Putting? && p.stage.SideDirs? && MetaPath(p.job.id) in fs.files
    ensures FaultAct(cfg, fs, p, false) == Machine.Act(Keep, PutDone(cfg, p), Taints(p.job.id))
  {
    hide ObjPath, MetaPath, StagePath, TmpPath;
  }

  // ---- An exclusive put that replaces an object ----------------------------

  /** A fault of the existence check lets an exclusive put, alone on its key, replace a present object. */
  lemma FaultyCheckReplaces(cfg: Config, s: Sys, pid: nat, job: Job, tmp: string, hex: string, payload: seq<Byte>)
    returns (steps: seq<Step>, t: Sys)
    requires Reachable(cfg, s) && Enabled(cfg, s, StartPut(pid, job, tmp, hex)) && job.exclusive && |payload| <= job.cap
    requires ObjPath(job.id) in s.fs.files && cfg.nameMax >= 255 && TmpPath(tmp) !in s.fs.dirs
    requires forall q :: q in s.procs ==> !Writes(s.procs[q], job.id)
    ensures Runs(cfg, s, steps, t) && pid in t.solo && t.log == s.log
    ensures t.commits == s.commits + [Commit(job, payload)]
    ensures ObjPath(job.id) in t.fs.files && t.fs.files[ObjPath(job.id)].content == Bytes(payload)
  {
    hide Inv, Runs, Reachable, ObjPath, MetaPath, TmpPath, StagePath, ValidId, Admissible, FaultAct, Blocked;
    ReachableInv(cfg, s);
    RunsNothing(cfg, s);
    StartPutMeans(cfg, s, pid, job, tmp, hex);
    assert (set q | q in s.procs && Writes(s.procs[q], job.id)) == {};
    steps, t := Takes(cfg, s, [], s, StartPut(pid, job, tmp, hex));
    CheckFaultAct(cfg, t.fs, t.procs[pid]);
    steps, t := Fails(cfg, s, steps, t, pid, FaultAct(cfg, t.fs, t.procs[pid], false));
    PresentIsClear(cfg, t, t.procs[pid]);
    steps, t := ReachesRename(cfg, s, steps, t, pid, t.procs[pid], payload);
  }

  lemma CheckFaultAct(cfg: Config, fs: Fs, p: Proc)
    requires p.Putting? && p.stage.Check?
    ensures FaultAct(cfg, fs, p, false) == Quiet(p.(stage := Open))
  {
    hide ObjPath, MetaPath, StagePath, TmpPath;
  }
}
