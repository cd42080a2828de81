/**
 * What a fault of each action costs (src/drivers/local_fs.py): the answer the call still gives, and what it leaves of
 * the tree. And what the environment can really do to a run: lag behind with writes, truncate, undo.
 */
module Faults {
  import opened Strings
  import opened Options
  import opened Layout
  import opened FileSystem
  import opened Policy
  import opened Machine
  import opened Safety
  import opened Agreement
  import opened Driver

  // ---- Put -----------------------------------------------------------------

  /** A put between the opening of its staging file and its rename. */
  predicate BeforeRename(p: Proc)
  {
    p.Putting? && (p.stage.Open? || p.stage.Stream? || p.stage.Dirs? || p.stage.Install?)
  }

  /**
   * A fault before the rename, and the cleanup that follows: the put fails for want of space when that is what the
   * fault was and for an I/O error otherwise, its staging file is gone, and nothing else has changed.
   */
  lemma FaultBeforeRename(cfg: Config, s: Sys, pid: nat, noSpace: bool)
    requires pid in s.procs && BeforeRename(s.procs[pid])
    ensures Enabled(cfg, s, Fault(pid, noSpace)) && Enabled(cfg, Next(cfg, s, Fault(pid, noSpace)), Go(pid))
    ensures var p := s.procs[pid]; var why := if noSpace then NoSpace else IoError;
            var t := Next(cfg, Next(cfg, s, Fault(pid, noSpace)), Go(pid));
            && t.fs.dirs == s.fs.dirs && t.fs.files == s.fs.files - {[".tmp", p.tmp]}
            && t.procs == s.procs - {pid} && t.commits == s.commits && t.tainted == s.tainted && t.orphans == s.orphans
            && t.log == s.log + [Event(PutCall(p.job, p.got, Some(why)), Failed(why))]
  {
    hide ObjPath, MetaPath, StagePath, LookStep, MaySurvive, Admissible, MayWrite, ValidId, StagedNames, CrashOf,
         Enabled, Next;
    FaultFails(cfg, s, pid, noSpace);
    CleansUp(cfg, Next(cfg, s, Fault(pid, noSpace)), pid);
  }

  lemma FaultFails(cfg: Config, s: Sys, pid: nat, noSpace: bool)
    requires pid in s.procs && BeforeRename(s.procs[pid])
    ensures Enabled(cfg, s, Fault(pid, noSpace))
    ensures var why := if noSpace then NoSpace else IoError;
            var t := Next(cfg, s, Fault(pid, noSpace));
            && t.fs == s.fs && t.procs == s.procs[pid := s.procs[pid].(stage := Clean(why))]
            && t.commits == s.commits && t.tainted == s.tainted && t.orphans == s.orphans && t.log == s.log
  {
    hide ObjPath, MetaPath, StagePath, LookStep, MaySurvive, Admissible, MayWrite, ValidId, StagedNames, CrashOf;
  }

  lemma CleansUp(cfg: Config, s: Sys, pid: nat)
    requires pid in s.procs && s.procs[pid].Putting? && s.procs[pid].stage.Clean?
    ensures Enabled(cfg, s, Go(pid))
    ensures var p := s.procs[pid]; var t := Next(cfg, s, Go(pid));
            && t.fs.dirs == s.fs.dirs && t.fs.files == s.fs.files - {[".tmp", p.tmp]} && t.procs == s.procs - {pid}
            && t.commits == s.commits && t.tainted == s.tainted && t.orphans == s.orphans
            && t.log == s.log + [Event(PutCall(p.job, p.got, Some(p.stage.why)), Failed(p.stage.why))]
  {
    hide ObjPath, MetaPath, StagePath, LookStep, MaySurvive, Admissible, MayWrite, ValidId, StagedNames, CrashOf;
  }

  /** A fault after the rename is swallowed: the put answers as stored and changes nothing more. */
  lemma FaultAfterRename(cfg: Config, s: Sys, pid: nat, noSpace: bool)
    requires pid in s.procs && s.procs[pid].Putting? && PastEffect(s.procs[pid])
    ensures Enabled(cfg, s, Fault(pid, noSpace))
    ensures var p := s.procs[pid]; var t := Next(cfg, s, Fault(pid, noSpace));
            && t.fs == s.fs && t.procs == s.procs - {pid} && t.commits == s.commits && t.orphans == s.orphans
            && t.log == s.log + [Event(PutCall(p.job, p.got, None), Stored(cfg.hash(p.got), |p.got|))]
            && t.tainted == if MetaPath(p.job.id) in s.fs.files then s.tainted + {p.job.id} else s.tainted
  {
    hide ObjPath, MetaPath, StagePath, LookStep;
  }

  /** A fault of the existence check makes the put go on; one of the cleanup orphans the staging file. */
  lemma FaultOfCheckOrCleanup(cfg: Config, s: Sys, pid: nat, noSpace: bool)
    requires pid in s.procs && s.procs[pid].Putting? && (s.procs[pid].stage.Check? || s.procs[pid].stage.Clean?)
    ensures Enabled(cfg, s, Fault(pid, noSpace))
    ensures var p := s.procs[pid]; var t := Next(cfg, s, Fault(pid, noSpace));
            && t.fs == s.fs && t.commits == s.commits && t.tainted == s.tainted
            && (p.stage.Check? ==> t.procs == s.procs[pid := p.(stage := Open)] && t.log == s.log)
            && (p.stage.Clean? ==>
                  && t.procs == s.procs - {pid} && t.orphans == s.orphans + {p.tmp}
                  && t.log == s.log + [Event(PutCall(p.job, p.got, Some(p.stage.why)), Failed(p.stage.why))])
  {
    hide ObjPath, MetaPath, StagePath, LookStep;
  }

  /**
   * A fault while an exclusive put describes what it found: one of the first two looks or of the hashing ends it with
   * an answer that lacks the etag, one of the sidecar's reading turns to the file.
   */
  lemma FaultOfExisting(cfg: Config, s: Sys, pid: nat, noSpace: bool)
    requires pid in s.procs && s.procs[pid].Putting? && s.procs[pid].stage.Found?
    ensures Enabled(cfg, s, Fault(pid, noSpace))
    ensures var p := s.procs[pid]; var look := p.stage.look; var t := Next(cfg, s, Fault(pid, noSpace));
            && t.fs == s.fs && t.commits == s.commits && t.tainted == s.tainted
            && (look.ReadSidecar? ==>
                  t.procs == s.procs[pid := p.(stage := Found(Rehash(look.size)))] && t.log == s.log)
            && (!look.ReadSidecar? ==>
                  && t.procs == s.procs - {pid}
                  && t.log == s.log + [Event(PutCall(p.job, [], None),
                                             Duplicate("", if look.Rehash? then look.size else 0))])
  {
    hide ObjPath, MetaPath, StagePath, MaySurvive, Admissible, MayWrite, ValidId, StagedNames, CrashOf;
  }

  // ---- Delete, get, sweep --------------------------------------------------

  /** A delete whose unlink of the object fails says there was none, and still takes the sidecar. */
  lemma FaultOfDelete(cfg: Config, s: Sys, pid: nat, noSpace: bool)
    requires pid in s.procs && s.procs[pid].Deleting?
    ensures Enabled(cfg, s, Fault(pid, noSpace))
    ensures var p := s.procs[pid]; var t := Next(cfg, s, Fault(pid, noSpace));
            && t.fs == s.fs
            && (p.gone.Some? ==>
                  t.procs == s.procs - {pid} && t.log == s.log + [Event(DeleteCall(p.id), Deleted(p.gone.value))])
            && (p.gone.None? ==>
                  && Enabled(cfg, t, Go(pid))
                  && var u := Next(cfg, t, Go(pid));
                     && u.fs.files == s.fs.files - {MetaPath(p.id)} && u.procs == s.procs - {pid}
                     && u.log == s.log + [Event(DeleteCall(p.id), Deleted(false))])
  {
    hide ObjPath, MetaPath;
    var t := Next(cfg, s, Fault(pid, noSpace));
    if s.procs[pid].gone.None? {
      assert s.procs[pid := t.procs[pid]] - {pid} == s.procs - {pid};
    }
  }

  /** A fault of the first look of a `get` answers nothing, one of the opening is an error. */
  lemma FaultOfGet(cfg: Config, s: Sys, pid: nat, noSpace: bool)
    requires pid in s.procs && s.procs[pid].Getting?
    ensures Enabled(cfg, s, Fault(pid, noSpace))
    ensures var p := s.procs[pid]; var t := Next(cfg, s, Fault(pid, noSpace));
            && t.fs == s.fs && t.procs == s.procs - {pid}
            && t.log == s.log + [Event(GetCall(p.id), if p.opening then Failed(IoError) else Data(None))]
  {
    hide ObjPath;
  }

  /** Undisturbed, a `get` yields the bytes that are there, and nothing when there are none. */
  lemma GetAlone(cfg: Config, s: Sys, pid: nat, id: Id)
    returns (steps: seq<Step>, t: Sys)
    requires Fresh(s, pid) && ValidId(id, cfg.settings.buckets)
    requires ObjPath(id) in s.fs.files ==> s.fs.files[ObjPath(id)].content.Bytes?
    ensures Runs(cfg, s, steps, t) && t.fs == s.fs
    ensures var found := if ObjPath(id) in s.fs.files then Some(s.fs.files[ObjPath(id)].content.data) else None;
            t.log == s.log + [Event(GetCall(id), Data(found))]
  {
    hide ObjPath, Runs, ValidId;
    RunsNothing(cfg, s);
    RunsSnoc(cfg, s, [], s, StartGet(pid, id));
    var t1 := Next(cfg, s, StartGet(pid, id));
    RunsSnoc(cfg, s, [] + [StartGet(pid, id)], t1, Go(pid));
    steps, t := [] + [StartGet(pid, id)] + [Go(pid)], Next(cfg, t1, Go(pid));
    if ObjPath(id) in s.fs.files {
      RunsSnoc(cfg, s, steps, t, Go(pid));
      steps, t := steps + [Go(pid)], Next(cfg, t, Go(pid));
    }
  }

  /** A sweep that cannot remove its victim goes on without it. */
  lemma FaultOfSweep(cfg: Config, s: Sys, pid: nat, noSpace: bool)
    requires pid in s.procs && s.procs[pid].Sweeping?
    ensures Enabled(cfg, s, Fault(pid, noSpace))
    ensures var p := s.procs[pid]; var t := Next(cfg, s, Fault(pid, noSpace));
            t.fs == s.fs && t.log == s.log && t.procs == s.procs[pid := Sweeping(p.cutoff, p.todo, None)]
  {
  }

  // ---- Head ----------------------------------------------------------------

  /** `head` on an unchanging tree whose actions meet these faults. */
  ghost function HeadFaulty(cfg: Config, fs: Fs, id: Id, look: Look, faults: seq<bool>): Option<ObjectInfo>
    decreases |faults|
  {
    if faults == [] then None
    else
      var looked := LookStep(cfg, fs, id, look, faults[0]);
      if looked.Seen? then looked.info else HeadFaulty(cfg, fs, id, looked.look, faults[1..])
  }

  lemma HeadFaultyUnfolds(cfg: Config, fs: Fs, id: Id, look: Look, faults: seq<bool>, first: bool)
    ensures HeadFaulty(cfg, fs, id, look, [first] + faults) ==
            var looked := LookStep(cfg, fs, id, look, first);
            if looked.Seen? then looked.info else HeadFaulty(cfg, fs, id, looked.look, faults)
  {
    hide LookStep;
    assert ([first] + faults)[1..] == faults;
  }

  /**
   * What faults do to `head`: one of its first two looks hides the object, one of the sidecar's reading makes the file
   * speak for itself, one of the hashing costs the etag.
   */
  lemma HeadUnderFaults(cfg: Config, fs: Fs, id: Id, stat: bool, isFile: bool, read: bool, hash: bool)
    requires ObjPath(id) in fs.files ==> fs.files[ObjPath(id)].content.Bytes?
    ensures HeadFaulty(cfg, fs, id, Stat, [stat, isFile, read, hash]) ==
            if stat || isFile || ObjPath(id) !in fs.files then None
            else if !read && MetaPath(id) in fs.files && fs.files[MetaPath(id)].content.Json?
            then HeadAnswer(cfg, fs, id)
            else
              var data := fs.files[ObjPath(id)].content.data;
              var etag := if hash || |data| > 104857600 then "" else cfg.hash(data);
              Some(ObjectInfo(|data|, cfg.guessMime(id.key), etag, map[]))
  {
    hide ObjPath, MetaPath, HeadFaulty, HeadAnswer;
    HeadAnswerIs(cfg, fs, id);
    assert [stat, isFile, read, hash] == [stat] + ([isFile] + ([read] + ([hash] + [])));
    HeadFaultyUnfolds(cfg, fs, id, Stat, [isFile] + ([read] + ([hash] + [])), stat);
    var size := if ObjPath(id) in fs.files then |DataOf(fs.files[ObjPath(id)])| else 0;
    HeadFaultyUnfolds(cfg, fs, id, IsFile(size), [read] + ([hash] + []), isFile);
    HeadFaultyUnfolds(cfg, fs, id, ReadSidecar(size), [hash] + [], read);
    HeadFaultyUnfolds(cfg, fs, id, Rehash(size), [], hash);
  }

  /** The same, as the actions of a call: what a fault makes of its next one. */
  lemma FaultOfHead(cfg: Config, s: Sys, pid: nat, noSpace: bool)
    requires pid in s.procs && s.procs[pid].Heading?
    ensures Enabled(cfg, s, Fault(pid, noSpace))
    ensures var p := s.procs[pid]; var t := Next(cfg, s, Fault(pid, noSpace));
            && t.fs == s.fs && t.tainted == s.tainted
            && (p.look.ReadSidecar? ==>
                  t.procs == s.procs[pid := Heading(p.id, Rehash(p.look.size))] && t.log == s.log)
            && (p.look.Stat? || p.look.IsFile? ==>
                  t.procs == s.procs - {pid} && t.log == s.log + [Event(HeadCall(p.id), Info(None))])
            && (p.look.Rehash? ==>
                  var info := ObjectInfo(p.look.size, cfg.guessMime(p.id.key), "", map[]);
                  t.procs == s.procs - {pid} && t.log == s.log + [Event(HeadCall(p.id), Info(Some(info)))])
  {
    hide ObjPath, MetaPath, StagePath, MaySurvive, Admissible, MayWrite, ValidId, StagedNames, CrashOf;
  }

  /** The next action of a `head` that meets no fault. */
  lemma HeadGoes(cfg: Config, s: Sys, pid: nat)
    requires pid in s.procs && s.procs[pid].Heading?
    ensures Enabled(cfg, s, Go(pid))
    ensures var p := s.procs[pid]; var t := Next(cfg, s, Go(pid));
            var looked := LookStep(cfg, s.fs, p.id, p.look, false);
            && t.fs == s.fs
            && (looked.More? ==> t.procs == s.procs[pid := Heading(p.id, looked.look)] && t.log == s.log)
            && (looked.Seen? ==>
                  t.procs == s.procs - {pid} && t.log == s.log + [Event(HeadCall(p.id), Info(looked.info))])
  {
    hide LookStep, MaySurvive, Admissible, MayWrite, ValidId, StagedNames, CrashOf;
  }

  lemma {:induction false} LooksOn(cfg: Config, start: Sys, before: seq<Step>, s: Sys, pid: nat, id: Id, look: Look)
    returns (steps: seq<Step>, t: Sys)
    requires Runs(cfg, start, before, s) && pid in s.procs && s.procs[pid] == Heading(id, look)
    ensures Runs(cfg, start, steps, t) && t.fs == s.fs && t.procs == s.procs - {pid}
    ensures t.log == s.log + [Event(HeadCall(id), Info(HeadFrom(cfg, s.fs, id, look)))]
    decreases LookRank(look)
  {
    hide Runs, LookStep, Enabled, Next, HeadFrom;
    HeadGoes(cfg, s, pid);
    LookGoesOn(cfg, s.fs, id, look);
    RunsSnoc(cfg, start, before, s, Go(pid));
    steps, t := before + [Go(pid)], Next(cfg, s, Go(pid));
    var looked := LookStep(cfg, s.fs, id, look, false);
    if looked.More? {
      var going := t;
      steps, t := LooksOn(cfg, start, steps, t, pid, id, looked.look);
      assert going.procs - {pid} == s.procs - {pid};
    }
  }

  /** An undisturbed call of `head` logs what `head` says of the tree. */
  lemma HeadAlone(cfg: Config, s: Sys, pid: nat, id: Id) returns (steps: seq<Step>, t: Sys)
    requires Fresh(s, pid) && ValidId(id, cfg.settings.buckets)
    ensures Runs(cfg, s, steps, t) && t.fs == s.fs && t.procs == s.procs
    ensures t.log == s.log + [Event(HeadCall(id), Info(HeadAnswer(cfg, s.fs, id)))]
  {
    hide Runs, LookStep, ValidId, HeadFrom, MaySurvive, Admissible, MayWrite, StagedNames, CrashOf;
    RunsNothing(cfg, s);
    RunsSnoc(cfg, s, [], s, StartHead(pid, id));
    var asked := Next(cfg, s, StartHead(pid, id));
    HeadStarts(cfg, s.fs, id);
    steps, t := LooksOn(cfg, s, [] + [StartHead(pid, id)], asked, pid, id, Stat);
    assert asked.procs - {pid} == s.procs;
  }

  // ---- The environment -----------------------------------------------------

  /** What a put has yielded may reach its staging file later: any beginning not shorter than what is there. */
  lemma WritesMayLag(cfg: Config, s: Sys, pid: nat, chunk: seq<Byte>, reached: nat)
    requires pid in s.procs && s.procs[pid].Putting? && s.procs[pid].stage.Stream? && chunk != []
    requires |s.procs[pid].got| + |chunk| <= s.procs[pid].job.cap && reached <= |s.procs[pid].got| + |chunk|
    requires [".tmp", s.procs[pid].tmp] in s.fs.files
    requires |DataOf(s.fs.files[[".tmp", s.procs[pid].tmp]])| <= reached
    ensures Enabled(cfg, s, Feed(pid, chunk, reached))
    ensures var p := s.procs[pid]; var t := Next(cfg, s, Feed(pid, chunk, reached));
            && [".tmp", p.tmp] in t.fs.files
            && t.fs.files[[".tmp", p.tmp]] == File(Bytes((p.got + chunk)[..reached]), false, s.now)
            && t.procs == s.procs[pid := p.(got := p.got + chunk)]
  {
    assert TmpPath(s.procs[pid].tmp) == [".tmp", s.procs[pid].tmp];
  }

  lemma OnePlaceSurvives(cfg: Config, s: Sys, p: Path, i: nat, file: File)
    requires Inv(cfg, s) && i <= |s.past| && HeldFile((s.past + [s.fs])[i], p, file)
    requires p != [] && Parent(p) in s.fs.dirs && p !in s.fs.dirs
    ensures Enabled(cfg, s, PowerLoss(s.fs.(files := s.fs.files[p := file])))
    ensures Enabled(cfg, s, PowerLoss(s.fs.(files := s.fs.files - {p})))
  {
    hide GoodTree, GoodSidecars, GoodCommits, GoodProc, Distinct, Owned, Survives;
    forall q | q in s.fs.files ensures HeldFile((s.past + [s.fs])[|s.past|], q, s.fs.files[q]) {
      SurvivesAsItIs(s.fs.files[q]);
    }
  }

  lemma SurvivesAsItIs(f: File)
    ensures Survives(f, f)
  {
  }

  /**
   * A power loss may leave any one place as some earlier tree had it, which undoes renames and unlinks, and then any
   * beginning of bytes that were not synced; or nothing at all there. It ends every operation.
   */
  lemma PowerLossMayLeave(cfg: Config, s: Sys, p: Path, i: nat, n: nat)
    requires Reachable(cfg, s) && i <= |s.past| && p in (s.past + [s.fs])[i].files
    requires p != [] && Parent(p) in s.fs.dirs && p !in s.fs.dirs
    ensures var was := (s.past + [s.fs])[i].files[p];
            && Enabled(cfg, s, PowerLoss(s.fs.(files := s.fs.files - {p})))
            && Enabled(cfg, s, PowerLoss(s.fs.(files := s.fs.files[p := was])))
            && (!was.synced && was.content.Bytes? && n <= |was.content.data| ==>
                  var torn := File(Bytes(was.content.data[..n]), false, was.mtime);
                  Enabled(cfg, s, PowerLoss(s.fs.(files := s.fs.files[p := torn]))))
    ensures forall fs :: Enabled(cfg, s, PowerLoss(fs)) ==>
              Next(cfg, s, PowerLoss(fs)).procs == map[] && Next(cfg, s, PowerLoss(fs)).fs == fs
  {
    hide Reachable, Inv, MaySurvive, StagedNames;
    ReachableInv(cfg, s);
    var was := (s.past + [s.fs])[i].files[p];
    SurvivesAsItIs(was);
    OnePlaceSurvives(cfg, s, p, i, was);
    if !was.synced && was.content.Bytes? && n <= |was.content.data| {
      OnePlaceSurvives(cfg, s, p, i, File(Bytes(was.content.data[..n]), false, was.mtime));
    }
  }
}
