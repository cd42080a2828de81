/**
 * The driver as a transition system (src/drivers/local_fs.py, src/drivers/paths.py). Every operation is a
 * small program whose steps are single operating-system actions, and every step may be followed by a step of
 * any other operation, by a fault, by a crash of some worker processes, or by a power loss.
 */
module Machine {
  import opened Strings
  import opened Options
  import opened Layout
  import opened FileSystem
  import opened Policy

  const ETAG_FALLBACK_MAX_BYTES := 100 * 1024 * 1024
  const STALE_AFTER := 3600
  const UUID_LENGTH := 32

  /** `hash` stands for the hexadecimal SHA-256 and `guessMime` for the extension table: nothing is known of them. */
  datatype Config = Config(settings: Settings, hash: seq<Byte> -> string, guessMime: string -> string, nameMax: nat)

  datatype Failure = TooLarge | SourceBroken | NoSpace | IoError

  datatype ObjectInfo = ObjectInfo(bytes: nat, contentType: string, etag: string, metadata: map<string, string>)

  datatype Answer =
    | Stored(etag: string, bytes: nat)
    | Duplicate(etag: string, bytes: nat)
    | Failed(why: Failure)
    | Deleted(existed: bool)
    | Info(info: Option<ObjectInfo>)
    | Data(data: Option<seq<Byte>>)

  /** A finished call; `broke` says why a put gave up before its rename. */
  datatype Call =
    | PutCall(job: Job, payload: seq<Byte>, broke: Option<Failure>)
    | DeleteCall(id: Id)
    | HeadCall(id: Id)
    | GetCall(id: Id)

  datatype Event = Event(call: Call, answer: Answer)

  /** The actions of `head`, in order: stat, isfile, read the sidecar, hash the file. */
  datatype Look = Stat | IsFile(size: nat) | ReadSidecar(size: nat) | Rehash(size: nat)

  datatype Stage =
    | Check
    | Found(look: Look)
    | Open
    | Stream
    | Dirs(depth: nat)
    | Install
    | Clean(why: Failure)
    | SideDirs(depth: nat)
    | SideOpen
    | SideWrite
    | SideInstall

  datatype Proc =
    | Putting(job: Job, tmp: string, hex: string, got: seq<Byte>, stage: Stage)
    | Deleting(id: Id, who: Principal, gone: Option<bool>)
    | Heading(id: Id, look: Look)
    | Getting(id: Id, opening: bool)
    | Sweeping(cutoff: int, todo: set<string>, victim: Option<string>)

  /** A put that reached its rename. */
  datatype Commit = Commit(job: Job, payload: seq<Byte>)

  /**
   * `past` is every earlier tree, `commits` every rename of an object, `log` every answer. `orphans` names staging
   * files nobody will unlink. A writer is `solo` while no other writer has overlapped it; a key is `tainted` from the
   * moment something the sidecar cannot survive happens to it until a solo writer completes on it.
   */
  datatype Sys = Sys(
    fs: Fs,
    now: int,
    procs: map<nat, Proc>,
    issued: set<string>,
    past: seq<Fs>,
    commits: seq<Commit>,
    log: seq<Event>,
    orphans: set<string>,
    solo: set<nat>,
    tainted: set<Id>,
    powerLost: bool)

  datatype Step =
    | StartPut(pid: nat, job: Job, tmp: string, hex: string)
    | StartDelete(pid: nat, id: Id, who: Principal)
    | StartHead(pid: nat, id: Id)
    | StartGet(pid: nat, id: Id)
    | StartSweep(pid: nat)
    | Feed(pid: nat, chunk: seq<Byte>, reached: nat)
    | Break(pid: nat)
    | Test(pid: nat, name: string)
    | Go(pid: nat)
    | Fault(pid: nat, noSpace: bool)
    | Tick(seconds: nat)
    | Crash(pids: set<nat>)
    | PowerLoss(survivors: Fs)

  // ---- Records -------------------------------------------------------------

  function RecordOf(cfg: Config, c: Commit): Record
  {
    Record(c.job.contentType, cfg.hash(c.payload), |c.payload|,
           if "uploader" in c.job.metadata then c.job.metadata["uploader"] else "", c.job.metadata)
  }

  function DataOf(f: File): seq<Byte> { if f.content.Bytes? then f.content.data else [] }

  // ---- Operations over several actions -------------------------------------

  datatype Looked = More(look: Look) | Seen(info: Option<ObjectInfo>)

  function FallbackInfo(cfg: Config, id: Id, size: nat, etag: string): ObjectInfo
  {
    ObjectInfo(size, cfg.guessMime(id.key), etag, map[])
  }

  function SidecarInfo(cfg: Config, id: Id, r: Record): ObjectInfo
  {
    ObjectInfo(r.bytes, if r.contentType != "" then r.contentType else cfg.guessMime(id.key), r.etag, r.metadata)
  }

  /** One action of `head`; with `fault` the action ends in an OSError. */
  function LookStep(cfg: Config, fs: Fs, id: Id, look: Look, fault: bool): Looked
  {
    var obj := ObjPath(id);
    match look
    case Stat =>
      if fault || !Exists(fs, obj) then Seen(None)
      else More(IsFile(if obj in fs.files then |DataOf(fs.files[obj])| else 0))
    case IsFile(size) => if fault || obj !in fs.files then Seen(None) else More(ReadSidecar(size))
    case ReadSidecar(size) =>
      if !fault && MetaPath(id) in fs.files && fs.files[MetaPath(id)].content.Json?
      then Seen(Some(SidecarInfo(cfg, id, fs.files[MetaPath(id)].content.record)))
      else More(Rehash(size))
    case Rehash(size) =>
      var unread := fault || size > ETAG_FALLBACK_MAX_BYTES || obj !in fs.files;
      var etag := if unread then "" else cfg.hash(DataOf(fs.files[obj]));
      Seen(Some(FallbackInfo(cfg, id, size, etag)))
  }

  predicate Writes(p: Proc, id: Id)
  {
    (p.Putting? && p.job.id == id) || (p.Deleting? && p.id == id)
  }

  /** A staging file under `.tmp` exists between these stages of its put. */
  predicate HoldsTmp(p: Proc)
  {
    p.Putting? && (p.stage.Stream? || p.stage.Dirs? || p.stage.Install? || p.stage.Clean?)
  }

  /** The writer has renamed or unlinked its object and not yet dealt with the sidecar. */
  predicate PastEffect(p: Proc)
  {
    || (p.Putting? && (p.stage.SideDirs? || p.stage.SideOpen? || p.stage.SideWrite? || p.stage.SideInstall?))
    || (p.Deleting? && p.gone.Some?)
  }

  // ---- Actions -------------------------------------------------------------

  /** What one action does to the tree. */
  datatype Change =
    | Keep
    | Write(path: Path, file: File)
    | MakeDir(path: Path)
    | Move(from: Path, to: Path)
    | Remove(path: Path)

  function Apply(fs: Fs, change: Change): Fs
  {
    match change
    case Keep => fs
    case Write(path, file) => Put(fs, path, file)
    case MakeDir(path) => Mkdir(fs, path)
    case Move(from, to) => if from in fs.files then Rename(fs, from, to) else fs
    case Remove(path) => Unlink(fs, path)
  }

  /** What becomes of the operation. */
  datatype After = Stay(proc: Proc) | Done(call: Call, answer: Answer) | Gone

  /** What the action means for the history. */
  datatype Mark = NoMark | Commits(commit: Commit) | Taints(id: Id) | Heals(id: Id) | Orphans(name: string)

  datatype Act = Act(change: Change, after: After, mark: Mark)

  function Perform(s: Sys, pid: nat, act: Act): Sys
  {
    Sys(
      Apply(s.fs, act.change),
      s.now,
      if act.after.Stay? then s.procs[pid := act.after.proc] else s.procs - {pid},
      s.issued,
      s.past,
      if act.mark.Commits? then s.commits + [act.mark.commit] else s.commits,
      if act.after.Done? then s.log + [Event(act.after.call, act.after.answer)] else s.log,
      if act.mark.Orphans? then s.orphans + {act.mark.name} else s.orphans,
      if act.after.Stay? then s.solo else s.solo - {pid},
      if act.mark.Taints? then s.tainted + {act.mark.id}
      else if act.mark.Heals? && pid in s.solo then s.tainted - {act.mark.id}
      else s.tainted,
      s.powerLost)
  }

  function Quiet(p: Proc): Act { Act(Keep, Stay(p), NoMark) }

  // ---- Put -----------------------------------------------------------------

  function PutDone(cfg: Config, p: Proc): After
    requires p.Putting?
  {
    Done(PutCall(p.job, p.got, None), Stored(cfg.hash(p.got), |p.got|))
  }

  function PutFails(p: Proc, why: Failure): Act
    requires p.Putting?
  {
    Quiet(p.(stage := Clean(why)))
  }

  /** Any OSError while writing the sidecar is swallowed; an older sidecar then no longer matches. */
  function SidecarFailed(cfg: Config, fs: Fs, p: Proc): Act
    requires p.Putting?
  {
    Act(Keep, PutDone(cfg, p), if MetaPath(p.job.id) in fs.files then Taints(p.job.id) else NoMark)
  }

  function LookExisting(cfg: Config, fs: Fs, p: Proc, fault: bool): Act
    requires p.Putting? && p.stage.Found?
  {
    match LookStep(cfg, fs, p.job.id, p.stage.look, fault)
    case More(look) => Quiet(p.(stage := Found(look)))
    case Seen(info) =>
      Act(Keep,
          Done(PutCall(p.job, [], None), if info.Some? then Duplicate(info.value.etag,
                                                                      info.value.bytes) else Duplicate("", 0)),
          NoMark)
  }

  /** The file at `path`, if it is still there, replaced by what an open handle to it wrote. */
  function Rewrite(fs: Fs, path: Path, file: File): Change
  {
    if path in fs.files then Write(path, file) else Keep
  }

  function PutGo(cfg: Config, fs: Fs, now: int, p: Proc): Act
    requires p.Putting?
  {
    var obj := ObjPath(p.job.id);
    var meta := MetaPath(p.job.id);
    var tmp := TmpPath(p.tmp);
    var side := StagePath(p.job.id, p.hex);
    match p.stage
    case Check => Quiet(p.(stage := if Exists(fs, obj) then Found(Stat) else Open))
    case Found(_) => LookExisting(cfg, fs, p, false)
    case Open =>
      if MayCreate(fs, tmp, cfg.nameMax)
      then Act(Write(tmp, File(Bytes([]), false, now)), Stay(p.(stage := Stream)), NoMark)
      else PutFails(p, IoError)
    case Stream => Act(Rewrite(fs, tmp, File(Bytes(p.got), true, now)), Stay(p.(stage := Dirs(0))), NoMark)
    case Dirs(depth) =>
      if depth >= |obj| - 1 then Quiet(p.(stage := Install))
      else if MayMkdir(fs, obj[..depth + 1], cfg.nameMax)
      then Act(MakeDir(obj[..depth + 1]), Stay(p.(stage := Dirs(depth + 1))), NoMark)
      else PutFails(p, IoError)
    case Install =>
      if MayRename(fs, tmp, obj, cfg.nameMax)
      then Act(Move(tmp, obj), Stay(p.(stage := SideDirs(0))), Commits(Commit(p.job, p.got)))
      else PutFails(p, IoError)
    case Clean(why) => Act(Remove(tmp), Done(PutCall(p.job, p.got, Some(why)), Failed(why)), NoMark)
    case SideDirs(depth) =>
      if depth >= |meta| - 1 then Quiet(p.(stage := SideOpen))
      else if MayMkdir(fs, meta[..depth + 1], cfg.nameMax)
      then Act(MakeDir(meta[..depth + 1]), Stay(p.(stage := SideDirs(depth + 1))), NoMark)
      else SidecarFailed(cfg, fs, p)
    case SideOpen =>
      if MayCreate(fs, side, cfg.nameMax)
      then Act(Write(side, File(Torn, false, now)), Stay(p.(stage := SideWrite)), NoMark)
      else SidecarFailed(cfg, fs, p)
    case SideWrite =>
      Act(Rewrite(fs, side, File(Json(RecordOf(cfg, Commit(p.job, p.got))), false, now)),
          Stay(p.(stage := SideInstall)), NoMark)
    case SideInstall =>
      if MayRename(fs, side, meta, cfg.nameMax) then Act(Move(side, meta), PutDone(cfg, p), Heals(p.job.id))
      else SidecarFailed(cfg, fs, p)
  }

  /** The next action of a put ends in an OSError. */
  function PutFault(cfg: Config, fs: Fs, p: Proc, noSpace: bool): Act
    requires p.Putting?
  {
    match p.stage
    case Check => Quiet(p.(stage := Open))
    case Found(_) => LookExisting(cfg, fs, p, true)
    case Open | Stream | Dirs(_) | Install => PutFails(p, if noSpace then NoSpace else IoError)
    case Clean(why) => Act(Keep, Done(PutCall(p.job, p.got, Some(why)), Failed(why)), Orphans(p.tmp))
    case SideDirs(_) | SideOpen | SideWrite | SideInstall => SidecarFailed(cfg, fs, p)
  }

  /** The source yields a chunk: counted against the cap, hashed, and written through the open handle. */
  function PutFeed(fs: Fs, now: int, p: Proc, chunk: seq<Byte>, reached: nat): Act
    requires p.Putting? && reached <= |p.got| + |chunk|
  {
    if |p.got| + |chunk| > p.job.cap then PutFails(p, TooLarge)
    else if chunk == [] then Quiet(p)
    else
      var got := p.got + chunk;
      Act(Rewrite(fs, TmpPath(p.tmp), File(Bytes(got[..reached]), false, now)), Stay(p.(got := got)), NoMark)
  }

  // ---- Delete, reads, sweep ------------------------------------------------

  function DeleteGo(fs: Fs, p: Proc): Act
    requires p.Deleting?
  {
    match p.gone
    case None => Act(Remove(ObjPath(p.id)), Stay(p.(gone := Some(ObjPath(p.id) in fs.files))), NoMark)
    case Some(existed) => Act(Remove(MetaPath(p.id)), Done(DeleteCall(p.id), Deleted(existed)), Heals(p.id))
  }

  function DeleteFault(fs: Fs, p: Proc): Act
    requires p.Deleting?
  {
    match p.gone
    case None => Quiet(p.(gone := Some(false)))
    case Some(existed) =>
      Act(Keep, Done(DeleteCall(p.id), Deleted(existed)), if MetaPath(p.id) in fs.files then Taints(p.id) else NoMark)
  }

  function HeadGo(cfg: Config, fs: Fs, p: Proc, fault: bool): Act
    requires p.Heading?
  {
    match LookStep(cfg, fs, p.id, p.look, fault)
    case More(look) => Quiet(p.(look := look))
    case Seen(info) => Act(Keep, Done(HeadCall(p.id), Info(info)), NoMark)
  }

  /** Once open, the stream reads one unchanging file to its end. */
  function GetGo(fs: Fs, p: Proc, fault: bool): Act
    requires p.Getting?
  {
    var obj := ObjPath(p.id);
    var there := !fault && obj in fs.files;
    if !p.opening then
      if there then Quiet(p.(opening := true)) else Act(Keep, Done(GetCall(p.id), Data(None)), NoMark)
    else if there then Act(Keep, Done(GetCall(p.id), Data(Some(DataOf(fs.files[obj])))), NoMark)
    else Act(Keep, Done(GetCall(p.id), Failed(IoError)), NoMark)
  }

  function StagedNames(fs: Fs): set<string> { set p | p in fs.files && InTmp(p) && |p| == 2 :: p[1] }

  predicate Stale(fs: Fs, name: string, cutoff: int)
  {
    TmpPath(name) in fs.files && fs.files[TmpPath(name)].mtime < cutoff
  }

  function SweepTest(fs: Fs, p: Proc, name: string): Act
    requires p.Sweeping?
  {
    Quiet(p.(todo := p.todo - {name}, victim := if Stale(fs, name, p.cutoff) then Some(name) else None))
  }

  function SweepGo(p: Proc): Act
    requires p.Sweeping?
  {
    if p.victim.Some? then Act(Remove(TmpPath(p.victim.value)), Stay(p.(victim := None)), NoMark)
    else Act(Keep, Gone, NoMark)
  }

  // ---- Crashes -------------------------------------------------------------

  /** A writer past its effect whose key still has a sidecar. */
  predicate LeavesSidecar(fs: Fs, p: Proc) { PastEffect(p) && MetaPath(WriterId(p)) in fs.files }

  /** Some worker processes die: their operations stop where they are. */
  function CrashOf(s: Sys, pids: set<nat>): Sys
  {
    var dead := s.procs.Keys * pids;
    s.(procs := s.procs - pids,
       solo := s.solo - pids,
       orphans := s.orphans + set q | q in dead && HoldsTmp(s.procs[q]) :: s.procs[q].tmp,
       tainted := s.tainted + set q | q in dead && LeavesSidecar(s.fs, s.procs[q]) :: WriterId(s.procs[q]))
  }

  function WriterId(p: Proc): Id
    requires p.Putting? || p.Deleting?
  {
    if p.Putting? then p.job.id else p.id
  }

  /** What a power loss may leave of a file: all of it if it was synced, else any beginning of it. */
  predicate Survives(before: File, after: File)
  {
    if before.synced then after == before
    else match before.content
      case Bytes(d) => after.content.Bytes? && after.content.data <= d
      case Json(_) => after.content == before.content || after.content.Torn?
      case Torn => after.content.Torn?
  }

  /** `after` is what survives of the file the tree had at `p`. */
  predicate HeldFile(fs: Fs, p: Path, after: File) { p in fs.files && Survives(fs.files[p], after) }

  predicate LayoutDirs(settings: Settings, fs: Fs)
  {
    && [TMP_DIR] in fs.dirs && [META_DIR] in fs.dirs
    && forall i :: 0 <= i < |settings.buckets| ==>
          [settings.buckets[i]] in fs.dirs && [META_DIR, settings.buckets[i]] in fs.dirs
  }

  /**
   * The tree after a power loss and the next start: a well-formed tree of directories that were there or belong to the
   * layout, in which each file is what survives of a file that some earlier tree had at that path. Renames and
   * unlinks may be undone, files may be missing.
   */
  ghost predicate MaySurvive(cfg: Config, s: Sys, fs: Fs)
  {
    && WellFormed(fs) && LayoutDirs(cfg.settings, fs)
    && (forall p :: p in fs.files ==>
          exists i :: 0 <= i <= |s.past| && HeldFile((s.past + [s.fs])[i], p, fs.files[p]))
  }

  function PowerLossOf(s: Sys, fs: Fs): Sys
  {
    s.(fs := fs, procs := map[], solo := {}, orphans := StagedNames(fs), powerLost := true)
  }

  // ---- The transition relation ---------------------------------------------

  ghost predicate Fresh(s: Sys, pid: nat) { pid !in s.procs && pid !in s.solo }

  ghost predicate Enabled(cfg: Config, s: Sys, step: Step)
  {
    match step
    case StartPut(pid, job, tmp, hex) =>
      && Fresh(s, pid) && Admissible(cfg.settings, job)
      && tmp !in s.issued && hex !in s.issued && tmp != hex && |tmp| == |hex| == UUID_LENGTH
    case StartDelete(pid, id, who) => Fresh(s, pid) && MayWrite(cfg.settings, who, id)
    case StartHead(pid, id) => Fresh(s, pid) && ValidId(id, cfg.settings.buckets)
    case StartGet(pid, id) => Fresh(s, pid) && ValidId(id, cfg.settings.buckets)
    case StartSweep(pid) => Fresh(s, pid)
    case Feed(pid, chunk, reached) =>
      && pid in s.procs && s.procs[pid].Putting? && s.procs[pid].stage.Stream?
      && reached <= |s.procs[pid].got| + |chunk|
      && (TmpPath(s.procs[pid].tmp) in s.fs.files ==> |DataOf(s.fs.files[TmpPath(s.procs[pid].tmp)])| <= reached)
    case Break(pid) => pid in s.procs && s.procs[pid].Putting? && s.procs[pid].stage.Stream?
    case Test(pid, name) =>
      pid in s.procs && s.procs[pid].Sweeping? && name in s.procs[pid].todo && s.procs[pid].victim.None?
    case Go(pid) => pid in s.procs && (s.procs[pid].Sweeping? ==> s.procs[pid].victim.Some? || s.procs[pid].todo == {})
    case Fault(pid, _) => pid in s.procs
    case Tick(_) => true
    case Crash(_) => true
    case PowerLoss(survivors) => MaySurvive(cfg, s, survivors)
  }

  function GoAct(cfg: Config, fs: Fs, now: int, p: Proc): Act
  {
    match p
    case Putting(_, _, _, _, _) => PutGo(cfg, fs, now, p)
    case Deleting(_, _, _) => DeleteGo(fs, p)
    case Heading(_, _) => HeadGo(cfg, fs, p, false)
    case Getting(_, _) => GetGo(fs, p, false)
    case Sweeping(_, _, _) => SweepGo(p)
  }

  function FaultAct(cfg: Config, fs: Fs, p: Proc, noSpace: bool): Act
  {
    match p
    case Putting(_, _, _, _, _) => PutFault(cfg, fs, p, noSpace)
    case Deleting(_, _, _) => DeleteFault(fs, p)
    case Heading(_, _) => HeadGo(cfg, fs, p, true)
    case Getting(_, _) => GetGo(fs, p, true)
    case Sweeping(_, _, _) => Quiet(p.(victim := None))
  }

  /** A step that is the next action of one operation. */
  predicate Acts(step: Step) { step.Go? || step.Fault? || step.Feed? || step.Break? || step.Test? }

  ghost function ActOf(cfg: Config, s: Sys, step: Step): Act
    requires Acts(step) && Enabled(cfg, s, step)
  {
    var p := s.procs[step.pid];
    match step
    case Feed(_, chunk, reached) => PutFeed(s.fs, s.now, p, chunk, reached)
    case Break(_) => PutFails(p, SourceBroken)
    case Test(_, name) => SweepTest(s.fs, p, name)
    case Go(_) => GoAct(cfg, s.fs, s.now, p)
    case Fault(_, noSpace) => FaultAct(cfg, s.fs, p, noSpace)
  }

  function StartWriter(s: Sys, pid: nat, id: Id, p: Proc): Sys
  {
    var others := set q | q in s.procs && Writes(s.procs[q], id);
    s.(procs := s.procs[pid := p],
       solo := if others == {} then s.solo + {pid} else s.solo - others,
       tainted := if others == {} then s.tainted else s.tainted + {id})
  }

  function Start(s: Sys, pid: nat, p: Proc): Sys { s.(procs := s.procs[pid := p]) }

  ghost function Effect(cfg: Config, s: Sys, step: Step): Sys
    requires Enabled(cfg, s, step)
  {
    match step
    case StartPut(pid, job, tmp, hex) =>
      StartWriter(s.(issued := s.issued + {tmp, hex}), pid, job.id, Putting(job, tmp, hex, [],
                                                                            if job.exclusive then Check else Open))
    case StartDelete(pid, id, who) => StartWriter(s, pid, id, Deleting(id, who, None))
    case StartHead(pid, id) => Start(s, pid, Heading(id, Stat))
    case StartGet(pid, id) => Start(s, pid, Getting(id, false))
    case StartSweep(pid) => Start(s, pid, Sweeping(s.now - STALE_AFTER, StagedNames(s.fs), None))
    case Tick(seconds) => s.(now := s.now + seconds)
    case Crash(pids) => CrashOf(s, pids)
    case PowerLoss(survivors) => PowerLossOf(s, survivors)
    case _ => Perform(s, step.pid, ActOf(cfg, s, step))
  }

  /** One step, remembering the tree it left. */
  ghost function Next(cfg: Config, s: Sys, step: Step): Sys
    requires Enabled(cfg, s, step)
  {
    Effect(cfg, s, step).(past := s.past + [s.fs])
  }

  /** The i-th step leads from the i-th state to the next. */
  ghost predicate Leads(cfg: Config, states: seq<Sys>, steps: seq<Step>, i: nat)
    requires i < |steps| < |states|
  {
    Enabled(cfg, states[i], steps[i]) && states[i + 1] == Next(cfg, states[i], steps[i])
  }

  /** The states a run passes through. */
  ghost predicate Visits(cfg: Config, s: Sys, states: seq<Sys>, steps: seq<Step>, t: Sys)
  {
    && |states| == |steps| + 1 && states[0] == s && states[|steps|] == t
    && forall i {:trigger Leads(cfg, states, steps, i)} :: 0 <= i < |steps| ==> Leads(cfg, states, steps, i)
  }

  /** `t` is what the steps make of `s`. */
  ghost predicate Runs(cfg: Config, s: Sys, steps: seq<Step>, t: Sys)
  {
    exists states: seq<Sys> :: Visits(cfg, s, states, steps, t)
  }

  /** A freshly laid out store. */
  ghost predicate Initial(cfg: Config, s: Sys)
  {
    && WellFormed(s.fs) && LayoutDirs(cfg.settings, s.fs) && s.fs.files == map[]
    && s.procs == map[] && s.issued == {} && s.past == [] && s.commits == [] && s.log == []
    && s.orphans == {} && s.solo == {} && s.tainted == {} && !s.powerLost
  }

  ghost predicate Reachable(cfg: Config, s: Sys)
  {
    exists init: Sys, steps: seq<Step> :: Initial(cfg, init) && Runs(cfg, init, steps, s)
  }

  lemma RunsNothing(cfg: Config, s: Sys)
    ensures Runs(cfg, s, [], s)
  {
    assert Visits(cfg, s, [s], [], s);
  }

  /** A run is nothing, or a step and a run. */
  lemma RunsUnfold(cfg: Config, s: Sys, steps: seq<Step>, t: Sys)
    requires Runs(cfg, s, steps, t)
    ensures steps == [] ==> s == t
    ensures steps != [] ==> Enabled(cfg, s, steps[0]) && Runs(cfg, Next(cfg, s, steps[0]), steps[1..], t)
  {
    hide Enabled, Next;
    var states :| Visits(cfg, s, states, steps, t);
    if steps != [] {
      assert Leads(cfg, states, steps, 0);
      forall i | 0 <= i < |steps[1..]| ensures Leads(cfg, states[1..], steps[1..], i) {
        assert Leads(cfg, states, steps, i + 1);
      }
      assert Visits(cfg, Next(cfg, s, steps[0]), states[1..], steps[1..], t);
    }
  }

  lemma RunsSnoc(cfg: Config, s: Sys, steps: seq<Step>, t: Sys, step: Step)
    requires Runs(cfg, s, steps, t) && Enabled(cfg, t, step)
    ensures Runs(cfg, s, steps + [step], Next(cfg, t, step))
  {
    hide Enabled, Next;
    var states :| Visits(cfg, s, states, steps, t);
    var more, longer := states + [Next(cfg, t, step)], steps + [step];
    forall i | 0 <= i < |longer| ensures Leads(cfg, more, longer, i) {
      if i < |steps| {
        assert Leads(cfg, states, steps, i);
      }
    }
    assert Visits(cfg, s, more, longer, Next(cfg, t, step));
  }
}
