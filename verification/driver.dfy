/**
 * The driver as its users call it (src/drivers/local_fs.py): an object whose methods change a file tree step by
 * step. Each method also walks the transition system of `Machine`, one step per operating-system action, so
 * every execution of the driver is a run of that system and keeps all that is proved of its runs.
 */
module Driver {
  import opened Strings
  import opened Options
  import opened Layout
  import opened FileSystem
  import opened Policy
  import opened Machine
  import opened Safety
  import opened Agreement
  import opened Calm
  import opened Listing
  import opened Pages

  const CHUNK_SIZE := 1024 * 1024

  /** A file on the way to the object: `makedirs` or the rename must fail. */
  ghost predicate Blocked(fs: Fs, target: Path)
  {
    target in fs.dirs || FileOnTheWay(fs, target)
  }

  ghost predicate FileOnTheWay(fs: Fs, target: Path)
  {
    exists n :: 0 < n < |target| && target[..n] in fs.files
  }

  /** The answer of a put that runs alone and meets no fault, whatever its chunking. */
  ghost function PutAnswer(cfg: Config, fs: Fs, job: Job, payload: seq<Byte>, broken: bool): Answer
  {
    if job.exclusive && Exists(fs, ObjPath(job.id)) then
      var info := HeadAnswer(cfg, fs, job.id);
      if info.Some? then Duplicate(info.value.etag, info.value.bytes) else Duplicate("", 0)
    else if |payload| > job.cap then Failed(TooLarge)
    else if broken then Failed(SourceBroken)
    else if Blocked(fs, ObjPath(job.id)) then Failed(IoError)
    else Stored(cfg.hash(payload), |payload|)
  }

  /** Outside `at` the two trees hold the same files. */
  ghost predicate OnlyAt(fs: Fs, fs': Fs, at: set<Path>)
  {
    forall q :: q !in at ==> SameAt(fs, fs', q)
  }

  /** One event was logged, with this answer. */
  ghost predicate Answered(log: seq<Event>, log': seq<Event>, answer: Answer)
  {
    exists call :: log' == log + [Event(call, answer)]
  }

  lemma AnsweredNow(log: seq<Event>, event: Event)
    ensures Answered(log, log + [event], event.answer)
  {
    assert event == Event(event.call, event.answer);
  }

  /** Nothing stands in the way of the sidecar, and its staging name is short enough. */
  ghost predicate SidecarFits(cfg: Config, fs: Fs, id: Id)
  {
    && !Blocked(fs, MetaPath(id))
    && |Last(MetaPath(id))| + UUID_LENGTH + 5 <= cfg.nameMax
  }

  /** Exactly when a sidecar fits: its staging name is 42 characters longer than the key's last segment. */
  lemma SidecarFitsExact(cfg: Config, fs: Fs, id: Id)
    ensures var meta := [".meta", id.bucket] + Split(id.key + ".json", '/');
            SidecarFits(cfg, fs, id) <==>
              && |Last(Split(id.key, '/'))| + 42 <= cfg.nameMax
              && meta !in fs.dirs && forall n :: 0 < n < |meta| ==> meta[..n] !in fs.files
  {
    hide Split;
    SidecarNameLength(id);
    assert Last(ObjPath(id)) == Last(Split(id.key, '/'));
  }

  /**
   * What a put leaves: a failed or deduplicated one no trace among the files; a stored one its payload at its object
   * and, when the sidecar fits, its record beside it. Nothing else changes, save a sidecar staging file left behind.
   */
  ghost predicate PutLeaves(cfg: Config, fs: Fs, fs': Fs, job: Job, hex: string, payload: seq<Byte>, answer: Answer)
  {
    && fs.dirs <= fs'.dirs
    && (!answer.Stored? ==> fs'.files == fs.files)
    && (answer.Stored? ==>
          && OnlyAt(fs, fs', {ObjPath(job.id), MetaPath(job.id), StagePath(job.id, hex)})
          && ObjPath(job.id) in fs'.files && fs'.files[ObjPath(job.id)].content == Bytes(payload)
          && SidecarLeft(cfg, fs, fs', job, hex, payload))
  }

  ghost predicate SidecarLeft(cfg: Config, fs: Fs, fs': Fs, job: Job, hex: string, payload: seq<Byte>)
  {
    if SidecarFits(cfg, fs, job.id) then
      && MetaPath(job.id) in fs'.files
      && fs'.files[MetaPath(job.id)].content == Json(RecordOf(cfg, Commit(job, payload)))
      && StagePath(job.id, hex) !in fs'.files
    else SameAt(fs, fs', MetaPath(job.id))
  }

  lemma OnlyAtAgain(fs: Fs, fs': Fs, fs'': Fs, p: Path)
    requires OnlyAt(fs, fs', {p}) && OnlyAt(fs', fs'', {p})
    ensures OnlyAt(fs, fs'', {p})
  {
  }

  lemma OnlyAtNothing(fs: Fs, fs': Fs, at: set<Path>)
    requires fs'.files == fs.files
    ensures OnlyAt(fs, fs', at)
  {
  }

  lemma OnlyAtBoth(fs: Fs, fs': Fs, fs'': Fs, p: Path, q: Path)
    requires OnlyAt(fs, fs', {p}) && OnlyAt(fs', fs'', {q})
    ensures OnlyAt(fs, fs'', {p, q})
  {
    forall r | r != p && r != q ensures SameAt(fs, fs'', r) {
      assert SameAt(fs, fs', r) && SameAt(fs', fs'', r);
    }
  }

  /** `more` is `trace` and then steps of operation `pid` alone, none of them a fault. */
  ghost predicate Extends(trace: seq<Step>, more: seq<Step>, pid: nat)
  {
    trace <= more && forall i :: |trace| <= i < |more| ==> OwnStep(more[i], pid)
  }

  lemma ExtendsItself(trace: seq<Step>, pid: nat)
    ensures Extends(trace, trace, pid)
  {
  }

  lemma ExtendsSnoc(trace: seq<Step>, more: seq<Step>, step: Step, pid: nat)
    requires Extends(trace, more, pid) && OwnStep(step, pid)
    ensures Extends(trace, more + [step], pid)
  {
  }

  lemma Onward(trace: seq<Step>, more: seq<Step>, next: seq<Step>, pid: nat) returns (most: seq<Step>)
    requires Extends(trace, more, pid) && Extends(more, next, pid)
    ensures most == next && Extends(trace, most, pid)
  {
    most := next;
  }

  /** The directories of a fresh volume. */
  ghost function LaidOut(buckets: seq<string>): set<Path>
  {
    {[], [".tmp"], [".meta"]} + (set b | b in buckets :: [b]) + (set b | b in buckets :: [".meta", b])
  }

  lemma LaidOutFirst()
    ensures LaidOut([]) == {[], [".tmp"], [".meta"]}
  {
  }

  lemma LaidOutNext(buckets: seq<string>, b: string)
    ensures LaidOut(buckets + [b]) == LaidOut(buckets) + {[b], [".meta", b]}
  {
  }

  /** Nothing has happened yet. */
  ghost function FreshSys(settings: Settings, now: int): Sys
  {
    Sys(Fs(map[], LaidOut(settings.buckets)), now, map[], {}, [], [], [], {}, {}, {}, false)
  }

  lemma FreshSysIsInitial(cfg: Config, now: int)
    ensures Initial(cfg, FreshSys(cfg.settings, now))
  {
    var dirs := LaidOut(cfg.settings.buckets);
    forall d | d in dirs && d != [] ensures Parent(d) in dirs {
      if |d| == 2 {
        assert Parent(d) == [".meta"];
      } else {
        assert Parent(d) == [];
      }
    }
    forall b | b in cfg.settings.buckets ensures [b] in dirs && [".meta", b] in dirs {
    }
  }

  /** A fresh volume is a fresh store for whatever keys come to be used. */
  lemma FreshVolumeIsFreshStore(cfg: Config, U: set<Id>, s: Sys)
    requires Initial(cfg, s) && s.fs.dirs == LaidOut(cfg.settings.buckets)
    ensures FreshStore(cfg, U, s)
  {
    hide Initial;
  }

  class LocalFsBlobDriver {
    const cfg: Config
    var files: map<Path, File>
    var dirs: set<Path>
    var clock: int
    ghost var sys: Sys

    ghost function View(): Fs
      reads this
    {
      Fs(files, dirs)
    }

    ghost predicate Valid()
      reads this
    {
      sys.fs == View() && sys.now == clock && Inv(cfg, sys)
    }

    /** Start-up on an empty volume: `ensure_layout` makes the reserved directories and one directory per bucket. */
    constructor (cfg: Config, now: int)
      ensures this.cfg == cfg && clock == now
      ensures Valid() && Initial(cfg, sys)
      ensures files == map[] && dirs == LaidOut(cfg.settings.buckets)
    {
      this.cfg := cfg;
      this.files := map[];
      this.dirs := {[], [".tmp"], [".meta"]};
      this.clock := now;
      new;
      hide LaidOut, Inv, Initial;
      LaidOutFirst();
      for i := 0 to |cfg.settings.buckets|
        invariant files == map[] && clock == now && dirs == LaidOut(cfg.settings.buckets[..i])
      {
        var b := cfg.settings.buckets[i];
        assert cfg.settings.buckets[..i + 1] == cfg.settings.buckets[..i] + [b];
        LaidOutNext(cfg.settings.buckets[..i], b);
        dirs := dirs + {[b], [".meta", b]};
      }
      assert cfg.settings.buckets[..|cfg.settings.buckets|] == cfg.settings.buckets;
      sys := FreshSys(cfg.settings, now);
      FreshSysIsInitial(cfg, now);
      InitialInv(cfg, sys);
    }

    // ---- Operating-system calls ---------------------------------------------

    method Create(p: Path, content: Content) returns (ok: bool)
      modifies `files
      ensures ok <==> MayCreate(old(View()), p, cfg.nameMax)
      ensures View() == if ok then FileSystem.Put(old(View()), p, File(content, false, clock)) else old(View())
      ensures OnlyAt(old(View()), View(), {p})
    {
      ok := p != [] && p[..|p| - 1] in dirs && p !in dirs && |Last(p)| <= cfg.nameMax;
      if ok {
        files := files[p := File(content, false, clock)];
      }
    }

    /** Write through an open handle to the file created at `p`. */
    method WriteThrough(p: Path, content: Content, synced: bool)
      modifies `files
      ensures View() == Apply(old(View()), Rewrite(old(View()), p, File(content, synced, clock)))
      ensures OnlyAt(old(View()), View(), {p})
    {
      if p in files {
        files := files[p := File(content, synced, clock)];
      }
    }

    method RenameFile(a: Path, b: Path) returns (ok: bool)
      modifies `files
      ensures ok <==> MayRename(old(View()), a, b, cfg.nameMax)
      ensures View() == if ok then Rename(old(View()), a, b) else old(View())
      ensures OnlyAt(old(View()), View(), {a, b})
    {
      ok := a in files && b != [] && b[..|b| - 1] in dirs && b !in dirs && |Last(b)| <= cfg.nameMax;
      if ok {
        files := (files - {a})[b := files[a]];
      }
    }

    /** `_safe_unlink`. */
    method SafeUnlink(p: Path) returns (existed: bool)
      modifies `files
      ensures existed <==> p in old(files)
      ensures View() == Unlink(old(View()), p)
      ensures OnlyAt(old(View()), View(), {p})
    {
      existed := p in files;
      files := files - {p};
    }

    // ---- Following the transition system ------------------------------------

    ghost method Advance(step: Step, start: Sys, trace: seq<Step>) returns (more: seq<Step>)
      requires Runs(cfg, start, trace, sys) && Inv(cfg, sys) && Enabled(cfg, sys, step)
      modifies `sys
      ensures sys == Next(cfg, old(sys), step) && more == trace + [step]
      ensures Inv(cfg, sys) && Runs(cfg, start, more, sys)
    {
      hide Inv, Enabled, Effect, Runs;
      NextKeepsInv(cfg, sys, step);
      RunsSnoc(cfg, start, trace, sys, step);
      sys := Next(cfg, sys, step);
      more := trace + [step];
    }

    /** The next action of operation `pid`, which is `p`. */
    ghost method Act(pid: nat, p: Proc, act: Act, start: Sys, trace: seq<Step>) returns (more: seq<Step>)
      requires Runs(cfg, start, trace, sys) && Inv(cfg, sys)
      requires pid in sys.procs && sys.procs[pid] == p && !p.Sweeping? && act == GoAct(cfg, sys.fs, sys.now, p)
      modifies `sys
      ensures Inv(cfg, sys) && Runs(cfg, start, more, sys)
      ensures forall base :: Extends(base, trace, pid) ==> Extends(base, more, pid)
      ensures Performed(old(sys), sys, pid, act)
    {
      hide Inv, GoAct, Runs, Enabled, Apply;
      GoPerforms(cfg, sys, pid);
      more := Advance(Go(pid), start, trace);
    }

    /** The source of put `pid`, which is `p`, yields a chunk that is written through at once. */
    ghost method Feeds(pid: nat, p: Proc, chunk: seq<Byte>, act: Act, start: Sys,
                       trace: seq<Step>) returns (more: seq<Step>)
      requires Runs(cfg, start, trace, sys) && Inv(cfg, sys)
      requires pid in sys.procs && sys.procs[pid] == p && p.Putting? && p.stage.Stream?
      requires TmpPath(p.tmp) in sys.fs.files ==> |DataOf(sys.fs.files[TmpPath(p.tmp)])| <= |p.got|
      requires act == PutFeed(sys.fs, sys.now, p, chunk, |p.got| + |chunk|)
      modifies `sys
      ensures Inv(cfg, sys) && Runs(cfg, start, more, sys)
      ensures forall base :: Extends(base, trace, pid) ==> Extends(base, more, pid)
      ensures Performed(old(sys), sys, pid, act)
    {
      hide Inv, PutFeed, Runs, Apply, TmpPath;
      more := Advance(Feed(pid, chunk, |p.got| + |chunk|), start, trace);
    }

    // ---- Reads --------------------------------------------------------------

    /** `head`, with its sidecar fallback. */
    method Head(id: Id) returns (info: Option<ObjectInfo>)
      ensures info == HeadAnswer(cfg, View(), id)
      ensures info.Some? <==> ObjPath(id) in files
      ensures info.Some? && MetaPath(id) in files && files[MetaPath(id)].content.Json? ==>
                var record := files[MetaPath(id)].content.record;
                && info.value.bytes == record.bytes && info.value.etag == record.etag
                && info.value.metadata == record.metadata
                && (record.contentType != "" ==> info.value.contentType == record.contentType)
                && (record.contentType == "" ==> info.value.contentType == cfg.guessMime(id.key))
      ensures info.Some? && !(MetaPath(id) in files && files[MetaPath(id)].content.Json?)
              && files[ObjPath(id)].content.Bytes? ==>
                var data := files[ObjPath(id)].content.data;
                && info.value.bytes == |data| && info.value.contentType == cfg.guessMime(id.key)
                && info.value.metadata == map[] && info.value.etag == if |data| <= 104857600 then cfg.hash(data) else ""
    {
      hide ObjPath, MetaPath, LookStep, HeadAnswer;
      HeadAnswerIs(cfg, View(), id);
      if ObjPath(id) !in files {
        return None;
      }
      var size := |DataOf(files[ObjPath(id)])|;
      if MetaPath(id) in files && files[MetaPath(id)].content.Json? {
        var r := files[MetaPath(id)].content.record;
        var contentType := if r.contentType != "" then r.contentType else cfg.guessMime(id.key);
        return Some(ObjectInfo(r.bytes, contentType, r.etag, r.metadata));
      }
      var etag := EtagFromFile(ObjPath(id), size);
      info := Some(ObjectInfo(size, cfg.guessMime(id.key), etag, map[]));
    }

    /** `_etag_from_file`: read chunk by chunk into the hasher, unless the file is too large. */
    method EtagFromFile(p: Path, size: nat) returns (etag: string)
      requires p in files && size == |DataOf(files[p])|
      ensures etag == if size > 104857600 then "" else cfg.hash(DataOf(files[p]))
    {
      if size > ETAG_FALLBACK_MAX_BYTES {
        return "";
      }
      hide Chunked, Concat;
      var chunks := StreamFile(DataOf(files[p]));
      var hasher := Hashed(chunks);
      etag := cfg.hash(hasher);
    }

    /** `get`: the stored bytes in chunks of 1 MiB, the last one shorter; nothing for an absent key or a directory. */
    method Get(id: Id) returns (chunks: Option<seq<seq<Byte>>>)
      ensures chunks.Some? <==> ObjPath(id) in files
      ensures chunks.Some? && files[ObjPath(id)].content.Bytes? ==>
                Concat(chunks.value) == files[ObjPath(id)].content.data
      ensures chunks.Some? ==> Chunked(chunks.value)
    {
      hide ObjPath;
      if ObjPath(id) !in files {
        return None;
      }
      var read := StreamFile(DataOf(files[ObjPath(id)]));
      chunks := Some(read);
    }

    /** The walk of `list`: files in no particular order, filtered by their full path. */
    method Walk(bucketRoot: string, bucket: string, prefix: string) returns (keys: seq<string>)
      requires Valid() && IsBucket(bucket)
      ensures forall i, j :: 0 <= i < j < |keys| ==> keys[i] != keys[j]
      ensures forall k :: k in keys <==> k in KeysIn(View(), bucket) && Selects(bucketRoot, prefix, k)
    {
      hide Selects, ObjPath, Inv, Join;
      keys := [];
      var todo := set f | f in files && UnderBucket(f, bucket);
      ghost var seen: set<Path> := {};
      KeysAreDistinct(cfg, sys, bucket);
      while todo != {}
        invariant seen !! todo && seen + todo == set f | f in files && UnderBucket(f, bucket)
        invariant forall i, j :: 0 <= i < j < |keys| ==> keys[i] != keys[j]
        invariant forall k :: k in keys <==>
                    exists f :: f in seen && Join(f[1..], '/') == k && Selects(bucketRoot, prefix, k)
        decreases todo
      {
        var f :| f in todo;
        todo := todo - {f};
        var key := Join(f[1..], '/');
        if Selects(bucketRoot, prefix, key) {
          assert key !in keys;
          keys := keys + [key];
        }
        seen := seen + {f};
      }
    }

    /** `list`: one page. */
    method List(bucketRoot: string, bucket: string, prefix: string, cursor: Option<string>, limit: nat)
      returns (objects: seq<Listed>, next: Option<string>)
      requires Valid() && IsBucket(bucket)
      ensures var found := set k | k in KeysIn(View(), bucket) && Selects(bucketRoot, prefix, k);
              var page := PageFrom(Candidates(found, "", cursor), found, limit);
              && next == page.next && |objects| == |page.keys|
              && (forall i :: 0 <= i < |objects| ==>
                    && objects[i].key == page.keys[i]
                    && HeadAnswer(cfg, View(), Id(bucket, page.keys[i])) == Some(objects[i].info))
      ensures forall i, j :: 0 <= i < j < |objects| ==> Smaller(objects[i].key, objects[j].key)
      ensures forall i :: 0 <= i < |objects| && cursor.Some? && cursor.value != "" ==>
                Smaller(cursor.value, objects[i].key)
      ensures next.Some? ==> 0 < limit == |objects| && next.value == Last(objects).key
    {
      hide Selects, Inv, HeadAnswer, SortedOf, Past, KeysIn, Smaller, Before, Ascending, Alive;
      ghost var found := set k | k in KeysIn(View(), bucket) && Selects(bucketRoot, prefix, k);
      var keys := Walk(bucketRoot, bucket, prefix);
      keys := Sort(keys);
      CandidatesOf(keys, found, cursor);
      keys := AboveCursor(keys, cursor);
      var page := if |keys| > limit then keys[..limit] else keys;
      KeysAreObjects(cfg, sys, bucket);
      AllAliveIn(page, found);
      objects := Describe(bucket, page);
      next := if |keys| > limit && page != [] then Some(Last(page)) else None;
      DescribedInOrder(keys, page, objects, cursor);
    }

    /** `head` for every key of a page; a key that vanished would be dropped. */
    method Describe(bucket: string, page: seq<string>) returns (objects: seq<Listed>)
      requires forall i :: 0 <= i < |page| ==> ObjPath(Id(bucket, page[i])) in files
      ensures |objects| == |page|
      ensures forall i :: 0 <= i < |page| ==>
                objects[i].key == page[i] && HeadAnswer(cfg, View(), Id(bucket, page[i])) == Some(objects[i].info)
    {
      hide ObjPath, HeadAnswer;
      objects := [];
      for i := 0 to |page|
        invariant |objects| == i
        invariant forall j :: 0 <= j < i ==>
                    objects[j].key == page[j] && HeadAnswer(cfg, View(), Id(bucket, page[j])) == Some(objects[j].info)
      {
        var info := Head(Id(bucket, page[i]));
        HeadAnswerIs(cfg, View(), Id(bucket, page[i]));
        if info.Some? {
          objects := objects + [Listed(page[i], info.value)];
        }
      }
    }

    // ---- Put ----------------------------------------------------------------

    /** `makedirs(Parent(target), exist_ok=True)` for the object, or for its sidecar. */
    method MakeParents(target: Path, ghost pid: nat, ghost p: Proc, ghost side: bool, ghost start: Sys,
                       ghost trace: seq<Step>)
      returns (ok: bool, ghost more: seq<Step>)
      requires Valid() && Runs(cfg, start, trace, sys) && p.Putting? && pid in sys.procs
      requires sys.procs[pid] == p.(stage := if side then SideDirs(0) else Dirs(0))
      requires target == if side then MetaPath(p.job.id) else ObjPath(p.job.id)
      requires forall k :: 0 <= k < |target| - 1 ==> |target[k]| <= cfg.nameMax
      modifies `dirs, `sys
      ensures Valid() && Runs(cfg, start, more, sys) && Extends(trace, more, pid)
      ensures old(dirs) <= dirs
      ensures ok <==> !FileOnTheWay(old(View()), target)
      ensures ok ==>
                && Parent(target) in dirs
                && pid in sys.procs && sys.procs[pid] == p.(stage := if side then SideOpen else Install)
      ensures ok ==> sys.log == old(sys.log)
      ensures forall d :: d in dirs && d !in old(dirs) ==> d < target
      ensures !ok && !side ==>
                pid in sys.procs && sys.procs[pid] == p.(stage := Clean(IoError)) && sys.log == old(sys.log)
      ensures !ok && side ==>
                && pid !in sys.procs
                && sys.log == old(sys.log) + [Event(PutCall(p.job, p.got, None), Stored(cfg.hash(p.got), |p.got|))]
    {
      hide Extends, ObjPath, MetaPath, StagePath, TmpPath, Inv, Runs, GoAct, Next, SidecarFailed, MayMkdir;
      ExtendsItself(trace, pid);
      var depth := 0;
      more := trace;
      RootIsDirectory(cfg, sys);
      assert target[..0] == [];
      while depth < |target| - 1
        invariant 0 <= depth <= |target| - 1
        invariant sys.fs == View() && sys.now == clock && Inv(cfg, sys) && Runs(cfg, start, more, sys)
        invariant Extends(trace, more, pid)
        invariant old(dirs) <= dirs && target[..depth] in dirs
        invariant forall d :: d in dirs && d !in old(dirs) ==> d < target
        invariant pid in sys.procs && sys.procs[pid] == p.(stage := if side then SideDirs(depth) else Dirs(depth))
        invariant forall n :: 0 < n <= depth ==> target[..n] !in files
        invariant sys.log == old(sys.log)
      {
        var d := target[..depth + 1];
        assert d[..depth] == target[..depth] && Last(d) == target[depth];
        FilesAreNoDirectories(cfg, sys, d);
        ghost var now := sys.procs[pid];
        DirsAct(cfg, sys.fs, clock, now, side, depth);
        if d in files {
          assert FileOnTheWay(View(), target);
          more := Act(pid, now, GoAct(cfg, sys.fs, clock, now), start, more);
          return false, more;
        }
        more := Act(pid, now, GoAct(cfg, sys.fs, clock, now), start, more);
        dirs := dirs + {d};
        depth := depth + 1;
      }
      DirsDoneAct(cfg, sys.fs, clock, sys.procs[pid], side);
      more := Act(pid, sys.procs[pid], GoAct(cfg, sys.fs, clock, sys.procs[pid]), start, more);
      assert target[..depth] == Parent(target);
      ok := true;
    }

    /** Open the staging file and stream the source into it under the cap, hashing on the way; then sync it. */
    method StageChunks(tmp: string, chunks: seq<seq<Byte>>, broken: bool, cap: nat,
                       ghost pid: nat, ghost p: Proc, ghost start: Sys, ghost trace: seq<Step>)
      returns (hasher: seq<Byte>, why: Option<Failure>, ghost more: seq<Step>)
      requires Valid() && Runs(cfg, start, trace, sys) && pid in sys.procs && sys.procs[pid] == p
      requires p.Putting? && p.stage.Open? && p.tmp == tmp && p.got == [] && p.job.cap == cap
      requires MayCreate(View(), TmpPath(tmp), cfg.nameMax)
      modifies `files, `sys
      ensures Valid() && Runs(cfg, start, more, sys) && Extends(trace, more, pid) && sys.log == old(sys.log)
      ensures OnlyAt(old(View()), View(), {TmpPath(tmp)})
      ensures why == if |Concat(chunks)| > cap then Some(TooLarge) else if broken then Some(SourceBroken) else None
      ensures why.Some? ==> pid in sys.procs && sys.procs[pid] == p.(got := hasher, stage := Clean(why.value))
      ensures why.None? ==>
                && hasher == Concat(chunks) && TmpPath(tmp) in files && files[TmpPath(tmp)].content == Bytes(hasher)
                && pid in sys.procs && sys.procs[pid] == p.(got := hasher, stage := Dirs(0))
    {
      hide Extends, ObjPath, MetaPath, StagePath, TmpPath, Inv, Runs, GoAct, Next, PutFeed, MayCreate, OnlyAt;
      ExtendsItself(trace, pid);
      OpenAct(cfg, sys.fs, clock, p);
      more := Act(pid, p, GoAct(cfg, sys.fs, clock, p), start, trace);
      var ok := Create(TmpPath(tmp), Bytes([]));
      hasher := [];
      var total := 0;
      for i := 0 to |chunks|
        invariant sys.fs == View() && sys.now == clock && Inv(cfg, sys) && Runs(cfg, start, more, sys)
        invariant Extends(trace, more, pid)
        invariant sys.log == old(sys.log)
        invariant OnlyAt(old(View()), View(), {TmpPath(tmp)})
        invariant hasher == Concat(chunks[..i]) && total == |hasher| <= cap
        invariant TmpPath(tmp) in files && files[TmpPath(tmp)].content == Bytes(hasher)
        invariant pid in sys.procs && sys.procs[pid] == p.(got := hasher, stage := Stream)
      {
        var chunk := chunks[i];
        assert chunks[..i + 1] == chunks[..i] + [chunk];
        ConcatSnoc(chunks[..i], chunk);
        ConcatPrefix(chunks, i + 1);
        total := total + |chunk|;
        ghost var now := sys.procs[pid];
        FeedAct(sys.fs, clock, now, chunk);
        more := Feeds(pid, now, chunk, PutFeed(sys.fs, clock, now, chunk, |now.got| + |chunk|), start, more);
        if total > cap {
          return hasher, Some(TooLarge), more;
        }
        if chunk != [] {
          hasher := hasher + chunk;
          ghost var before := View();
          WriteThrough(TmpPath(tmp), Bytes(hasher), false);
          OnlyAtAgain(old(View()), before, View(), TmpPath(tmp));
        }
        assert hasher == Concat(chunks[..i + 1]);
      }
      assert chunks[..|chunks|] == chunks;
      if broken {
        BreakPerforms(cfg, sys, pid);
        ExtendsSnoc(trace, more, Break(pid), pid);
        more := Advance(Break(pid), start, more);
        return hasher, Some(SourceBroken), more;
      }
      SyncAct(cfg, sys.fs, clock, sys.procs[pid]);
      more := Act(pid, sys.procs[pid], GoAct(cfg, sys.fs, clock, sys.procs[pid]), start, more);
      ghost var before := View();
      WriteThrough(TmpPath(tmp), Bytes(hasher), true);
      OnlyAtAgain(old(View()), before, View(), TmpPath(tmp));
      why := None;
    }

    /** `_write_sidecar`: best effort, through a staging file of its own. */
    method WriteSidecar(job: Job, data: seq<Byte>, hex: string, ghost pid: nat, ghost p: Proc, ghost start: Sys,
                        ghost trace: seq<Step>)
      returns (ghost more: seq<Step>)
      requires Valid() && Runs(cfg, start, trace, sys) && pid in sys.procs && sys.procs[pid] == p
      requires p.Putting? && p.stage == SideDirs(0) && p.job == job && p.got == data && p.hex == hex
      requires ValidId(job.id, cfg.settings.buckets)
      requires forall k :: 0 <= k < |MetaPath(job.id)| - 1 ==> |MetaPath(job.id)[k]| <= cfg.nameMax
      requires |hex| == UUID_LENGTH && StagePath(job.id, hex) !in dirs
      modifies `files, `dirs, `sys
      ensures Valid() && Runs(cfg, start, more, sys) && Extends(trace, more, pid)
      ensures sys.log == old(sys.log) + [Event(PutCall(job, data, None), Stored(cfg.hash(data), |data|))]
      ensures OnlyAt(old(View()), View(), {StagePath(job.id, hex), MetaPath(job.id)})
      ensures old(dirs) <= dirs
      ensures SidecarLeft(cfg, old(View()), View(), job, hex, data)
    {
      hide Extends, ObjPath, MetaPath, StagePath, TmpPath, ValidId, Inv, Runs, InBucket, InTmp, IsSidecar, RecordOf,
           GoAct, Next, MayCreate, MayRename, SidecarFailed, OnlyAt, SidecarFits, FileOnTheWay;
      ExtendsItself(trace, pid);
      Places(cfg, job.id, "", hex);
      var meta, side := MetaPath(job.id), StagePath(job.id, hex);
      ghost var before := View();
      OnlyAtNothing(before, before, {side, meta});
      var ok;
      ok, more := MakeParents(meta, pid, p, true, start, trace);
      NoWayNoSidecar(cfg, before, job.id);
      OnlyAtNothing(before, View(), {side, meta});
      if !ok {
        return;
      }
      ghost var made := View();
      SidecarGoesIn(cfg, before, made, job.id, hex);
      SideOpenAct(cfg, sys.fs, clock, sys.procs[pid]);
      more := Act(pid, sys.procs[pid], GoAct(cfg, sys.fs, clock, sys.procs[pid]), start, more);
      ok := Create(side, Torn);
      if !ok {
        return;
      }
      SideWriteAct(cfg, sys.fs, clock, sys.procs[pid]);
      more := Act(pid, sys.procs[pid], GoAct(cfg, sys.fs, clock, sys.procs[pid]), start, more);
      WriteThrough(side, Json(RecordOf(cfg, Commit(job, data))), false);
      RenameNeedsFreePlace(View(), side, meta, cfg.nameMax);
      SidecarInstalled(before, made, side, meta, File(Torn, false, clock), File(Json(RecordOf(cfg, Commit(job, data))),
                                                                                false, clock));
      SideInstallAct(cfg, sys.fs, clock, sys.procs[pid]);
      more := Act(pid, sys.procs[pid], GoAct(cfg, sys.fs, clock, sys.procs[pid]), start, more);
      ok := RenameFile(side, meta);
    }

    /** The rename that publishes the object. */
    method Publish(tmp: string, obj: Path, ghost pid: nat, ghost p: Proc, ghost start: Sys, ghost trace: seq<Step>)
      returns (ok: bool, ghost more: seq<Step>)
      requires Valid() && Runs(cfg, start, trace, sys) && pid in sys.procs && sys.procs[pid] == p
      requires p.Putting? && p.stage.Install? && p.tmp == tmp && obj == ObjPath(p.job.id)
      requires TmpPath(tmp) in files && Parent(obj) in dirs && |Last(obj)| <= cfg.nameMax
      modifies `files, `sys
      ensures Valid() && Runs(cfg, start, more, sys) && Extends(trace, more, pid) && sys.log == old(sys.log)
      ensures ok <==> obj !in dirs
      ensures View() == if ok then Rename(old(View()), TmpPath(tmp), obj) else old(View())
      ensures OnlyAt(old(View()), View(), {TmpPath(tmp), obj})
      ensures pid in sys.procs && sys.procs[pid] == p.(stage := if ok then SideDirs(0) else Clean(IoError))
    {
      hide Extends, ObjPath, TmpPath, Inv, GoAct, Next, Runs, OnlyAt, MayRename;
      ExtendsItself(trace, pid);
      RenameNeedsFreePlace(View(), TmpPath(tmp), obj, cfg.nameMax);
      InstallAct(cfg, sys.fs, clock, p);
      more := Act(pid, p, GoAct(cfg, sys.fs, clock, p), start, trace);
      ok := RenameFile(TmpPath(tmp), obj);
    }

    /** The cleanup of a put that did not reach its rename. */
    method Abandon(tmp: string, ghost pid: nat, ghost p: Proc, ghost start: Sys,
                   ghost trace: seq<Step>) returns (ghost more: seq<Step>)
      requires Valid() && Runs(cfg, start, trace, sys) && pid in sys.procs && sys.procs[pid] == p
      requires p.Putting? && p.stage.Clean? && p.tmp == tmp
      modifies `files, `sys
      ensures Valid() && Runs(cfg, start, more, sys) && Extends(trace, more, pid)
      ensures View() == Unlink(old(View()), TmpPath(tmp))
      ensures sys.log == old(sys.log) + [Event(PutCall(p.job, p.got, Some(p.stage.why)), Failed(p.stage.why))]
    {
      hide Extends, TmpPath, Inv, GoAct, Next, Runs, OnlyAt;
      ExtendsItself(trace, pid);
      CleanAct(cfg, sys.fs, clock, p);
      more := Act(pid, p, GoAct(cfg, sys.fs, clock, p), start, trace);
      var existed := SafeUnlink(TmpPath(tmp));
    }

    /**
     * `put`. `chunks` is what the source yields and `broken` whether it then raises; `tmp` and `hex` are fresh random
     * names.
     */
    method Put(job: Job, chunks: seq<seq<Byte>>, broken: bool, tmp: string, hex: string, ghost pid: nat)
      returns (answer: Answer, ghost trace: seq<Step>)
      requires Valid() && Enabled(cfg, sys, StartPut(pid, job, tmp, hex))
      requires cfg.nameMax >= 255 && TmpPath(tmp) !in dirs && StagePath(job.id, hex) !in dirs
      modifies `files, `dirs, `sys
      ensures Valid() && Runs(cfg, old(sys), trace, sys) && Extends([StartPut(pid, job, tmp, hex)], trace, pid)
      ensures answer == PutAnswer(cfg, old(View()), job, Concat(chunks), broken)
      ensures PutLeaves(cfg, old(View()), View(), job, hex, Concat(chunks), answer)
      ensures Answered(old(sys.log), sys.log, answer)
    {
      hide Extends, ObjPath, MetaPath, StagePath, TmpPath, ValidId, Inv, InBucket, InTmp, IsSidecar, GoAct, Next,
           MayCreate, MayRename, Runs, Enabled, HeadAnswer, Admissible, FileOnTheWay;
      var obj := ObjPath(job.id);
      var start := sys;
      StartPutMeans(cfg, sys, pid, job, tmp, hex);
      Places(cfg, job.id, tmp, hex);
      FreshNames(cfg, sys, tmp);
      PutFits(cfg, sys, job.id, tmp);
      trace := [];
      RunsNothing(cfg, sys);
      trace := Advance(StartPut(pid, job, tmp, hex), start, trace);
      assert trace == [StartPut(pid, job, tmp, hex)];
      ExtendsItself(trace, pid);
      if job.exclusive {
        var there := obj in files || obj in dirs;
        CheckAct(cfg, sys.fs, clock, sys.procs[pid]);
        trace := Act(pid, sys.procs[pid], GoAct(cfg, sys.fs, clock, sys.procs[pid]), start, trace);
        if there {
          ghost var rest;
          answer, rest := AnswerExisting(job, pid, start, trace);
          trace := Onward([StartPut(pid, job, tmp, hex)], trace, rest, pid);
          return;
        }
      }
      ghost var rest;
      answer, rest := Store(job, chunks, broken, tmp, hex, pid, sys.procs[pid], start, trace);
      trace := Onward([StartPut(pid, job, tmp, hex)], trace, rest, pid);
    }

    /** The part of `put` after the existence check. */
    method Store(job: Job, chunks: seq<seq<Byte>>, broken: bool, tmp: string, hex: string,
                 ghost pid: nat, ghost p: Proc, ghost start: Sys, ghost trace: seq<Step>)
      returns (answer: Answer, ghost more: seq<Step>)
      requires Valid() && Runs(cfg, start, trace, sys) && pid in sys.procs && sys.procs[pid] == p
      requires p == Putting(job, tmp, hex, [], Open) && ValidId(job.id, cfg.settings.buckets)
      requires forall k :: 0 <= k < |ObjPath(job.id)| ==> |ObjPath(job.id)[k]| <= cfg.nameMax
      requires forall k :: 0 <= k < |MetaPath(job.id)| - 1 ==> |MetaPath(job.id)[k]| <= cfg.nameMax
      requires MayCreate(View(), TmpPath(tmp), cfg.nameMax) && TmpPath(tmp) !in files
      requires |hex| == UUID_LENGTH && StagePath(job.id, hex) !in dirs
      modifies `files, `dirs, `sys
      ensures Valid() && Runs(cfg, start, more, sys) && Extends(trace, more, pid)
      ensures answer ==
              if |Concat(chunks)| > job.cap then Failed(TooLarge)
              else if broken then Failed(SourceBroken)
              else if Blocked(old(View()), ObjPath(job.id)) then Failed(IoError)
              else Stored(cfg.hash(Concat(chunks)), |Concat(chunks)|)
      ensures PutLeaves(cfg, old(View()), View(), job, hex, Concat(chunks), answer)
      ensures Answered(old(sys.log), sys.log, answer)
    {
      hide Extends, ObjPath, MetaPath, StagePath, TmpPath, ValidId, Inv, InBucket, InTmp, IsSidecar, GoAct, Next, Runs,
           FileOnTheWay, OnlyAt, PutLeaves, SidecarLeft, SidecarFits, MayCreate, MayRename, Answered;
      var obj := ObjPath(job.id);
      Places(cfg, job.id, tmp, hex);
      var data, why;
      data, why, more := StageChunks(tmp, chunks, broken, job.cap, pid, p, start, trace);
      ghost var next;
      StagingDoesNotBlock(old(View()), View(), TmpPath(tmp), obj);
      ghost var staged := View();
      if why.None? {
        var ok;
        ok, next := MakeParents(obj, pid, p.(got := data), false, start, more);
        more := Onward(trace, more, next, pid);
        if ok {
          ghost var ready := View();
          ok, next := Publish(tmp, obj, pid, sys.procs[pid], start, more);
          more := Onward(trace, more, next, pid);
          if ok {
            ghost var installed := View();
            next := WriteSidecar(job, data, hex, pid, sys.procs[pid], start, more);
            more := Onward(trace, more, next, pid);
            answer := Stored(cfg.hash(data), |data|);
            AnsweredNow(old(sys.log), Event(PutCall(job, data, None), answer));
            StoredLeaves(cfg, old(View()), staged, ready, installed, View(), job, tmp, hex, data, answer);
            return;
          }
        }
        why := Some(IoError);
      }
      ghost var ready := View();
      next := Abandon(tmp, pid, sys.procs[pid], start, more);
      more := Onward(trace, more, next, pid);
      answer := Failed(why.value);
      AnsweredNow(old(sys.log), Event(PutCall(job, data, why), answer));
      FailedLeaves(cfg, old(View()), staged, ready, View(), job, tmp, hex, Concat(chunks), answer);
    }

    /** The answer of an exclusive put that found something at its path. */
    method AnswerExisting(job: Job, ghost pid: nat, ghost start: Sys, ghost trace: seq<Step>)
      returns (answer: Answer, ghost more: seq<Step>)
      requires Valid() && Runs(cfg, start, trace, sys) && pid in sys.procs
      requires sys.procs[pid].Putting? && sys.procs[pid].job == job && sys.procs[pid].stage == Found(Stat)
      modifies `sys
      ensures Valid() && Runs(cfg, start, more, sys) && Extends(trace, more, pid)
      ensures var info := HeadAnswer(cfg, View(), job.id);
              answer == if info.Some? then Duplicate(info.value.etag, info.value.bytes) else Duplicate("", 0)
      ensures sys.log == old(sys.log) + [Event(PutCall(job, [], None), answer)]
    {
      hide Extends, ObjPath, MetaPath, StagePath, TmpPath, ValidId, Inv, Runs, LookStep, GoAct, Next, HeadFrom;
      ExtendsItself(trace, pid);
      var info := Head(job.id);
      HeadStarts(cfg, View(), job.id);
      answer := if info.Some? then Duplicate(info.value.etag, info.value.bytes) else Duplicate("", 0);
      more := trace;
      ghost var look := Stat;
      ghost var going := true;
      while going
        invariant sys.fs == View() && sys.now == clock && Inv(cfg, sys) && Runs(cfg, start, more, sys)
        invariant Extends(trace, more, pid)
        invariant going ==> pid in sys.procs && sys.procs[pid] == old(sys.procs[pid]).(stage := Found(look))
        invariant going ==> HeadFrom(cfg, View(), job.id, look) == info && sys.log == old(sys.log)
        invariant !going ==> sys.log == old(sys.log) + [Event(PutCall(job, [], None), answer)]
        decreases going, LookRank(look)
      {
        ghost var looked := LookStep(cfg, View(), job.id, look, false);
        LookGoesOn(cfg, View(), job.id, look);
        FoundAct(cfg, sys.fs, clock, sys.procs[pid]);
        more := Act(pid, sys.procs[pid], GoAct(cfg, sys.fs, clock, sys.procs[pid]), start, more);
        if looked.More? {
          look := looked.look;
        } else {
          going := false;
        }
      }
    }

    /** `delete`: the object, then its sidecar; true when there was an object. */
    method Delete(id: Id, who: Principal, ghost pid: nat) returns (existed: bool, ghost trace: seq<Step>)
      requires Valid() && Enabled(cfg, sys, StartDelete(pid, id, who))
      modifies `files, `sys
      ensures Valid() && Runs(cfg, old(sys), trace, sys) && Extends([StartDelete(pid, id, who)], trace, pid)
      ensures existed <==> ObjPath(id) in old(files)
      ensures ObjPath(id) !in files && MetaPath(id) !in files
      ensures OnlyAt(old(View()), View(), {ObjPath(id), MetaPath(id)})
      ensures sys.log == old(sys.log) + [Event(DeleteCall(id), Deleted(existed))]
    {
      hide Extends, ObjPath, MetaPath, Inv, GoAct, Runs, OnlyAt, Next, Enabled;
      var start := sys;
      trace := [];
      RunsNothing(cfg, sys);
      StartDeleteMeans(cfg, sys, pid, id, who);
      trace := Advance(StartDelete(pid, id, who), start, trace);
      assert trace == [StartDelete(pid, id, who)];
      ExtendsItself(trace, pid);
      DeleteAct(cfg, sys.fs, clock, sys.procs[pid]);
      trace := Act(pid, sys.procs[pid], GoAct(cfg, sys.fs, clock, sys.procs[pid]), start, trace);
      existed := SafeUnlink(ObjPath(id));
      ghost var halfway := View();
      DeleteAct(cfg, sys.fs, clock, sys.procs[pid]);
      trace := Act(pid, sys.procs[pid], GoAct(cfg, sys.fs, clock, sys.procs[pid]), start, trace);
      var hadSidecar := SafeUnlink(MetaPath(id));
      OnlyAtBoth(old(View()), halfway, View(), ObjPath(id), MetaPath(id));
    }

    /** `cleanup_stale_tmp`: look at each staged name once, remove the files last written more than 3600 seconds ago. */
    method CleanupStaleTmp(ghost pid: nat) returns (removed: nat, ghost trace: seq<Step>)
      requires Valid() && Enabled(cfg, sys, StartSweep(pid))
      modifies `files, `sys
      ensures Valid() && Runs(cfg, old(sys), trace, sys)
      ensures forall p :: p in files <==>
                p in old(files) && !(|p| == 2 && p[0] == ".tmp" && old(files)[p].mtime < clock - 3600)
      ensures forall p :: p in files ==> files[p] == old(files)[p]
      ensures removed == |old(files).Keys - files.Keys|
      ensures sys.log == old(sys.log)
    {
      hide TmpPath, Inv, Runs, StagedNames, Enabled, Next, Stale, PartlySwept;
      var cutoff := clock - STALE_AFTER;
      var todo := StagedNames(Fs(files, dirs));
      ghost var start := sys;
      trace := [];
      RunsNothing(cfg, sys);
      StartSweepMeans(cfg, sys, pid);
      trace := Advance(StartSweep(pid), start, trace);
      removed := 0;
      NothingSwept(View(), cutoff);
      while todo != {}
        invariant sys.fs == View() && sys.now == clock && Inv(cfg, sys) && Runs(cfg, start, trace, sys)
        invariant sys.log == old(sys.log)
        invariant pid in sys.procs && sys.procs[pid] == Sweeping(cutoff, todo, None)
        invariant todo <= StagedNames(old(View())) && PartlySwept(old(View()), View(), todo, cutoff)
        invariant files.Keys <= old(files).Keys && removed == |old(files).Keys - files.Keys|
        decreases todo
      {
        var name :| name in todo;
        SweepTestMeans(cfg, sys, pid, name);
        StaleStays(old(View()), View(), todo, cutoff, name);
        trace := Advance(Test(pid, name), start, trace);
        ghost var before := View();
        if TmpPath(name) in files && files[TmpPath(name)].mtime < cutoff {
          assert Stale(View(), name, cutoff) by { StaleMeans(View(), name, cutoff); }
          SweepGoMeans(cfg, sys, pid);
          trace := Advance(Go(pid), start, trace);
          var existed := SafeUnlink(TmpPath(name));
          removed := removed + 1;
          assert old(files).Keys - files.Keys == old(files).Keys - before.files.Keys + {TmpPath(name)};
          OneMoreSwept(old(View()), before, todo, cutoff, name);
        } else {
          StaleMeans(View(), name, cutoff);
          OneMoreKept(old(View()), before, todo, cutoff, name);
        }
        todo := todo - {name};
      }
      SweepGoMeans(cfg, sys, pid);
      trace := Advance(Go(pid), start, trace);
      AllSwept(old(View()), View(), cutoff);
    }
  }

  /** What it has removed when `todo` is still to be looked at. */
  ghost predicate PartlySwept(fs: Fs, fs': Fs, todo: set<string>, cutoff: int)
  {
    && fs'.dirs == fs.dirs
    && (forall p :: p in fs'.files ==> p in fs.files && fs'.files[p] == fs.files[p])
    && (forall p :: p in fs.files && p !in fs'.files ==> InTmp(p) && |p| == 2 && fs.files[p].mtime < cutoff)
    && (forall p :: p in fs'.files && InTmp(p) && |p| == 2 && p[1] !in todo ==> fs.files[p].mtime >= cutoff)
    && (forall name :: name in todo ==> SameAt(fs, fs', TmpPath(name)))
  }

  function LookRank(look: Look): nat
  {
    match look case Stat => 3 case IsFile(_) => 2 case ReadSidecar(_) => 1 case Rehash(_) => 0
  }

  lemma LookGoesOn(cfg: Config, fs: Fs, id: Id, look: Look)
    ensures var looked := LookStep(cfg, fs, id, look, false);
            && (looked.More? ==>
                  LookRank(looked.look) < LookRank(look) && HeadFrom(cfg, fs, id, look) == HeadFrom(cfg, fs, id,
                                                                                                    looked.look))
            && (looked.Seen? ==> HeadFrom(cfg, fs, id, look) == looked.info)
  {
    hide ObjPath, MetaPath, SidecarInfo, FallbackInfo;
  }

  lemma HeadStarts(cfg: Config, fs: Fs, id: Id)
    ensures HeadAnswer(cfg, fs, id) == HeadFrom(cfg, fs, id, Stat)
  {
  }

  /**
   * What `head` says after a put that was stored: the record of this very put when the sidecar fits; otherwise what
   * an older sidecar says, or the file itself. Right about the bytes unless a sidecar of earlier bytes could not be
   * replaced.
   */
  lemma HeadAfterPut(cfg: Config, fs: Fs, fs': Fs, job: Job, hex: string, payload: seq<Byte>, answer: Answer)
    requires PutLeaves(cfg, fs, fs', job, hex, payload, answer) && answer.Stored?
    ensures HeadAnswer(cfg, fs', job.id) ==
            var guess := cfg.guessMime(job.id.key);
            if SidecarFits(cfg, fs, job.id) then
              var contentType := if job.contentType != "" then job.contentType else guess;
              Some(ObjectInfo(|payload|, contentType, cfg.hash(payload), job.metadata))
            else if MetaPath(job.id) in fs.files && fs.files[MetaPath(job.id)].content.Json? then
              var was := fs.files[MetaPath(job.id)].content.record;
              var contentType := if was.contentType != "" then was.contentType else guess;
              Some(ObjectInfo(was.bytes, contentType, was.etag, was.metadata))
            else Some(ObjectInfo(|payload|, guess, if |payload| <= 104857600 then cfg.hash(payload) else "", map[]))
  {
    hide ObjPath, MetaPath, StagePath, SidecarFits, OnlyAt, HeadAnswer;
    HeadAnswerIs(cfg, fs', job.id);
  }

  // ---- The actions by stage ------------------------------------------------

  /** `t` is `s` after operation `pid` performed `act`. */
  ghost predicate Performed(s: Sys, t: Sys, pid: nat, act: Act)
  {
    && t.fs == Apply(s.fs, act.change) && t.now == s.now
    && (act.after.Stay? ==> pid in t.procs && t.procs[pid] == act.after.proc)
    && (!act.after.Stay? ==> pid !in t.procs)
    && t.log == if act.after.Done? then s.log + [Event(act.after.call, act.after.answer)] else s.log
  }

  lemma GoPerforms(cfg: Config, s: Sys, pid: nat)
    requires pid in s.procs && !s.procs[pid].Sweeping?
    ensures Enabled(cfg, s, Go(pid))
    ensures Performed(s, Next(cfg, s, Go(pid)), pid, GoAct(cfg, s.fs, s.now, s.procs[pid]))
  {
    hide GoAct, Apply;
  }

  lemma BreakPerforms(cfg: Config, s: Sys, pid: nat)
    requires pid in s.procs && s.procs[pid].Putting? && s.procs[pid].stage.Stream?
    ensures Enabled(cfg, s, Break(pid))
    ensures Performed(s, Next(cfg, s, Break(pid)), pid, PutFails(s.procs[pid], SourceBroken))
  {
  }

  lemma CheckAct(cfg: Config, fs: Fs, now: int, p: Proc)
    requires p.Putting? && p.stage.Check?
    ensures GoAct(cfg, fs, now, p) == Quiet(p.(stage := if Exists(fs, ObjPath(p.job.id)) then Found(Stat) else Open))
  {
    hide ObjPath, MetaPath, StagePath, TmpPath;
  }

  lemma FoundAct(cfg: Config, fs: Fs, now: int, p: Proc)
    requires p.Putting? && p.stage.Found?
    ensures GoAct(cfg, fs, now, p) == LookExisting(cfg, fs, p, false)
  {
    hide ObjPath, MetaPath, StagePath, TmpPath, LookExisting;
  }

  lemma OpenAct(cfg: Config, fs: Fs, now: int, p: Proc)
    requires p.Putting? && p.stage.Open? && MayCreate(fs, TmpPath(p.tmp), cfg.nameMax)
    ensures GoAct(cfg, fs, now, p) ==
            Machine.Act(Write(TmpPath(p.tmp), File(Bytes([]), false, now)), Stay(p.(stage := Stream)), NoMark)
  {
    hide ObjPath, MetaPath, StagePath, TmpPath, MayCreate;
  }

  lemma FeedAct(fs: Fs, now: int, p: Proc, chunk: seq<Byte>)
    requires p.Putting? && p.stage.Stream?
    ensures PutFeed(fs, now, p, chunk, |p.got| + |chunk|) ==
            if |p.got| + |chunk| > p.job.cap then PutFails(p, TooLarge)
            else if chunk == [] then Quiet(p)
            else
              var got := p.got + chunk;
              Machine.Act(Rewrite(fs, TmpPath(p.tmp), File(Bytes(got), false, now)), Stay(p.(got := got)), NoMark)
  {
    hide TmpPath;
    assert (p.got + chunk)[..|p.got| + |chunk|] == p.got + chunk;
  }

  lemma SyncAct(cfg: Config, fs: Fs, now: int, p: Proc)
    requires p.Putting? && p.stage.Stream?
    ensures GoAct(cfg, fs, now, p) ==
            Machine.Act(Rewrite(fs, TmpPath(p.tmp), File(Bytes(p.got), true, now)), Stay(p.(stage := Dirs(0))), NoMark)
  {
    hide ObjPath, MetaPath, StagePath, TmpPath;
  }

  function WayTo(p: Proc, side: bool): Path
    requires p.Putting?
  {
    if side then MetaPath(p.job.id) else ObjPath(p.job.id)
  }

  function DirsStage(side: bool, depth: nat): Stage { if side then SideDirs(depth) else Dirs(depth) }

  /** One directory of the way to the object or sidecar, when the one above it is there and the name fits. */
  lemma DirsAct(cfg: Config, fs: Fs, now: int, p: Proc, side: bool, depth: nat)
    requires p.Putting? && p.stage == DirsStage(side, depth) && depth < |WayTo(p, side)| - 1
    requires WayTo(p, side)[..depth] in fs.dirs && |WayTo(p, side)[depth]| <= cfg.nameMax
    requires WayTo(p, side)[..depth + 1] in fs.files ==> WayTo(p, side)[..depth + 1] !in fs.dirs
    ensures var d := WayTo(p, side)[..depth + 1];
            var act := GoAct(cfg, fs, now, p);
            && (d !in fs.files ==>
                  act == Machine.Act(MakeDir(d), Stay(p.(stage := DirsStage(side, depth + 1))), NoMark))
            && (d in fs.files ==>
                  && act.change == Keep
                  && act.after == if side then PutDone(cfg, p) else Stay(p.(stage := Clean(IoError))))
  {
    hide ObjPath, MetaPath, StagePath, TmpPath;
    var d := WayTo(p, side)[..depth + 1];
    assert Parent(d) == WayTo(p, side)[..depth] && Last(d) == WayTo(p, side)[depth];
  }

  lemma DirsDoneAct(cfg: Config, fs: Fs, now: int, p: Proc, side: bool)
    requires p.Putting? && p.stage == DirsStage(side, |WayTo(p, side)| - 1)
    ensures GoAct(cfg, fs, now, p) == Quiet(p.(stage := if side then SideOpen else Install))
  {
    hide ObjPath, MetaPath, StagePath, TmpPath;
  }

  lemma InstallAct(cfg: Config, fs: Fs, now: int, p: Proc)
    requires p.Putting? && p.stage.Install?
    ensures GoAct(cfg, fs, now, p) ==
            if MayRename(fs, TmpPath(p.tmp), ObjPath(p.job.id), cfg.nameMax)
            then
              var mark := Commits(Commit(p.job, p.got));
              Machine.Act(Move(TmpPath(p.tmp), ObjPath(p.job.id)), Stay(p.(stage := SideDirs(0))), mark)
            else PutFails(p, IoError)
  {
    hide ObjPath, MetaPath, StagePath, TmpPath, MayRename;
  }

  lemma CleanAct(cfg: Config, fs: Fs, now: int, p: Proc)
    requires p.Putting? && p.stage.Clean?
    ensures var call := PutCall(p.job, p.got, Some(p.stage.why));
            GoAct(cfg, fs, now, p) == Machine.Act(Remove(TmpPath(p.tmp)), Done(call, Failed(p.stage.why)), NoMark)
  {
    hide ObjPath, MetaPath, StagePath, TmpPath;
  }

  lemma SideOpenAct(cfg: Config, fs: Fs, now: int, p: Proc)
    requires p.Putting? && p.stage.SideOpen?
    ensures var act := GoAct(cfg, fs, now, p); var side := StagePath(p.job.id, p.hex);
            if MayCreate(fs, side, cfg.nameMax)
            then act == Machine.Act(Write(side, File(Torn, false, now)), Stay(p.(stage := SideWrite)), NoMark)
            else act.change == Keep && act.after == PutDone(cfg, p)
  {
    hide ObjPath, MetaPath, StagePath, TmpPath, MayCreate;
  }

  lemma SideWriteAct(cfg: Config, fs: Fs, now: int, p: Proc)
    requires p.Putting? && p.stage.SideWrite?
    ensures var file := File(Json(RecordOf(cfg, Commit(p.job, p.got))), false, now);
            GoAct(cfg, fs, now, p) ==
            Machine.Act(Rewrite(fs, StagePath(p.job.id, p.hex), file), Stay(p.(stage := SideInstall)), NoMark)
  {
    hide ObjPath, MetaPath, StagePath, TmpPath, RecordOf;
  }

  lemma SideInstallAct(cfg: Config, fs: Fs, now: int, p: Proc)
    requires p.Putting? && p.stage.SideInstall?
    ensures var act := GoAct(cfg, fs, now, p); var side, meta := StagePath(p.job.id, p.hex), MetaPath(p.job.id);
            && act.after == PutDone(cfg, p)
            && act.change == if MayRename(fs, side, meta, cfg.nameMax) then Move(side, meta) else Keep
  {
    hide ObjPath, MetaPath, StagePath, TmpPath, MayRename;
  }

  lemma DeleteAct(cfg: Config, fs: Fs, now: int, p: Proc)
    requires p.Deleting?
    ensures GoAct(cfg, fs, now, p) == DeleteGo(fs, p)
  {
    hide ObjPath, MetaPath;
  }

  // ---- Facts the methods need ----------------------------------------------

  lemma StartPutMeans(cfg: Config, s: Sys, pid: nat, job: Job, tmp: string, hex: string)
    requires Enabled(cfg, s, StartPut(pid, job, tmp, hex))
    ensures ValidId(job.id, cfg.settings.buckets) && tmp !in s.issued && |tmp| == |hex| == UUID_LENGTH
    ensures var t := Next(cfg, s, StartPut(pid, job, tmp, hex));
            && t.fs == s.fs && t.now == s.now && t.log == s.log && t.commits == s.commits && t.powerLost == s.powerLost
            && t.procs == s.procs[pid := Putting(job, tmp, hex, [], if job.exclusive then Check else Open)]
  {
    hide ValidId, S2sCap, UserCap, ServiceOnly;
  }

  lemma StartDeleteMeans(cfg: Config, s: Sys, pid: nat, id: Id, who: Principal)
    requires Enabled(cfg, s, StartDelete(pid, id, who))
    ensures var t := Next(cfg, s, StartDelete(pid, id, who));
            && t.fs == s.fs && t.now == s.now && t.log == s.log && t.commits == s.commits && t.powerLost == s.powerLost
            && t.procs == s.procs[pid := Deleting(id, who, None)]
  {
    hide ValidId, ServiceOnly;
  }

  lemma StartSweepMeans(cfg: Config, s: Sys, pid: nat)
    requires Enabled(cfg, s, StartSweep(pid))
    ensures var t := Next(cfg, s, StartSweep(pid));
            && t.fs == s.fs && t.now == s.now && t.log == s.log
            && t.procs == s.procs[pid := Sweeping(s.now - STALE_AFTER, StagedNames(s.fs), None)]
  {
    hide StagedNames;
  }

  lemma SweepTestMeans(cfg: Config, s: Sys, pid: nat, name: string)
    requires pid in s.procs && s.procs[pid].Sweeping? && s.procs[pid].victim.None? && name in s.procs[pid].todo
    ensures Enabled(cfg, s, Test(pid, name))
    ensures var t := Next(cfg, s, Test(pid, name)); var p := s.procs[pid];
            && t.fs == s.fs && t.now == s.now && t.log == s.log
            && var victim := if Stale(s.fs, name, p.cutoff) then Some(name) else None;
               t.procs == s.procs[pid := Sweeping(p.cutoff, p.todo - {name}, victim)]
  {
    hide Stale;
  }

  lemma SweepGoMeans(cfg: Config, s: Sys, pid: nat)
    requires pid in s.procs && s.procs[pid].Sweeping? && (s.procs[pid].victim.Some? || s.procs[pid].todo == {})
    ensures Enabled(cfg, s, Go(pid))
    ensures var t := Next(cfg, s, Go(pid)); var p := s.procs[pid];
            && t.now == s.now && t.log == s.log
            && (p.victim.Some? ==>
                  && t.fs == Unlink(s.fs, TmpPath(p.victim.value))
                  && pid in t.procs && t.procs[pid] == Sweeping(p.cutoff, p.todo, None))
            && (p.victim.None? ==> t.fs == s.fs)
  {
    hide TmpPath;
  }

  lemma StaleMeans(fs: Fs, name: string, cutoff: int)
    ensures Stale(fs, name, cutoff) <==> TmpPath(name) in fs.files && fs.files[TmpPath(name)].mtime < cutoff
  {
    hide TmpPath;
  }

  lemma NothingSwept(fs: Fs, cutoff: int)
    ensures PartlySwept(fs, fs, StagedNames(fs), cutoff)
  {
  }

  lemma StaleStays(fs: Fs, fs': Fs, todo: set<string>, cutoff: int, name: string)
    requires PartlySwept(fs, fs', todo, cutoff) && name in todo
    ensures Stale(fs', name, cutoff) <==> Stale(fs, name, cutoff)
  {
    hide TmpPath;
  }

  lemma OneMoreSwept(fs: Fs, fs': Fs, todo: set<string>, cutoff: int, name: string)
    requires PartlySwept(fs, fs', todo, cutoff) && name in todo && Stale(fs', name, cutoff)
    ensures PartlySwept(fs, Unlink(fs', TmpPath(name)), todo - {name}, cutoff)
  {
    forall other | other in todo && other != name ensures SameAt(fs, Unlink(fs', TmpPath(name)), TmpPath(other)) {
      assert TmpPath(other)[1] != TmpPath(name)[1];
    }
    forall p: Path | InTmp(p) && |p| == 2 && p[1] == name ensures p == TmpPath(name) {
    }
  }

  lemma OneMoreKept(fs: Fs, fs': Fs, todo: set<string>, cutoff: int, name: string)
    requires PartlySwept(fs, fs', todo, cutoff) && name in todo && !Stale(fs', name, cutoff)
    ensures PartlySwept(fs, fs', todo - {name}, cutoff)
  {
    forall p | p in fs'.files && InTmp(p) && |p| == 2 && p[1] == name ensures fs.files[p].mtime >= cutoff {
      assert p == TmpPath(name);
    }
  }

  lemma AllSwept(fs: Fs, fs': Fs, cutoff: int)
    requires PartlySwept(fs, fs', {}, cutoff)
    ensures forall p :: p in fs'.files <==>
              p in fs.files && !(|p| == 2 && p[0] == ".tmp" && fs.files[p].mtime < cutoff)
    ensures forall p :: p in fs'.files ==> fs'.files[p] == fs.files[p]
  {
    hide TmpPath;
  }

  lemma FilesAreNoDirectories(cfg: Config, s: Sys, d: Path)
    requires Inv(cfg, s)
    ensures d in s.fs.files ==> d !in s.fs.dirs
  {
    hide GoodTree, GoodSidecars, GoodCommits, GoodProc, Distinct, Owned, LayoutDirs;
  }

  /** A staging file is no obstacle to an object. */
  lemma StagingDoesNotBlock(fs: Fs, fs': Fs, tmp: Path, obj: Path)
    requires InTmp(tmp) && InBucket(obj) && OnlyAt(fs, fs', {tmp})
    ensures FileOnTheWay(fs, obj) <==> FileOnTheWay(fs', obj)
  {
    forall n | 0 < n < |obj| ensures obj[..n] in fs.files <==> obj[..n] in fs'.files {
      assert obj[..n][0] == obj[0] && tmp[0] == TMP_DIR;
      assert SameAt(fs, fs', obj[..n]);
    }
  }

  lemma NoWayNoSidecar(cfg: Config, fs: Fs, id: Id)
    ensures FileOnTheWay(fs, MetaPath(id)) ==> !SidecarFits(cfg, fs, id)
  {
  }

  /** Once the directories of the sidecar are there, its staging file opens exactly when its longer name fits. */
  lemma SidecarGoesIn(cfg: Config, fs: Fs, made: Fs, id: Id, hex: string)
    requires made.files == fs.files && !FileOnTheWay(fs, MetaPath(id)) && fs.dirs <= made.dirs
    requires Parent(MetaPath(id)) in made.dirs
    requires forall d :: d in made.dirs && d !in fs.dirs ==> d < MetaPath(id)
    requires |hex| == UUID_LENGTH && StagePath(id, hex) !in fs.dirs
    ensures StagePath(id, hex) != [] && |Last(MetaPath(id))| <= |Last(StagePath(id, hex))|
    ensures MayCreate(made, StagePath(id, hex), cfg.nameMax) <==> |Last(StagePath(id, hex))| <= cfg.nameMax
    ensures SidecarFits(cfg, fs, id) <==> MetaPath(id) !in made.dirs && MayCreate(made, StagePath(id, hex), cfg.nameMax)
  {
    hide MetaPath, StagePath, FileOnTheWay;
    assert Parent(StagePath(id, hex)) == Parent(MetaPath(id));
  }

  lemma SidecarInstalled(fs: Fs, made: Fs, side: Path, meta: Path, torn: File, file: File)
    requires made.files == fs.files && side != meta
    ensures var written := FileSystem.Put(FileSystem.Put(made, side, torn), side, file);
            && OnlyAt(fs, written, {side, meta}) && SameAt(fs, written, meta)
            && OnlyAt(fs, Rename(written, side, meta), {side, meta})
  {
  }

  lemma RenameNeedsFreePlace(fs: Fs, a: Path, b: Path, nameMax: nat)
    requires a in fs.files && b != [] && Parent(b) in fs.dirs && |Last(b)| <= nameMax
    ensures MayRename(fs, a, b, nameMax) <==> b !in fs.dirs
  {
  }

  /** A put that stored its payload: staged, made directories, renamed, wrote its sidecar. */
  lemma StoredLeaves(cfg: Config, fs: Fs, staged: Fs, ready: Fs, installed: Fs, fs': Fs, job: Job, tmp: string,
                     hex: string, data: seq<Byte>, answer: Answer)
    requires OnlyAt(fs, staged, {TmpPath(tmp)}) && ready.files == staged.files && staged.dirs == fs.dirs
    requires installed.dirs == ready.dirs
    requires OnlyAt(ready, installed, {TmpPath(tmp), ObjPath(job.id)})
    requires forall d :: d in ready.dirs && d !in staged.dirs ==> d < ObjPath(job.id)
    requires OnlyAt(installed, fs', {StagePath(job.id, hex), MetaPath(job.id)})
    requires SidecarLeft(cfg, installed, fs', job, hex, data)
    requires TmpPath(tmp) !in fs.files && TmpPath(tmp) !in installed.files && fs.dirs <= ready.dirs <= fs'.dirs
    requires ObjPath(job.id) in installed.files && installed.files[ObjPath(job.id)].content == Bytes(data)
    requires ValidId(job.id, cfg.settings.buckets) && answer.Stored?
    ensures PutLeaves(cfg, fs, fs', job, hex, data, answer)
  {
    hide ObjPath, MetaPath, StagePath, TmpPath, InBucket, InTmp, IsSidecar, ValidId, SidecarFits, RecordOf;
    var obj, meta, side := ObjPath(job.id), MetaPath(job.id), StagePath(job.id, hex);
    Places(cfg, job.id, tmp, hex);
    forall q | q != obj ensures SameAt(fs, installed, q) {
      if q != TmpPath(tmp) {
        assert SameAt(fs, staged, q) && SameAt(ready, installed, q);
      }
    }
    forall q | q != obj && q != meta && q != side ensures SameAt(fs, fs', q) {
      assert SameAt(installed, fs', q) && SameAt(fs, installed, q);
    }
    assert SameAt(fs, installed, meta);
    assert SameAt(installed, fs', obj);
    SidecarFitsStill(cfg, fs, installed, job.id);
  }

  /** Storing an object changes nothing in the sidecar region. */
  lemma SidecarFitsStill(cfg: Config, fs: Fs, fs': Fs, id: Id)
    requires OnlyAt(fs, fs', {ObjPath(id)}) && fs.dirs <= fs'.dirs && InBucket(ObjPath(id))
    requires forall d :: d in fs'.dirs && d !in fs.dirs ==> d < ObjPath(id)
    ensures SidecarFits(cfg, fs, id) <==> SidecarFits(cfg, fs', id)
  {
    hide ObjPath, MetaPath;
    var meta := MetaPath(id);
    assert meta[0] != ObjPath(id)[0];
    forall n | 0 < n < |meta| ensures meta[..n] in fs.files <==> meta[..n] in fs'.files {
      assert meta[..n][0] == meta[0];
      assert SameAt(fs, fs', meta[..n]);
    }
    assert !(meta < ObjPath(id));
  }

  lemma SameEverywhere(fs: Fs, fs': Fs)
    requires forall q :: SameAt(fs, fs', q)
    ensures fs'.files == fs.files
  {
    forall q ensures q in fs'.files <==> q in fs.files {
      assert SameAt(fs, fs', q);
    }
    forall q | q in fs.files ensures fs'.files[q] == fs.files[q] {
      assert SameAt(fs, fs', q);
    }
  }

  /** A put that failed and unlinked its staging file. */
  lemma FailedLeaves(cfg: Config, fs: Fs, staged: Fs, ready: Fs, fs': Fs, job: Job, tmp: string, hex: string,
                     data: seq<Byte>, answer: Answer)
    requires OnlyAt(fs, staged, {TmpPath(tmp)}) && ready.files == staged.files && fs' == Unlink(ready, TmpPath(tmp))
    requires TmpPath(tmp) !in fs.files && fs.dirs <= fs'.dirs && !answer.Stored?
    ensures PutLeaves(cfg, fs, fs', job, hex, data, answer)
  {
    hide ObjPath, TmpPath;
    forall q ensures SameAt(fs, fs', q) {
      if q != TmpPath(tmp) {
        assert SameAt(fs, staged, q);
      }
    }
    SameEverywhere(fs, fs');
  }

  lemma RootIsDirectory(cfg: Config, s: Sys)
    requires Inv(cfg, s)
    ensures [] in s.fs.dirs
  {
  }

  /** With room for 255 characters a validated key's names fit, and a staging file can be opened. */
  lemma PutFits(cfg: Config, s: Sys, id: Id, tmp: string)
    requires Inv(cfg, s) && ValidId(id, cfg.settings.buckets) && cfg.nameMax >= 255 && |tmp| == UUID_LENGTH
    requires TmpPath(tmp) !in s.fs.dirs
    ensures forall k :: 0 <= k < |ObjPath(id)| ==> |ObjPath(id)[k]| <= cfg.nameMax
    ensures forall k :: 0 <= k < |MetaPath(id)| - 1 ==> |MetaPath(id)[k]| <= cfg.nameMax
    ensures MayCreate(s.fs, TmpPath(tmp), cfg.nameMax)
  {
    hide Split, ValidId, GoodTree, GoodSidecars, GoodCommits, WellFormed, GoodProc, Distinct, Owned;
    ValidNamesAreShort(id, cfg.settings.buckets);
    forall k | 0 <= k < |ObjPath(id)| ensures |ObjPath(id)[k]| <= cfg.nameMax {
      if k > 0 {
        assert ObjPath(id)[k] == Split(id.key, '/')[k - 1];
      }
    }
    forall k | 0 <= k < |MetaPath(id)| - 1 ensures |MetaPath(id)[k]| <= cfg.nameMax {
      MetaSegments(id, k);
    }
    assert Parent(TmpPath(tmp)) == [TMP_DIR];
  }

  datatype Listed = Listed(key: string, info: ObjectInfo)

  lemma KeysAreDistinct(cfg: Config, s: Sys, bucket: string)
    requires Inv(cfg, s) && IsBucket(bucket)
    ensures forall f, g ::
              f in s.fs.files && UnderBucket(f, bucket) && g in s.fs.files && UnderBucket(g, bucket) ==>
                Join(f[1..], '/') == Join(g[1..], '/') ==> f == g
  {
    hide ObjPath, GoodTree, GoodCommits, GoodSidecars, GoodProc, Distinct, Owned, WellFormed, LayoutDirs, KeysIn,
         IsBucket, Join;
    KeysExact(cfg, s.fs, s.issued, s.commits, bucket, "");
  }

  lemma KeysAreObjects(cfg: Config, s: Sys, bucket: string)
    requires Inv(cfg, s) && IsBucket(bucket)
    ensures forall k :: k in KeysIn(s.fs, bucket) ==> ObjPath(Id(bucket, k)) in s.fs.files
  {
    hide ObjPath, GoodTree, GoodCommits, GoodSidecars, GoodProc, Distinct, Owned, WellFormed, LayoutDirs, KeysIn,
         IsBucket;
    forall k | k in KeysIn(s.fs, bucket) ensures ObjPath(Id(bucket, k)) in s.fs.files {
      KeysExact(cfg, s.fs, s.issued, s.commits, bucket, k);
    }
  }

  /** A page of an ascending list above the cursor keeps its order. */
  lemma DescribedInOrder(keys: seq<string>, page: seq<string>, objects: seq<Listed>, cursor: Option<string>)
    requires page <= keys && |objects| == |page| && forall i :: 0 <= i < |page| ==> objects[i].key == page[i]
    requires forall i, j :: 0 <= i < j < |keys| ==> Smaller(keys[i], keys[j])
    requires forall k :: k in keys ==> cursor.None? || cursor.value == "" || Smaller(cursor.value, k)
    ensures forall i, j :: 0 <= i < j < |objects| ==> Smaller(objects[i].key, objects[j].key)
    ensures forall i :: 0 <= i < |objects| && cursor.Some? && cursor.value != "" ==>
              Smaller(cursor.value, objects[i].key)
  {
    hide Smaller;
    forall i | 0 <= i < |page| ensures page[i] == keys[i] && keys[i] in keys {
    }
  }

  lemma CandidatesOf(sorted: seq<string>, found: set<string>, cursor: Option<string>)
    requires forall k :: k in sorted <==> k in found
    ensures SortedOf(set k | k in sorted && Past(cursor, k)) == Candidates(found, "", cursor)
    ensures forall k :: k in Candidates(found, "", cursor) ==> k in found
  {
    hide Past, SortedOf;
    assert (set k | k in sorted && Past(cursor, k)) == set k | k in found && StartsWith(k, "") && Past(cursor, k);
  }

  /** Every chunk is full but the last, which is not empty. */
  ghost predicate Chunked(chunks: seq<seq<Byte>>)
  {
    forall i :: 0 <= i < |chunks| ==> 0 < |chunks[i]| <= 1048576 && (i < |chunks| - 1 ==> |chunks[i]| == 1048576)
  }

  /** The hasher after every chunk: it depends on the bytes only, not on how they were cut. */
  method Hashed(chunks: seq<seq<Byte>>) returns (hasher: seq<Byte>)
    ensures hasher == Concat(chunks)
  {
    hasher := [];
    for i := 0 to |chunks|
      invariant hasher == Concat(chunks[..i])
    {
      hasher := hasher + chunks[i];
      assert chunks[..i + 1] == chunks[..i] + [chunks[i]];
      ConcatSnoc(chunks[..i], chunks[i]);
    }
    assert chunks[..|chunks|] == chunks;
  }

  /** `_stream_file`: read until a read comes back empty. */
  method StreamFile(data: seq<Byte>) returns (chunks: seq<seq<Byte>>)
    ensures Concat(chunks) == data && Chunked(chunks)
  {
    chunks := [];
    var at := 0;
    while at < |data|
      invariant 0 <= at <= |data|
      invariant Concat(chunks) == data[..at] && Chunked(chunks)
      invariant at < |data| ==> forall i :: 0 <= i < |chunks| ==> |chunks[i]| == CHUNK_SIZE
    {
      var end := if |data| - at < CHUNK_SIZE then |data| else at + CHUNK_SIZE;
      ConcatSnoc(chunks, data[at..end]);
      chunks := chunks + [data[at..end]];
      assert data[..end] == data[..at] + data[at..end];
      at := end;
    }
    assert data[..at] == data;
  }
}
