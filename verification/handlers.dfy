/**
 * The write handlers over the driver on disk (put_object.py, create_upload.py and delete_object.py in
 * src/routers/storage): which response each request gets, what it leaves, and what a sequence of requests keeps.
 */
module Handlers {
  import opened Strings
  import opened Options
  import opened KeyGrammar
  import opened Layout
  import opened FileSystem
  import opened Policy
  import opened Machine
  import opened Safety
  import opened Agreement
  import opened Driver
  import opened Faults

  datatype Response =
    | Success(status: nat, etag: string, bytes: nat)
    | Deletion(status: nat, existed: bool)
    | Failure(status: nat)
    | Disconnected

  /** src/core/errors.py. */
  function StatusOf(error: HttpError): nat
  {
    match error
    case ValidationError(_) => 400
    case PrefixNotAllowed => 403
    case AlreadyExists => 409
    case PayloadTooLarge => 413
    case UnsupportedMediaType => 415
  }

  function FailureResponse(why: Machine.Failure): Response
  {
    match why
    case TooLarge => Failure(StatusOf(PayloadTooLarge))
    case SourceBroken => Disconnected
    case NoSpace => Failure(507)
    case IoError => Failure(500)
  }

  function PutResponse(answer: Answer, status: nat): Response
  {
    match answer
    case Stored(etag, bytes) => Success(status, etag, bytes)
    case Duplicate(_, _) => Failure(StatusOf(AlreadyExists))
    case Failed(why) => FailureResponse(why)
    case _ => Disconnected
  }

  /** The response to a write that is refused, or admitted and put alone and without faults. */
  ghost function Reply(cfg: Config, fs: Fs, admitted: Checked<Job>, payload: seq<Byte>, broken: bool,
                       status: nat): Response
  {
    if admitted.Err? then Failure(StatusOf(admitted.error))
    else PutResponse(PutAnswer(cfg, fs, admitted.value, payload, broken), status)
  }

  // ---- Requests in sequence ------------------------------------------------

  /** What a finished request did: a create is a non-upsert PUT answered 201. */
  datatype Done = Created(id: Id) | Replaced(id: Id) | Removed(id: Id) | Nothing

  predicate Stores(d: Done, id: Id) { d == Created(id) || d == Replaced(id) }

  /** `id` was stored by a request after which none removed it. */
  ghost predicate Standing(history: seq<Done>, id: Id)
  {
    exists i :: 0 <= i < |history| && Stores(history[i], id) && RemovedNotAfter(history, i, id)
  }

  ghost predicate RemovedNotAfter(history: seq<Done>, i: nat, id: Id)
  {
    forall j :: i < j < |history| ==> history[j] != Removed(id)
  }

  /** Between two creates of one key there is a removal of it; so is there between a create and any earlier store. */
  ghost predicate FirstWriteWins(history: seq<Done>)
  {
    forall i, j :: 0 <= i < j < |history| && history[j].Created? && Stores(history[i], history[j].id) ==>
      exists k :: i < k < j && history[k] == Removed(history[j].id)
  }

  lemma CreateKeepsFirstWriteWins(history: seq<Done>, id: Id)
    requires FirstWriteWins(history) && !Standing(history, id)
    ensures FirstWriteWins(history + [Created(id)])
  {
    var more := history + [Created(id)];
    forall i, j | 0 <= i < j < |more| && more[j].Created? && (more[i] == more[j] || more[i] == Replaced(more[j].id))
      ensures exists k :: i < k < j && more[k] == Removed(more[j].id)
    {
      if j < |history| {
        var k :| i < k < j && history[k] == Removed(history[j].id);
        assert more[k] == Removed(more[j].id);
      } else {
        assert !RemovedNotAfter(history, i, id);
        var k :| i < k < |history| && history[k] == Removed(id);
        assert more[k] == Removed(more[j].id);
      }
    }
  }

  lemma OthersKeepFirstWriteWins(history: seq<Done>, d: Done)
    requires FirstWriteWins(history) && !d.Created?
    ensures FirstWriteWins(history + [d])
  {
    var more := history + [d];
    forall i, j | 0 <= i < j < |more| && more[j].Created? && (more[i] == more[j] || more[i] == Replaced(more[j].id))
      ensures exists k :: i < k < j && more[k] == Removed(more[j].id)
    {
      var k :| i < k < j && history[k] == Removed(history[j].id);
      assert more[k] == Removed(more[j].id);
    }
  }

  /** A key stands after one more request only if it stood before and was not removed, or was just stored. */
  lemma StandingAfter(history: seq<Done>, d: Done, id: Id)
    requires Standing(history + [d], id)
    ensures d == Created(id) || d == Replaced(id) || (d != Removed(id) && Standing(history, id))
  {
    var more := history + [d];
    var i :| 0 <= i < |more| && (more[i] == Created(id) || more[i] == Replaced(id)) && RemovedNotAfter(more, i, id);
    if i < |history| {
      assert more[|history|] != Removed(id);
      forall j | i < j < |history| ensures history[j] != Removed(id) {
        assert more[j] == history[j];
      }
      assert RemovedNotAfter(history, i, id);
    }
  }

  /** Sidecar and `head` of a key tell of this payload, this content type and this uploader. */
  ghost predicate Describes(cfg: Config, fs: Fs, id: Id, payload: seq<Byte>, contentType: string, tag: string)
  {
    var metadata := map["uploader" := tag];
    && MetaPath(id) in fs.files
    && fs.files[MetaPath(id)].content == Json(Record(contentType, cfg.hash(payload), |payload|, tag, metadata))
    && HeadAnswer(cfg, fs, id) == Some(ObjectInfo(|payload|, contentType, cfg.hash(payload), metadata))
  }

  class StorageService {
    const driver: LocalFsBlobDriver
    ghost var history: seq<Done>

    /** Every object some request stored and none removed is there. */
    ghost predicate Valid()
      reads this, driver
    {
      && driver.Valid()
      && FirstWriteWins(history)
      && forall id :: ValidId(id, driver.cfg.settings.buckets) && Standing(history, id) ==> ObjPath(id) in driver.files
    }

    constructor (driver: LocalFsBlobDriver)
      requires driver.Valid()
      ensures this.driver == driver && Valid() && history == []
    {
      this.driver := driver;
      this.history := [];
    }

    /** The random names and the process number of the next put are fresh. */
    ghost predicate FreshNames(id: Id, tmp: string, hex: string, pid: nat)
      reads this, driver
    {
      && Fresh(driver.sys, pid) && tmp !in driver.sys.issued && hex !in driver.sys.issued && tmp != hex
      && |tmp| == |hex| == UUID_LENGTH && TmpPath(tmp) !in driver.dirs && StagePath(id, hex) !in driver.dirs
    }

    /** The driver's put of an admitted job, entered into the history. */
    method Store(job: Job, chunks: seq<seq<Byte>>, broken: bool, tmp: string, hex: string,
                 ghost pid: nat) returns (answer: Answer)
      requires Valid() && Admissible(driver.cfg.settings, job) && driver.cfg.nameMax >= 255
      requires FreshNames(job.id, tmp, hex, pid)
      modifies this, driver
      ensures Valid()
      ensures answer == PutAnswer(driver.cfg, old(driver.View()), job, Concat(chunks), broken)
      ensures PutLeaves(driver.cfg, old(driver.View()), driver.View(), job, hex, Concat(chunks), answer)
      ensures !answer.Stored? ==> history == old(history) + [Nothing]
      ensures answer.Stored? && job.exclusive ==> history == old(history) + [Created(job.id)]
      ensures answer.Stored? && !job.exclusive ==> history == old(history) + [Replaced(job.id)]
    {
      hide ObjPath, MetaPath, StagePath, TmpPath, Admissible, Inv, Standing, FirstWriteWins, PutLeaves, PutAnswer,
           ValidId, Concat, Runs;
      ghost var trace;
      ghost var before := driver.View();
      PutIsEnabled(driver.cfg, driver.sys, pid, job, tmp, hex);
      answer, trace := driver.Put(job, chunks, broken, tmp, hex, pid);
      ghost var d :=
        if !answer.Stored? then Nothing else if job.exclusive then Created(job.id) else Replaced(job.id);
      if answer.Stored? && job.exclusive {
        StoredWasAbsent(driver.cfg, before, job, Concat(chunks), broken);
        AdmissibleIsValid(driver.cfg.settings, job);
        assert !Standing(history, job.id);
        CreateKeepsFirstWriteWins(history, job.id);
      } else {
        OthersKeepFirstWriteWins(history, d);
      }
      forall id | ValidId(id, driver.cfg.settings.buckets) && Standing(history + [d], id)
        ensures ObjPath(id) in driver.files
      {
        StandingAfter(history, d, id);
        AdmissibleIsValid(driver.cfg.settings, job);
        PutKeepsObjects(driver.cfg, before, driver.View(), job, hex, Concat(chunks), answer, id);
      }
      history := history + [d];
    }

    /** `put_object`. */
    method PutObject(caller: string, id: Id, contentType: Option<string>, declared: Option<nat>, upsert: bool,
                     chunks: seq<seq<Byte>>, broken: bool, tmp: string, hex: string, ghost pid: nat)
      returns (response: Response)
      requires Valid() && driver.cfg.nameMax >= 255 && FreshNames(id, tmp, hex, pid)
      modifies this, driver
      ensures Valid()
      ensures var admitted := AdmitPut(driver.cfg.settings, caller, id, contentType, declared, upsert);
              var status := if upsert then 200 else 201;
              response == Reply(driver.cfg, old(driver.View()), admitted, Concat(chunks), broken, status)
      ensures var admitted := AdmitPut(driver.cfg.settings, caller, id, contentType, declared, upsert);
              if admitted.Err? then driver.View() == old(driver.View()) && history == old(history)
              else
                var answer := PutAnswer(driver.cfg, old(driver.View()), admitted.value, Concat(chunks), broken);
                && PutLeaves(driver.cfg, old(driver.View()), driver.View(), admitted.value, hex, Concat(chunks), answer)
                && var stored := if upsert then Replaced(id) else Created(id);
                   history == old(history) + [if answer.Stored? then stored else Nothing]
      ensures response.Success? ==>
                && contentType.Some? && ObjPath(id) in driver.files
                && driver.files[ObjPath(id)].content == Bytes(Concat(chunks))
      ensures response.Success? && SidecarFits(driver.cfg, old(driver.View()), id) ==>
                Describes(driver.cfg, driver.View(), id, Concat(chunks), contentType.value, "svc:" + caller)
    {
      hide ObjPath, MetaPath, StagePath, TmpPath, Inv, Standing, FirstWriteWins, PutLeaves, PutAnswer, ValidId, Concat,
           Runs, AdmitPut, Admissible;
      var admitted := AdmitPut(driver.cfg.settings, caller, id, contentType, declared, upsert);
      if admitted.Err? {
        return Failure(StatusOf(admitted.error));
      }
      AdmittedPutIsAdmissible(driver.cfg.settings, caller, id, contentType, declared, upsert);
      var answer := Store(admitted.value, chunks, broken, tmp, hex, pid);
      if answer.Duplicate? {
        return Failure(StatusOf(AlreadyExists));
      }
      PutAnswerShape(driver.cfg, old(driver.View()), admitted.value, Concat(chunks), broken);
      response := PutResponse(answer, if upsert then 200 else 201);
      if answer.Stored? {
        StoredIsDescribed(driver.cfg, old(driver.View()), driver.View(), admitted.value, hex, Concat(chunks), answer,
                          "svc:" + caller);
      }
    }

    /** `create_upload`: the file is read in chunks of 1 MiB and replaces what was there. */
    method CreateUpload(sub: string, id: Id, contentType: Option<string>, size: Option<nat>, body: seq<Byte>,
                        tmp: string, hex: string, ghost pid: nat) returns (response: Response)
      requires Valid() && driver.cfg.nameMax >= 255 && FreshNames(id, tmp, hex, pid)
      modifies this, driver
      ensures Valid()
      ensures var admitted := AdmitUpload(driver.cfg.settings, sub, id, contentType, size);
              response == Reply(driver.cfg, old(driver.View()), admitted, body, false, 201)
      ensures var admitted := AdmitUpload(driver.cfg.settings, sub, id, contentType, size);
              if admitted.Err? then driver.View() == old(driver.View()) && history == old(history)
              else
                var answer := PutAnswer(driver.cfg, old(driver.View()), admitted.value, body, false);
                && PutLeaves(driver.cfg, old(driver.View()), driver.View(), admitted.value, hex, body, answer)
                && history == old(history) + [if answer.Stored? then Replaced(id) else Nothing]
      ensures response.Success? ==>
                && contentType.Some? && ObjPath(id) in driver.files
                && driver.files[ObjPath(id)].content == Bytes(body)
      ensures response.Success? && SidecarFits(driver.cfg, old(driver.View()), id) ==>
                Describes(driver.cfg, driver.View(), id, body, contentType.value, "user:" + sub)
    {
      hide ObjPath, MetaPath, StagePath, TmpPath, Inv, Standing, FirstWriteWins, PutLeaves, PutAnswer, ValidId, Concat,
           Runs, AdmitUpload, Admissible, Chunked;
      var admitted := AdmitUpload(driver.cfg.settings, sub, id, contentType, size);
      if admitted.Err? {
        return Failure(StatusOf(admitted.error));
      }
      AdmittedUploadIsAdmissible(driver.cfg.settings, sub, id, contentType, size);
      var chunks := StreamFile(body);
      var answer := Store(admitted.value, chunks, false, tmp, hex, pid);
      response := PutResponse(answer, 201);
      if answer.Stored? {
        StoredIsDescribed(driver.cfg, old(driver.View()), driver.View(), admitted.value, hex, body, answer,
                          "user:" + sub);
      }
    }

    /** `delete_object`: 200 whether or not there was an object. */
    method DeleteObject(who: Principal, id: Id, ghost pid: nat) returns (response: Response)
      requires Valid() && Fresh(driver.sys, pid)
      modifies this, driver
      ensures Valid()
      ensures var admitted := AdmitDelete(driver.cfg.settings, who, id);
              if admitted.Err? then
                && response == Failure(StatusOf(admitted.error))
                && driver.View() == old(driver.View()) && history == old(history)
              else
                && response == Deletion(200, ObjPath(id) in old(driver.files))
                && ObjPath(id) !in driver.files && MetaPath(id) !in driver.files
                && OnlyAt(old(driver.View()), driver.View(), {ObjPath(id), MetaPath(id)})
                && history == old(history) + [Removed(id)]
    {
      hide ObjPath, MetaPath, Inv, Standing, FirstWriteWins, ValidId, Runs, AdmitDelete, OnlyAt, MayWrite;
      var admitted := AdmitDelete(driver.cfg.settings, who, id);
      if admitted.Err? {
        return Failure(StatusOf(admitted.error));
      }
      AdmitDeleteExact(driver.cfg.settings, who, id);
      ghost var before := driver.View();
      ghost var trace;
      var existed;
      existed, trace := driver.Delete(id, who, pid);
      OthersKeepFirstWriteWins(history, Removed(id));
      forall other | ValidId(other, driver.cfg.settings.buckets) && Standing(history + [Removed(id)], other)
        ensures ObjPath(other) in driver.files
      {
        StandingAfter(history, Removed(id), other);
        WritableIsValid(driver.cfg.settings, who, id);
        DeleteKeepsObjects(driver.cfg, before, driver.View(), id, other);
      }
      history := history + [Removed(id)];
      response := Deletion(200, existed);
    }
  }

  // ---- Facts the handlers need ---------------------------------------------

  lemma PutIsEnabled(cfg: Config, s: Sys, pid: nat, job: Job, tmp: string, hex: string)
    requires Fresh(s, pid) && Admissible(cfg.settings, job)
    requires tmp !in s.issued && hex !in s.issued && tmp != hex && |tmp| == |hex| == UUID_LENGTH
    ensures Enabled(cfg, s, StartPut(pid, job, tmp, hex))
  {
    hide Admissible;
  }

  lemma AdmissibleIsValid(settings: Settings, job: Job)
    requires Admissible(settings, job)
    ensures ValidId(job.id, settings.buckets)
  {
    hide ValidId, S2sCap, UserCap, ServiceOnly;
  }

  lemma WritableIsValid(settings: Settings, who: Principal, id: Id)
    requires MayWrite(settings, who, id)
    ensures ValidId(id, settings.buckets)
  {
    hide ValidId, ServiceOnly;
  }

  lemma StoredIsDescribed(cfg: Config, fs: Fs, fs': Fs, job: Job, hex: string, payload: seq<Byte>, answer: Answer,
                          tag: string)
    requires PutLeaves(cfg, fs, fs', job, hex, payload, answer) && answer.Stored? && job.contentType != ""
    requires job.metadata == map["uploader" := tag]
    ensures ObjPath(job.id) in fs'.files && fs'.files[ObjPath(job.id)].content == Bytes(payload)
    ensures SidecarFits(cfg, fs, job.id) ==> Describes(cfg, fs', job.id, payload, job.contentType, tag)
  {
    hide ObjPath, MetaPath, StagePath, SidecarFits, OnlyAt, HeadAnswer;
    HeadAfterPut(cfg, fs, fs', job, hex, payload, answer);
  }

  lemma StoredWasAbsent(cfg: Config, fs: Fs, job: Job, payload: seq<Byte>, broken: bool)
    requires PutAnswer(cfg, fs, job, payload, broken).Stored? && job.exclusive
    ensures ObjPath(job.id) !in fs.files
  {
    hide ObjPath, HeadAnswer;
  }

  lemma PutAnswerShape(cfg: Config, fs: Fs, job: Job, payload: seq<Byte>, broken: bool)
    ensures var answer := PutAnswer(cfg, fs, job, payload, broken);
            answer.Stored? || answer.Failed? || (answer.Duplicate? && job.exclusive)
  {
    hide ObjPath, HeadAnswer;
  }

  lemma PutKeepsObjects(cfg: Config, fs: Fs, fs': Fs, job: Job, hex: string, payload: seq<Byte>, answer: Answer, id: Id)
    requires PutLeaves(cfg, fs, fs', job, hex, payload, answer)
    requires ValidId(job.id, cfg.settings.buckets) && ValidId(id, cfg.settings.buckets)
    requires ObjPath(id) in fs.files || (answer.Stored? && id == job.id)
    ensures ObjPath(id) in fs'.files
  {
    hide ObjPath, MetaPath, StagePath, ValidId, InBucket, InTmp, IsSidecar, SidecarLeft;
    Places(cfg, job.id, "", hex);
    Places(cfg, id, "", hex);
    if answer.Stored? && id != job.id {
      PathsOfIds(job.id, id);
      assert SameAt(fs, fs', ObjPath(id));
    }
  }

  lemma DeleteKeepsObjects(cfg: Config, fs: Fs, fs': Fs, gone: Id, id: Id)
    requires OnlyAt(fs, fs', {ObjPath(gone), MetaPath(gone)}) && gone != id && ObjPath(id) in fs.files
    requires ValidId(gone, cfg.settings.buckets) && ValidId(id, cfg.settings.buckets)
    ensures ObjPath(id) in fs'.files
  {
    hide ObjPath, MetaPath, StagePath, ValidId, InBucket, InTmp, IsSidecar;
    Places(cfg, gone, "", "");
    Places(cfg, id, "", "");
    PathsOfIds(gone, id);
    assert SameAt(fs, fs', ObjPath(id));
  }

  // ---- Exactly when --------------------------------------------------------

  /**
   * Which response a PUT gets, for every request and every tree. `cap` is that of the longest configured prefix of the
   * key, or the general one.
   */
  lemma PutStatusExact(cfg: Config, fs: Fs, caller: string, id: Id, contentType: Option<string>, declared: Option<nat>,
                       upsert: bool, payload: seq<Byte>, broken: bool, entry: Option<string>)
    requires IsLongest(cfg.settings.prefixCaps.Keys, id.key, entry)
    ensures var admitted := AdmitPut(cfg.settings, caller, id, contentType, declared, upsert);
            var ok := if upsert then 200 else 201;
            var response := Reply(cfg, fs, admitted, payload, broken, ok);
            var valid := ValidateBucket(id.bucket, cfg.settings.buckets).Accepted? && InLanguage(id.key, true);
            var typed := contentType.Some? && contentType.value != "";
            var cap := if entry.Some? then cfg.settings.prefixCaps[entry.value] else cfg.settings.maxObjectBytes;
            var welcome := valid && typed && (declared.Some? ==> declared.value <= cap);
            var obj := ObjPath(id);
            var taken := !upsert && (obj in fs.files || obj in fs.dirs);
            var free := obj !in fs.dirs && forall n :: 0 < n < |obj| ==> obj[..n] !in fs.files;
            var read := welcome && !taken && |payload| <= cap;
            && (response == Failure(400) <==> !valid || !typed)
            && (response == Failure(413) <==> valid && typed && (!welcome || (!taken && |payload| > cap)))
            && (response == Failure(409) <==> welcome && taken)
            && (response == Disconnected <==> read && broken)
            && (response == Failure(500) <==> read && !broken && !free)
            && (response == Success(ok, cfg.hash(payload), |payload|) <==> read && !broken && free)
  {
    hide ObjPath, HeadAnswer, S2sCap, ValidateKey, ValidateBucket, AdmitPut, IsLongest, InLanguage;
    PutAdmittedExactly(cfg.settings, caller, id, contentType, declared, upsert, entry);
  }

  /** Which response an upload gets. `low` is its media type, and `entry` the longest configured one it starts with. */
  lemma UploadStatusExact(cfg: Config, fs: Fs, sub: string, id: Id, contentType: Option<string>, size: Option<nat>,
                          body: seq<Byte>, text: string, p: Parts, low: string, entry: Option<string>)
    requires contentType == Some(text) || (contentType.None? && text == "")
    requires IsParts(text, p) && IsLowered(p.core, low) && IsLongest(cfg.settings.mimeCaps.Keys, low, entry)
    ensures var admitted := AdmitUpload(cfg.settings, sub, id, contentType, size);
            var response := Reply(cfg, fs, admitted, body, false, 201);
            var valid := ValidateBucket(id.bucket, cfg.settings.buckets).Accepted? && InLanguage(id.key, false);
            var open := forall i :: 0 <= i < |cfg.settings.serviceOnly| ==> !(cfg.settings.serviceOnly[i] <= id.key);
            var listed := low != "" && entry.Some?;
            var cap := if entry.Some? then cfg.settings.mimeCaps[entry.value] else 0;
            var small := (size.Some? ==> size.value <= cap) && |body| <= cap;
            var obj := ObjPath(id);
            var free := obj !in fs.dirs && forall n :: 0 < n < |obj| ==> obj[..n] !in fs.files;
            && (response == Failure(400) <==> !valid)
            && (response == Failure(403) <==> valid && !open)
            && (response == Failure(415) <==> valid && open && !listed)
            && (response == Failure(413) <==> valid && open && listed && !small)
            && (response == Failure(500) <==> valid && open && listed && small && !free)
            && (response == Success(201, cfg.hash(body), |body|) <==> valid && open && listed && small && free)
  {
    hide ObjPath, HeadAnswer, ValidateKey, ValidateBucket, AdmitUpload, IsLongest, InLanguage, IsParts, IsLowered;
    UploadAdmittedExactly(cfg.settings, sub, id, contentType, size, text, p, low, entry);
  }

  /** Which response a DELETE gets; 200 whether or not there was an object. */
  lemma DeleteStatusExact(settings: Settings, who: Principal, id: Id, existed: bool)
    ensures var admitted := AdmitDelete(settings, who, id);
            var response := if admitted.Err? then Failure(StatusOf(admitted.error)) else Deletion(200, existed);
            var valid := ValidateBucket(id.bucket, settings.buckets).Accepted? && InLanguage(id.key, who.Service?);
            var open := forall i :: 0 <= i < |settings.serviceOnly| ==> !(settings.serviceOnly[i] <= id.key);
            && (response == Failure(400) <==> !valid)
            && (response == Failure(403) <==> valid && who.User? && !open)
            && (response == Deletion(200, existed) <==> valid && (who.Service? || open))
  {
    hide ValidateKey, ValidateBucket, AdmitDelete, InLanguage;
    DeleteAdmittedExactly(settings, who, id);
  }

  /** A put that meets a fault before its rename is answered 507 when the disk is full, and 500 otherwise. */
  lemma FaultStatus(cfg: Config, s: Sys, pid: nat, noSpace: bool, status: nat)
    requires pid in s.procs && BeforeRename(s.procs[pid])
    ensures Enabled(cfg, s, Fault(pid, noSpace)) && Enabled(cfg, Next(cfg, s, Fault(pid, noSpace)), Go(pid))
    ensures var t := Next(cfg, Next(cfg, s, Fault(pid, noSpace)), Go(pid));
            |t.log| == |s.log| + 1 && PutResponse(Last(t.log).answer, status) == Failure(if noSpace then 507 else 500)
  {
    hide Enabled, Next;
    FaultBeforeRename(cfg, s, pid, noSpace);
  }

  /**
   * A fault-free upsert within its cap, with the answer and the effect the driver's put promises: it stores its payload
   * exactly when its target is no directory and no file lies above it, and otherwise fails and changes no file.
   */
  lemma UpsertStoresExactly(cfg: Config, fs: Fs, fs': Fs, job: Job, hex: string, payload: seq<Byte>, answer: Answer)
    requires !job.exclusive && |payload| <= job.cap
    requires answer == PutAnswer(cfg, fs, job, payload, false) && PutLeaves(cfg, fs, fs', job, hex, payload, answer)
    ensures var obj := ObjPath(job.id); var free := obj !in fs.dirs && forall n :: 0 < n < |obj| ==>
              obj[..n] !in fs.files;
            && (free ==> answer == Stored(cfg.hash(payload), |payload|)
                         && obj in fs'.files && fs'.files[obj].content == Bytes(payload))
            && (!free ==> answer == Failed(IoError) && fs'.files == fs.files)
  {
    hide ObjPath, MetaPath, StagePath, HeadAnswer, OnlyAt, SidecarLeft;
  }
}
