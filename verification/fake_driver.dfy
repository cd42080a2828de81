/**
 * The in-memory driver (tests/fakes/fake_blob_driver.py) and the cap on its source (`counting_stream` in
 * src/routers/storage/common.py); and, call by call, where the driver on disk answers as it does.
 */
module FakeDriver {
  import opened Strings
  import opened Options
  import opened Layout
  import opened FileSystem
  import opened Policy
  import opened Machine
  import opened Safety
  import opened Agreement
  import opened MapStore
  import opened Listing
  import opened Pages
  import opened Driver

  /** `counting_stream`: pass chunks on until the running total exceeds the cap. */
  method CountingStream(source: seq<seq<Byte>>, cap: nat) returns (passed: seq<seq<Byte>>, tooLarge: bool)
    ensures passed <= source && |Concat(passed)| <= cap
    ensures tooLarge <==> |Concat(source)| > cap
    ensures if tooLarge then |passed| < |source| && |Concat(source[..|passed| + 1])| > cap else passed == source
  {
    var total := 0;
    for i := 0 to |source|
      invariant total == |Concat(source[..i])| <= cap
    {
      assert source[..i + 1] == source[..i] + [source[i]];
      ConcatSnoc(source[..i], source[i]);
      total := total + |source[i]|;
      if total > cap {
        ConcatPrefix(source, i + 1);
        return source[..i], true;
      }
    }
    assert source[..|source|] == source;
    return source, false;
  }

  /** Why a put whose source yields these chunks, and then perhaps raises, gives up. */
  function SourceError(chunks: seq<seq<Byte>>, broken: bool, cap: nat): Option<Failure>
  {
    if |Concat(chunks)| > cap then Some(TooLarge) else if broken then Some(SourceBroken) else None
  }

  datatype Recorded = RecordedPut(id: Id, contentType: string, exclusive: bool) | RecordedDelete(id: Id)

  class FakeBlobDriver {
    const cfg: Config
    var store: Store
    var calls: seq<Recorded>

    constructor (cfg: Config)
      ensures this.cfg == cfg && store == map[] && calls == []
    {
      this.cfg := cfg;
      this.store := map[];
      this.calls := [];
    }

    method Put(job: Job, chunks: seq<seq<Byte>>, broken: bool) returns (answer: Answer)
      modifies this
      ensures var call := PutCall(job, Concat(chunks), SourceError(chunks, broken, job.cap));
              Served(store, answer) == Serve(cfg, old(store), call)
      ensures calls == old(calls) + [RecordedPut(job.id, job.contentType, job.exclusive)]
    {
      calls := calls + [RecordedPut(job.id, job.contentType, job.exclusive)];
      if job.exclusive && job.id in store {
        return Duplicate(cfg.hash(store[job.id].data), |store[job.id].data|);
      }
      var passed, tooLarge := CountingStream(chunks, job.cap);
      if tooLarge {
        return Failed(TooLarge);
      }
      if broken {
        return Failed(SourceBroken);
      }
      var raw := Hashed(passed);
      store := store[job.id := Entry(raw, job.contentType, job.metadata)];
      answer := Stored(cfg.hash(raw), |raw|);
    }

    method Get(id: Id) returns (chunks: Option<seq<seq<Byte>>>)
      ensures var answer := Serve(cfg, store, GetCall(id)).answer;
              answer == Data(if chunks.Some? then Some(Concat(chunks.value)) else None)
    {
      if id !in store {
        return None;
      }
      chunks := Some([store[id].data]);
      ConcatSnoc([], store[id].data);
      assert [] + [store[id].data] == [store[id].data];
      assert Concat<Byte>([]) + store[id].data == store[id].data;
    }

    method Head(id: Id) returns (info: Option<ObjectInfo>)
      ensures Serve(cfg, store, HeadCall(id)) == Served(store, Info(info))
    {
      info := if id in store then Some(InfoOf(cfg, store[id])) else None;
    }

    method Delete(id: Id) returns (existed: bool)
      modifies this
      ensures Served(store, Deleted(existed)) == Serve(cfg, old(store), DeleteCall(id))
      ensures calls == old(calls) + [RecordedDelete(id)]
    {
      calls := calls + [RecordedDelete(id)];
      existed := id in store;
      store := store - {id};
    }

    method List(bucket: string, prefix: string, cursor: Option<string>, limit: nat) returns (objects: seq<Listed>,
                next: Option<string>)
      ensures var kept := StoreKeys(store, bucket);
              var page := PageFrom(Candidates(kept, prefix, cursor), kept, limit);
              && next == page.next && |objects| == |page.keys|
              && (forall i :: 0 <= i < |objects| ==>
                    && objects[i].key == page.keys[i] && Id(bucket, page.keys[i]) in store
                    && objects[i].info == InfoOf(cfg, store[Id(bucket, page.keys[i])]))
      ensures forall i, j :: 0 <= i < j < |objects| ==> Smaller(objects[i].key, objects[j].key)
    {
      hide SortedOf, Past, Before, InfoOf, StoreKeys, Ascending, Alive, Smaller;
      KeptAreStored(store, bucket);
      ghost var kept := StoreKeys(store, bucket);
      var keys := Matching(bucket, prefix);
      keys := Sort(keys);
      SortedCandidates(keys, kept, prefix, cursor);
      keys := AboveCursor(keys, cursor);
      var page := if |keys| > limit then keys[..limit] else keys;
      forall i | 0 <= i < |page| ensures page[i] in kept {
        assert page[i] == keys[i] && keys[i] in keys;
      }
      AllAliveIn(page, kept);
      objects := Describe(bucket, page);
      next := if |keys| > limit && page != [] then Some(Last(page)) else None;
    }

    /** The keys of a bucket with a prefix, in no particular order. */
    method Matching(bucket: string, prefix: string) returns (keys: seq<string>)
      ensures forall i, j :: 0 <= i < j < |keys| ==> keys[i] != keys[j]
      ensures forall k :: k in keys <==> k in StoreKeys(store, bucket) && StartsWith(k, prefix)
    {
      keys := [];
      var todo := StoreKeys(store, bucket);
      while todo != {}
        invariant todo <= StoreKeys(store, bucket)
        invariant forall i, j :: 0 <= i < j < |keys| ==> keys[i] != keys[j]
        invariant forall k :: k in keys <==> k in StoreKeys(store, bucket) && k !in todo && StartsWith(k, prefix)
        decreases todo
      {
        var k :| k in todo;
        if StartsWith(k, prefix) {
          keys := keys + [k];
        }
        todo := todo - {k};
      }
    }

    method Describe(bucket: string, page: seq<string>) returns (objects: seq<Listed>)
      requires forall i :: 0 <= i < |page| ==> Id(bucket, page[i]) in store
      ensures |objects| == |page|
      ensures forall j :: 0 <= j < |page| ==> objects[j] == Listed(page[j], InfoOf(cfg, store[Id(bucket, page[j])]))
    {
      hide InfoOf;
      objects := [];
      for i := 0 to |page|
        invariant |objects| == i
        invariant forall j :: 0 <= j < i ==> objects[j] == Listed(page[j], InfoOf(cfg, store[Id(bucket, page[j])]))
      {
        objects := objects + [Listed(page[i], InfoOf(cfg, store[Id(bucket, page[i])]))];
      }
    }
  }

  lemma KeptAreStored(store: Store, bucket: string)
    ensures forall k :: k in StoreKeys(store, bucket) ==> Id(bucket, k) in store
  {
  }

  lemma SortedCandidates(sorted: seq<string>, kept: set<string>, prefix: string, cursor: Option<string>)
    requires forall k :: k in sorted <==> k in kept && StartsWith(k, prefix)
    ensures SortedOf(set k | k in sorted && Past(cursor, k)) == Candidates(kept, prefix, cursor)
    ensures forall k :: k in Candidates(kept, prefix, cursor) ==> k in kept
  {
    hide SortedOf, Past;
    assert (set k | k in sorted && Past(cursor, k)) == set k | k in kept && StartsWith(k, prefix) && Past(cursor, k);
  }

  // ---- Call by call: the disk against the map ------------------------------

  /** The tree holds the map's object of this key, and `head` says what the map says. */
  ghost predicate Mirrors(cfg: Config, fs: Fs, store: Store, id: Id)
  {
    && (ObjPath(id) in fs.files <==> id in store)
    && (id in store ==> fs.files[ObjPath(id)].content == Bytes(store[id].data))
    && HeadAnswer(cfg, fs, id) == if id in store then Some(InfoOf(cfg, store[id])) else None
  }

  /**
   * A lone, fault-free put answers as the map does exactly when nothing is in its way, or its source fails first and no
   * existence check comes before that. A directory at an object's path passes the existence check for an object.
   */
  lemma PutAnswersLikeTheMapExactly(cfg: Config, fs: Fs, store: Store, job: Job, chunks: seq<seq<Byte>>, broken: bool)
    requires Mirrors(cfg, fs, store, job.id) && WellFormed(fs)
    ensures PutAnswer(cfg, fs, job, Concat(chunks), broken)
              == Serve(cfg, store, PutCall(job, Concat(chunks), SourceError(chunks, broken, job.cap))).answer
            <==>
            || !Blocked(fs, ObjPath(job.id))
            || (SourceError(chunks, broken, job.cap).Some? && !(job.exclusive && ObjPath(job.id) in fs.dirs))
  {
    hide ObjPath, HeadAnswer, Concat;
    if ObjPath(job.id) in fs.files && FileOnTheWay(fs, ObjPath(job.id)) {
      var n :| 0 < n < |ObjPath(job.id)| && ObjPath(job.id)[..n] in fs.files;
      AboveFile(fs, ObjPath(job.id), n);
      assert false;
    }
    if ObjPath(job.id) in fs.dirs && ObjPath(job.id) !in fs.files {
      HeadAnswerIs(cfg, fs, job.id);
    }
  }

  /** A stored put whose sidecar fits leaves tree and map in step, at its own key and at every other. */
  lemma PutKeepsMirror(cfg: Config, fs: Fs, fs': Fs, store: Store, job: Job, hex: string, chunks: seq<seq<Byte>>,
                       broken: bool, answer: Answer, id: Id)
    requires Mirrors(cfg, fs, store, id) && Mirrors(cfg, fs, store, job.id) && WellFormed(fs)
    requires answer == PutAnswer(cfg, fs, job, Concat(chunks), broken)
    requires PutLeaves(cfg, fs, fs', job, hex, Concat(chunks), answer)
    requires !Blocked(fs, ObjPath(job.id)) && SidecarFits(cfg, fs, job.id) && job.contentType != ""
    requires ValidId(job.id, cfg.settings.buckets) && ValidId(id, cfg.settings.buckets)
    ensures var served := Serve(cfg, store, PutCall(job, Concat(chunks), SourceError(chunks, broken, job.cap)));
            answer == served.answer && Mirrors(cfg, fs', served.store, id)
  {
    hide ObjPath, MetaPath, StagePath, HeadAnswer, Concat, ValidId, SidecarFits, Blocked, PutAnswer, InBucket, InTmp,
         IsSidecar, SidecarInfo, FallbackInfo, SourceError, PutLeaves, Mirrors;
    PutAnswersLikeTheMapExactly(cfg, fs, store, job, chunks, broken);
    if !answer.Stored? {
      UnchangedMirror(cfg, fs, fs', store, job, hex, Concat(chunks), answer, id);
    } else if id == job.id {
      HeadAfterPut(cfg, fs, fs', job, hex, Concat(chunks), answer);
      StoredMirror(cfg, fs, fs', store, job, hex, Concat(chunks), answer);
    } else {
      OtherMirror(cfg, fs, fs', store, job, hex, Concat(chunks), answer, id);
    }
  }

  lemma UnchangedMirror(cfg: Config, fs: Fs, fs': Fs, store: Store, job: Job, hex: string, payload: seq<Byte>,
                        answer: Answer, id: Id)
    requires Mirrors(cfg, fs, store, id) && PutLeaves(cfg, fs, fs', job, hex, payload, answer) && !answer.Stored?
    ensures Mirrors(cfg, fs', store, id)
  {
    hide ObjPath, MetaPath, StagePath, HeadAnswer, InfoOf;
    HeadAnswerIs(cfg, fs, id);
    HeadAnswerIs(cfg, fs', id);
  }

  lemma StoredMirror(cfg: Config, fs: Fs, fs': Fs, store: Store, job: Job, hex: string, payload: seq<Byte>,
                     answer: Answer)
    requires PutLeaves(cfg, fs, fs', job, hex, payload, answer) && answer.Stored? && job.contentType != ""
    requires HeadAnswer(cfg, fs', job.id) ==
             Some(ObjectInfo(|payload|, job.contentType, cfg.hash(payload), job.metadata))
    ensures Mirrors(cfg, fs', store[job.id := Entry(payload, job.contentType, job.metadata)], job.id)
  {
    hide ObjPath, MetaPath, StagePath, HeadAnswer, SidecarLeft, OnlyAt;
  }

  lemma OtherMirror(cfg: Config, fs: Fs, fs': Fs, store: Store, job: Job, hex: string, payload: seq<Byte>,
                    answer: Answer, id: Id)
    requires Mirrors(cfg, fs, store, id) && PutLeaves(cfg, fs, fs', job, hex, payload, answer) && answer.Stored?
    requires id != job.id
    requires ValidId(job.id, cfg.settings.buckets) && ValidId(id, cfg.settings.buckets)
    ensures Mirrors(cfg, fs', store[job.id := Entry(payload, job.contentType, job.metadata)], id)
  {
    hide ObjPath, MetaPath, StagePath, HeadAnswer, InfoOf, ValidId, InBucket, InTmp, IsSidecar, SidecarLeft;
    Places(cfg, job.id, "", hex);
    Places(cfg, id, "", hex);
    PathsOfIds(job.id, id);
    assert SameAt(fs, fs', ObjPath(id)) && SameAt(fs, fs', MetaPath(id));
    HeadAnswerIs(cfg, fs, id);
    HeadAnswerIs(cfg, fs', id);
  }

  /** So does every delete, without any condition. */
  lemma DeleteKeepsMirror(cfg: Config, fs: Fs, fs': Fs, store: Store, gone: Id, id: Id)
    requires Mirrors(cfg, fs, store, id) && Mirrors(cfg, fs, store, gone)
    requires ObjPath(gone) !in fs'.files && MetaPath(gone) !in fs'.files
    requires OnlyAt(fs, fs', {ObjPath(gone), MetaPath(gone)})
    requires ValidId(gone, cfg.settings.buckets) && ValidId(id, cfg.settings.buckets)
    ensures var served := Serve(cfg, store, DeleteCall(gone));
            served.answer == Deleted(ObjPath(gone) in fs.files) && Mirrors(cfg, fs', served.store, id)
  {
    hide ObjPath, MetaPath, StagePath, HeadAnswer, InfoOf, ValidId, InBucket, InTmp, IsSidecar;
    HeadAnswerIs(cfg, fs, id);
    HeadAnswerIs(cfg, fs', id);
    if id != gone {
      Places(cfg, gone, "", "");
      Places(cfg, id, "", "");
      PathsOfIds(gone, id);
      assert SameAt(fs, fs', ObjPath(id)) && SameAt(fs, fs', MetaPath(id));
    }
  }
}
