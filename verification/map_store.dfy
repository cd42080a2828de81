/** The store as a plain map (tests/fakes/fake_blob_driver.py): the reference the real driver is measured against. */
module MapStore {
  import opened Options
  import opened Layout
  import opened FileSystem
  import opened Policy
  import opened Machine

  datatype Entry = Entry(data: seq<Byte>, contentType: string, metadata: map<string, string>)

  type Store = map<Id, Entry>

  datatype Served = Served(store: Store, answer: Answer)

  function InfoOf(cfg: Config, e: Entry): ObjectInfo
  {
    ObjectInfo(|e.data|, e.contentType, cfg.hash(e.data), e.metadata)
  }

  /** One call, served at once. A put whose source breaks raises and stores nothing. */
  function Serve(cfg: Config, store: Store, call: Call): Served
  {
    match call
    case PutCall(job, payload, broke) =>
      if job.exclusive && job.id in store then
        Served(store, Duplicate(cfg.hash(store[job.id].data), |store[job.id].data|))
      else if broke.Some? then Served(store, Failed(broke.value))
      else Served(store[job.id := Entry(payload, job.contentType, job.metadata)], Stored(cfg.hash(payload), |payload|))
    case DeleteCall(id) => Served(store - {id}, Deleted(id in store))
    case HeadCall(id) => Served(store, Info(if id in store then Some(InfoOf(cfg, store[id])) else None))
    case GetCall(id) => Served(store, Data(if id in store then Some(store[id].data) else None))
  }

  /** The store after a log of calls. */
  function Replay(cfg: Config, log: seq<Event>): Store
  {
    if log == [] then map[] else Serve(cfg, Replay(cfg, log[..|log| - 1]), log[|log| - 1].call).store
  }

  /** Only the source of a put may have made it fail. */
  predicate SourceFailure(call: Call)
  {
    call.PutCall? && call.broke.Some? ==> call.broke.value.TooLarge? || call.broke.value.SourceBroken?
  }

  /** Every answer in the log is the one the map store gives after the calls before it. */
  ghost predicate Faithful(cfg: Config, log: seq<Event>)
  {
    forall i :: 0 <= i < |log| ==>
      SourceFailure(log[i].call) && log[i].answer == Serve(cfg, Replay(cfg, log[..i]), log[i].call).answer
  }

  lemma FaithfulSnoc(cfg: Config, log: seq<Event>, e: Event)
    requires Faithful(cfg, log) && SourceFailure(e.call) && e.answer == Serve(cfg, Replay(cfg, log), e.call).answer
    ensures Faithful(cfg, log + [e]) && Replay(cfg, log + [e]) == Serve(cfg, Replay(cfg, log), e.call).store
  {
    var more := log + [e];
    assert more[..|log|] == log;
    forall i | 0 <= i < |more|
      ensures SourceFailure(more[i].call) && more[i].answer == Serve(cfg, Replay(cfg, more[..i]), more[i].call).answer
    {
      if i < |log| {
        assert more[..i] == log[..i];
      }
    }
  }

  function CallKey(call: Call): Id
  {
    match call
    case PutCall(job, _, _) => job.id
    case DeleteCall(id) => id
    case HeadCall(id) => id
    case GetCall(id) => id
  }

  /** A call changes nothing but its own key. */
  lemma ServeFrame(cfg: Config, store: Store, call: Call, id: Id)
    requires CallKey(call) != id
    ensures var after := Serve(cfg, store, call).store;
            (id in after <==> id in store) && (id in store ==> after[id] == store[id])
  {
  }

  /** Only keys that were called on are in the store. */
  lemma {:induction false} ReplayKeys(cfg: Config, log: seq<Event>, id: Id)
    requires forall i :: 0 <= i < |log| ==> CallKey(log[i].call) != id
    ensures id !in Replay(cfg, log)
  {
    hide Serve;
    if log != [] {
      var before := log[..|log| - 1];
      ReplayKeys(cfg, before, id);
      ServeFrame(cfg, Replay(cfg, before), log[|log| - 1].call, id);
    }
  }
}
