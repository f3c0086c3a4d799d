/**
 * What replaying one queued order intent against the remote order API
 * does: the calls it makes, and what it leaves in the local tables.
 * The API is abstract: each call answers with a `RemoteOutcome`.
 */
module OrderSync {
  import opened Wrappers
  import opened Schema
  import opened Database
  import opened OrderStorage
  import opened ConflictResolution
  import opened SyncQueue

  /**
   * The API's answer to one call. `Conflict409` and `NotFound404` are the
   * errors whose message names those statuses; `OtherFailure` carries the
   * message of any other error.
   */
  datatype RemoteOutcome = RemoteOk(order: ApiOrder) | Conflict409 | NotFound404 | OtherFailure(msg: string)

  /** The answers for one intent: to the call itself, and to the re-fetch a 409 leads to. */
  datatype Reply = Reply(primary: RemoteOutcome, refetch: RemoteOutcome)

  /** The calls made on the remote order API, in order. */
  datatype RemoteCall =
    | CreateCall(timestamp: nat, lineItems: seq<ApiLineItem>)
    | UpdateCall(apiId: Id, lineItems: seq<ApiLineItem>)
    | DeleteCall(apiId: Id)
    | GetCall(apiId: Id)

  /** The message the order service wraps an HTTP failure of `verb` in. */
  function HttpFailure(verb: string, status: string): string {
    "Failed to " + verb + " order: Error: HTTP error! status: " + status
  }

  function FailureMessage(verb: string, o: RemoteOutcome): string {
    match o
    case Conflict409 => HttpFailure(verb, "409")
    case NotFound404 => HttpFailure(verb, "404")
    case OtherFailure(msg) => msg
    case RemoteOk(_) => ""
  }

  /** `x || fallback` over record ids. */
  function OrElse(x: Option<Id>, fallback: Id): Id {
    match x
    case Some(v) => v
    case None => fallback
  }

  /** The calls an intent made, and the tables it leaves or the error it fails with. */
  datatype StepEffect = StepEffect(calls: seq<RemoteCall>, result: Result<Tables>)

  /** The effect `eff` preceded by the call `c`. */
  function Preceded(c: RemoteCall, eff: StepEffect): StepEffect {
    eff.(calls := [c] + eff.calls)
  }

  /** After a 409: fetch the server's copy and resolve against it. */
  function AfterConflict(t: Tables, entityId: Id, fetchId: Id, refetch: RemoteOutcome): StepEffect {
    match refetch
    case RemoteOk(remote) => StepEffect([GetCall(fetchId)], Resolve(t, entityId, remote))
    case _ => StepEffect([GetCall(fetchId)], Err(FailureMessage("fetch", refetch)))
  }

  /** Create or update answered: resolve on success, re-fetch on 409, fail otherwise. */
  function AfterWrite(t: Tables, e: QueueEntry, verb: string, reply: Reply): StepEffect {
    match reply.primary
    case RemoteOk(remote) => StepEffect([], Resolve(t, e.entityId, remote))
    case Conflict409 => AfterConflict(t, e.entityId, OrElse(e.data.apiId, e.entityId), reply.refetch)
    case _ => StepEffect([], Err(FailureMessage(verb, reply.primary)))
  }

  /** `syncOrderAction` for one queued intent. */
  function SyncOrder(t: Tables, e: QueueEntry, reply: Reply): StepEffect {
    match e.action
    case Create =>
      Preceded(CreateCall(e.data.timestamp, e.data.lineItems), AfterWrite(t, e, "create", reply))
    case Update =>
      (match OrderIndex(t.orders, e.entityId)
       case None => StepEffect([], Err(RecordNotFound))
       case Some(k) =>
         Preceded(UpdateCall(OrElse(t.orders[k].apiId, e.entityId), e.data.lineItems), AfterWrite(t, e, "update", reply)))
    case Delete =>
      match OrderIndex(t.orders, e.entityId)
      case None => StepEffect([], Err(RecordNotFound))
      case Some(k) =>
        Preceded(DeleteCall(OrElse(t.orders[k].apiId, e.entityId)), AfterDelete(t, k, reply.primary))
  }

  /** The delete answered: mark the order deleted and synced, or accept a 404. */
  function AfterDelete(t: Tables, k: nat, answer: RemoteOutcome): StepEffect
    requires k < |t.orders|
  {
    match answer
    case RemoteOk(_) => StepEffect([], Ok(t.(orders := t.orders[k := t.orders[k].(isDeleted := true, synced := true)])))
    case NotFound404 => StepEffect([], Ok(t))
    case _ => StepEffect([], Err(FailureMessage("delete", answer)))
  }

  function StepOutcome(eff: StepEffect): Outcome {
    match eff.result
    case Ok(_) => Done
    case Err(msg) => Failed(msg)
  }

  /**
   * The tables after the drain replayed `e`: a success is followed by the
   * entry's removal, a failure by `handleSyncError`'s immediate write, if any.
   */
  function TablesAfterStep(t: Tables, e: QueueEntry, reply: Reply): Tables {
    match SyncOrder(t, e, reply).result
    case Ok(t1) => t1.(syncQueue := RemoveEntry(t1.syncQueue, e.id))
    case Err(msg) => t.(syncQueue := QueueStep(t.syncQueue, e, Failed(msg)))
  }

  /** A retry write `handleSyncError` put off with a timer. */
  datatype DeferredWrite = DeferredWrite(entryId: Id, retryCount: nat, lastError: string, dueAt: nat)

  /** The write scheduled when replaying `e` at `now` ended with `o`, if one is. */
  function DeferredFor(e: QueueEntry, o: Outcome, now: nat): seq<DeferredWrite> {
    match o
    case Failed(msg) =>
      if WritesAtOnce(e) then []
      else [DeferredWrite(e.id, NextRetryCount(e), msg, now + RetryDelay(NextRetryCount(e)))]
    case Done => []
  }

  /** Everything a run of drain steps produced. */
  datatype DrainRun = DrainRun(tables: Tables, calls: seq<RemoteCall>, outcomes: seq<Outcome>, deferred: seq<DeferredWrite>)

  /** The drain steps over `s`, the `i`-th answered by `replies(i)`, one after another. */
  function RunSteps(t: Tables, s: seq<QueueEntry>, replies: nat -> Reply, now: nat): (run: DrainRun)
    ensures |run.outcomes| == |s|
  {
    if s == [] then DrainRun(t, [], [], [])
    else
      var n := |s| - 1;
      var prev := RunSteps(t, s[..n], replies, now);
      var eff := SyncOrder(prev.tables, s[n], replies(n));
      DrainRun(TablesAfterStep(prev.tables, s[n], replies(n)),
               prev.calls + eff.calls,
               prev.outcomes + [StepOutcome(eff)],
               prev.deferred + DeferredFor(s[n], StepOutcome(eff), now))
  }

  /** The run over one more entry is the run so far followed by that entry's step. */
  lemma {:induction false} RunStepsNext(t: Tables, s: seq<QueueEntry>, replies: nat -> Reply, now: nat, n: nat)
    requires n < |s|
    ensures
      var prev := RunSteps(t, s[..n], replies, now);
      var eff := SyncOrder(prev.tables, s[n], replies(n));
      RunSteps(t, s[..n + 1], replies, now)
        == DrainRun(TablesAfterStep(prev.tables, s[n], replies(n)),
                    prev.calls + eff.calls,
                    prev.outcomes + [StepOutcome(eff)],
                    prev.deferred + DeferredFor(s[n], StepOutcome(eff), now))
  {
    assert s[..n + 1][..n] == s[..n];
  }

  /**
   * The first `n` steps over `s` have run: `outcomes`, `t`, and the logs
   * `calls` and `deferred` (which started as `calls0` and `deferred0`) are theirs.
   */
  ghost predicate RanSteps(t0: Tables, s: seq<QueueEntry>, n: nat, replies: nat -> Reply, now: nat,
                           calls0: seq<RemoteCall>, deferred0: seq<DeferredWrite>,
                           outcomes: seq<Outcome>, t: Tables, calls: seq<RemoteCall>, deferred: seq<DeferredWrite>)
  {
    && n <= |s|
    && var run := RunSteps(t0, s[..n], replies, now);
    && outcomes == run.outcomes
    && t == run.tables
    && calls == calls0 + run.calls
    && deferred == deferred0 + run.deferred
  }

  lemma RanNone(t0: Tables, s: seq<QueueEntry>, replies: nat -> Reply, now: nat,
                calls0: seq<RemoteCall>, deferred0: seq<DeferredWrite>)
    ensures RanSteps(t0, s, 0, replies, now, calls0, deferred0, [], t0, calls0, deferred0)
  {
    assert s[..0] == [];
  }

  /** Once all of `s` has run, the run is `RunSteps` over `s`. */
  lemma RanAll(t0: Tables, s: seq<QueueEntry>, replies: nat -> Reply, now: nat,
               calls0: seq<RemoteCall>, deferred0: seq<DeferredWrite>,
               outcomes: seq<Outcome>, t: Tables, calls: seq<RemoteCall>, deferred: seq<DeferredWrite>)
    requires RanSteps(t0, s, |s|, replies, now, calls0, deferred0, outcomes, t, calls, deferred)
    ensures
      var run := RunSteps(t0, s, replies, now);
      && outcomes == run.outcomes && t == run.tables
      && calls == calls0 + run.calls && deferred == deferred0 + run.deferred
  {
    assert s[..|s|] == s;
  }

  lemma AppendAssociates<T>(a: seq<T>, b: seq<T>, c: seq<T>)
    ensures a + (b + c) == (a + b) + c
  {
  }

  /** One more step extends the run by exactly that step's effect. */
  lemma {:induction false} RanOneMore(t0: Tables, s: seq<QueueEntry>, n: nat, replies: nat -> Reply, now: nat,
                   calls0: seq<RemoteCall>, deferred0: seq<DeferredWrite>,
                   outcomes: seq<Outcome>, t: Tables, calls: seq<RemoteCall>, deferred: seq<DeferredWrite>,
                   o: Outcome, t1: Tables, calls1: seq<RemoteCall>, deferred1: seq<DeferredWrite>)
    requires n < |s|
    requires RanSteps(t0, s, n, replies, now, calls0, deferred0, outcomes, t, calls, deferred)
    requires o == StepOutcome(SyncOrder(t, s[n], replies(n)))
    requires t1 == TablesAfterStep(t, s[n], replies(n))
    requires calls1 == calls + SyncOrder(t, s[n], replies(n)).calls
    requires deferred1 == deferred + DeferredFor(s[n], o, now)
    ensures RanSteps(t0, s, n + 1, replies, now, calls0, deferred0, outcomes + [o], t1, calls1, deferred1)
  {
    var prev := RunSteps(t0, s[..n], replies, now);
    var eff := SyncOrder(t, s[n], replies(n));
    RunStepsNext(t0, s, replies, now, n);
    var next := RunSteps(t0, s[..n + 1], replies, now);
    assert next == DrainRun(t1, prev.calls + eff.calls, outcomes + [o], prev.deferred + DeferredFor(s[n], o, now));
    AppendAssociates(calls0, prev.calls, eff.calls);
    AppendAssociates(deferred0, prev.deferred, DeferredFor(s[n], o, now));
  }

  // ---------------------------------------------------------------------
  // Properties
  // ---------------------------------------------------------------------

  /** Replaying an intent never touches the queue, the catalog, or another order's row. */
  lemma SyncOrderKeepsQueue(t: Tables, e: QueueEntry, reply: Reply)
    requires SyncOrder(t, e, reply).result.Ok?
    ensures SyncOrder(t, e, reply).result.value.syncQueue == t.syncQueue
    ensures SyncOrder(t, e, reply).result.value.products == t.products
    ensures |SyncOrder(t, e, reply).result.value.orders| == |t.orders|
    ensures forall i :: 0 <= i < |t.orders| && t.orders[i].id != e.entityId ==>
      SyncOrder(t, e, reply).result.value.orders[i] == t.orders[i]
  {
    var eff := SyncOrder(t, e, reply);
    if e.action == Delete {
      assert eff.result.value.syncQueue == t.syncQueue;
    } else if reply.primary.RemoteOk? {
      ResolveKeepsOtherOrders(t, e.entityId, reply.primary.order);
    } else {
      ResolveKeepsOtherOrders(t, e.entityId, reply.refetch.order);
    }
  }

  /** So the queue evolves by `QueueStep` whatever the step wrote elsewhere. */
  lemma StepQueueIsQueueStep(t: Tables, e: QueueEntry, reply: Reply)
    ensures TablesAfterStep(t, e, reply).syncQueue == QueueStep(t.syncQueue, e, StepOutcome(SyncOrder(t, e, reply)))
  {
    if SyncOrder(t, e, reply).result.Ok? {
      SyncOrderKeepsQueue(t, e, reply);
    }
  }

  /** A step keeps every table well formed. */
  lemma StepKeepsTablesOk(t: Tables, e: QueueEntry, reply: Reply)
    requires TablesOk(t)
    ensures TablesOk(TablesAfterStep(t, e, reply))
  {
    var eff := SyncOrder(t, e, reply);
    var t1 := if eff.result.Ok? then eff.result.value else t;
    if eff.result.Ok? {
      SyncOrderKeepsQueue(t, e, reply);
      if e.action != Delete {
        var remote := if reply.primary.RemoteOk? then reply.primary.order else reply.refetch.order;
        assert eff.result == Resolve(t, e.entityId, remote);
        ResolveKeepsTablesOk(t, e.entityId, remote);
      } else {
        var k := OrderIndex(t.orders, e.entityId).value;
        assert forall i :: 0 <= i < |t.orders| ==> t1.orders[i].id == t.orders[i].id;
      }
    }
    StepQueueIsQueueStep(t, e, reply);
    StepKeepsQueueOk(t1.syncQueue, e, StepOutcome(eff), t1.nextId);
  }

  lemma StepKeepsQueueOk(q: seq<QueueEntry>, e: QueueEntry, o: Outcome, bound: nat)
    requires QueueOk(q, bound)
    ensures QueueOk(QueueStep(q, e, o), bound)
  {
    var r := QueueStep(q, e, o);
    QueueStepKeepsIdsDistinct(q, e, o);
    if o.Done? {
      assert forall i :: 0 <= i < |r| ==> r[i] in r;
    }
  }

  /** A 409 on create or update is resolved against the re-fetched copy instead of failing. */
  lemma ConflictIsResolved(t: Tables, e: QueueEntry, reply: Reply)
    requires e.action != Delete && HasOrder(t.orders, e.entityId)
    requires reply.primary == Conflict409 && reply.refetch.RemoteOk?
    ensures SyncOrder(t, e, reply).result == Resolve(t, e.entityId, reply.refetch.order)
    ensures SyncOrder(t, e, reply).result.Ok?
    ensures SyncOrder(t, e, reply).calls[|SyncOrder(t, e, reply).calls| - 1] == GetCall(OrElse(e.data.apiId, e.entityId))
  {
  }

  /** Any successful replay of a create or update leaves the order reading as synced. */
  lemma WriteSuccessSyncsOrder(t: Tables, e: QueueEntry, reply: Reply, now: nat)
    requires e.action != Delete && SyncOrder(t, e, reply).result.Ok?
    ensures
      var t1 := SyncOrder(t, e, reply).result.value;
      && GetOrderById(t1.orders, t1.lineItems, e.entityId, now).Ok?
      && GetOrderById(t1.orders, t1.lineItems, e.entityId, now).value.syncStatus == OrderSynced
  {
    var remote := if reply.primary.RemoteOk? then reply.primary.order else reply.refetch.order;
    ResolvedOrderReadsSynced(t, e.entityId, remote, now);
  }

  /**
   * A delete succeeds for an existing order unless the API answers with an
   * error other than 404; on success without a 404 the order is marked
   * deleted and synced.
   */
  lemma DeleteOutcome(t: Tables, e: QueueEntry, reply: Reply)
    requires e.action == Delete && HasOrder(t.orders, e.entityId)
    ensures SyncOrder(t, e, reply).result.Ok? <==> reply.primary.RemoteOk? || reply.primary == NotFound404
    ensures reply.primary == NotFound404 ==> SyncOrder(t, e, reply).result == Ok(t)
    ensures reply.primary.RemoteOk? ==>
      var k := OrderIndex(t.orders, e.entityId).value;
      var o := SyncOrder(t, e, reply).result.value.orders[k];
      o.isDeleted && o.synced && o.operation == t.orders[k].operation
  {
  }

  /** Whatever else the steps wrote, the queue went through `QueueStep` once per step. */
  lemma {:induction false} RunStepsQueue(t: Tables, s: seq<QueueEntry>, replies: nat -> Reply, now: nat)
    ensures RunSteps(t, s, replies, now).tables.syncQueue
         == QueueAfterSteps(t.syncQueue, s, RunSteps(t, s, replies, now).outcomes)
  {
    if s != [] {
      var n := |s| - 1;
      var prev := RunSteps(t, s[..n], replies, now);
      var run := RunSteps(t, s, replies, now);
      RunStepsQueue(t, s[..n], replies, now);
      StepQueueIsQueueStep(prev.tables, s[n], replies(n));
      assert run.outcomes[..n] == prev.outcomes;
    }
  }

  lemma {:induction false} RunStepsKeepsTablesOk(t: Tables, s: seq<QueueEntry>, replies: nat -> Reply, now: nat)
    requires TablesOk(t)
    ensures TablesOk(RunSteps(t, s, replies, now).tables)
  {
    if s != [] {
      var n := |s| - 1;
      RunStepsKeepsTablesOk(t, s[..n], replies, now);
      StepKeepsTablesOk(RunSteps(t, s[..n], replies, now).tables, s[n], replies(n));
    }
  }
}
