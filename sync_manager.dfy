/**
 * The offline-first sync manager: the status record, the subscribers, the
 * queue of intents and its drain, the conflict resolver's writes, and the
 * network, timer and retry events that drive them. Remote answers, the
 * clock and the network state are parameters of the events.
 */
module SyncManager {
  import opened Wrappers
  import opened Schema
  import opened Database
  import opened OrderStorage
  import opened ConflictResolution
  import opened SyncQueue
  import opened OrderSync

  datatype SyncStatus = SyncStatus(
    isOnline: bool,
    lastSync: Option<nat>,
    isSyncing: bool,
    error: Option<string>,
    pendingActions: nat,
    failedActions: nat)

  const InitialStatus := SyncStatus(false, None, false, None, 0, 0)

  const OfflineError := "Cannot sync while offline"

  /** Status listeners and sync-complete callbacks are opaque handles. */
  type Handle = nat

  /** One call of a listener or callback, in the order the manager made them. */
  datatype Delivery = StatusDelivered(listener: Handle, status: SyncStatus) | SyncCompleted(callback: Handle)

  function Notifications(ls: seq<Handle>, st: SyncStatus): (r: seq<Delivery>)
    ensures |r| == |ls|
    ensures forall i :: 0 <= i < |ls| ==> r[i] == StatusDelivered(ls[i], st)
  {
    seq(|ls|, i requires 0 <= i < |ls| => StatusDelivered(ls[i], st))
  }

  function Completions(cs: seq<Handle>): (r: seq<Delivery>)
    ensures |r| == |cs|
    ensures forall i :: 0 <= i < |cs| ==> r[i] == SyncCompleted(cs[i])
  {
    seq(|cs|, i requires 0 <= i < |cs| => SyncCompleted(cs[i]))
  }

  /** The counters `updatePendingCount` recomputes from the queue. */
  function WithCounts(st: SyncStatus, q: seq<QueueEntry>): (r: SyncStatus)
    ensures r.failedActions <= r.pendingActions == |q|
  {
    st.(pendingActions := |q|, failedActions := CountExhausted(q))
  }

  /** `indexOf` followed by `splice(index, 1)`: the first occurrence of `x` goes. */
  function RemoveFirst(s: seq<Handle>, x: Handle): (r: seq<Handle>)
    ensures x in s ==> |r| == |s| - 1 && multiset(r) == multiset(s) - multiset{x}
    ensures x !in s ==> r == s
  {
    if s == [] then []
    else if s[0] == x then
      assert s == [s[0]] + s[1..];
      s[1..]
    else
      assert s == [s[0]] + s[1..];
      [s[0]] + RemoveFirst(s[1..], x)
  }

  /** The unsubscribe function undoes its subscription. */
  lemma {:induction false} UnsubscribeUndoesSubscribe(s: seq<Handle>, x: Handle)
    requires x !in s
    ensures RemoveFirst(s + [x], x) == s
  {
    if s != [] {
      assert (s + [x])[1..] == s[1..] + [x];
      UnsubscribeUndoesSubscribe(s[1..], x);
    }
  }

  lemma {:induction false} RemoveFirstAt(s: seq<Handle>, x: Handle, i: nat)
    requires i < |s| && s[i] == x && x !in s[..i]
    ensures RemoveFirst(s, x) == s[..i] + s[i + 1..]
  {
    if i > 0 {
      assert s[0] == s[..i][0];
      assert s[1..][..i - 1] == s[..i][1..];
      RemoveFirstAt(s[1..], x, i - 1);
      assert RemoveFirst(s, x) == [s[0]] + RemoveFirst(s[1..], x);
      assert s[1..][i..] == s[i + 1..];
      assert [s[0]] + s[1..][..i - 1] == s[..i];
    }
  }

  /** `indexOf`: the first position of `x`, or -1. */
  method IndexOf(s: seq<Handle>, x: Handle) returns (i: int)
    ensures i == -1 <==> x !in s
    ensures i != -1 ==> 0 <= i < |s| && s[i] == x && x !in s[..i]
  {
    i := 0;
    while i < |s|
      invariant 0 <= i <= |s|
      invariant x !in s[..i]
    {
      if s[i] == x {
        return;
      }
      assert s[..i + 1] == s[..i] + [s[i]];
      i := i + 1;
    }
    assert s[..i] == s;
    i := -1;
  }

  /** `splice(indexOf(x), 1)` when `x` is present. */
  method Unsubscribe(s: seq<Handle>, x: Handle) returns (r: seq<Handle>)
    ensures r == RemoveFirst(s, x)
  {
    var i := IndexOf(s, x);
    if i > -1 {
      RemoveFirstAt(s, x, i);
      r := s[..i] + s[i + 1..];
    } else {
      r := s;
    }
  }

  // ---------------------------------------------------------------------
  // Store writes made by the resolver and by clearFailedActions
  // ---------------------------------------------------------------------

  lemma RemoveItemKeepsOk(s: seq<LineItemRecord>, i: nat, bound: nat)
    requires LineItemsOk(s, bound) && i < |s|
    ensures LineItemsOk(s[..i] + s[i + 1..], bound)
  {
    var r := s[..i] + s[i + 1..];
    assert forall k :: 0 <= k < |r| ==> r[k] == if k < i then s[k] else s[k + 1];
  }

  lemma RemoveEntryAtKeepsOk(s: seq<QueueEntry>, i: nat, bound: nat)
    requires QueueOk(s, bound) && i < |s|
    ensures QueueOk(s[..i] + s[i + 1..], bound)
  {
    var r := s[..i] + s[i + 1..];
    assert forall k :: 0 <= k < |r| ==> r[k] == if k < i then s[k] else s[k + 1];
  }

  /** Dropping or keeping the first row after the kept prefix. */
  lemma SpliceAfter<T>(kept: seq<T>, rest: seq<T>)
    requires rest != []
    ensures (kept + rest)[|kept|] == rest[0]
    ensures (kept + rest)[..|kept|] + (kept + rest)[|kept| + 1..] == kept + rest[1..]
    ensures kept + rest == (kept + [rest[0]]) + rest[1..]
  {
    assert (kept + rest)[..|kept|] == kept;
    assert (kept + rest)[|kept| + 1..] == rest[1..];
  }

  /** One row of `DestroyItemsOf`'s loop: the row at `i` is `s[j]`, dropped or kept. */
  lemma {:induction false} ItemsNotOfNext(s: seq<LineItemRecord>, j: nat, orderId: Id, cur: seq<LineItemRecord>, i: nat)
    requires j < |s|
    requires cur == ItemsNotOf(s[..j], orderId) + s[j..] && i == |ItemsNotOf(s[..j], orderId)|
    ensures i < |cur| && cur[i] == s[j]
    ensures s[j].orderId == orderId ==>
      && cur[..i] + cur[i + 1..] == ItemsNotOf(s[..j + 1], orderId) + s[j + 1..]
      && i == |ItemsNotOf(s[..j + 1], orderId)|
    ensures s[j].orderId != orderId ==>
      && cur == ItemsNotOf(s[..j + 1], orderId) + s[j + 1..]
      && i + 1 == |ItemsNotOf(s[..j + 1], orderId)|
  {
    var kept := ItemsNotOf(s[..j], orderId);
    SpliceAfter(kept, s[j..]);
    assert s[..j + 1][..j] == s[..j];
    assert s[j..][1..] == s[j + 1..];
    if s[j].orderId == orderId {
      assert kept + [] == kept;
    }
  }

  /** One row of `DestroyExhausted`'s loop: the row at `i` is `s[j]`, dropped or kept. */
  lemma {:induction false} WithoutExhaustedNext(s: seq<QueueEntry>, j: nat, cur: seq<QueueEntry>, i: nat)
    requires j < |s|
    requires cur == WithoutExhausted(s[..j]) + s[j..] && i == |WithoutExhausted(s[..j])|
    ensures i < |cur| && cur[i] == s[j]
    ensures Exhausted(s[j]) ==>
      && cur[..i] + cur[i + 1..] == WithoutExhausted(s[..j + 1]) + s[j + 1..]
      && i == |WithoutExhausted(s[..j + 1])|
    ensures !Exhausted(s[j]) ==>
      && cur == WithoutExhausted(s[..j + 1]) + s[j + 1..]
      && i + 1 == |WithoutExhausted(s[..j + 1])|
  {
    var kept := WithoutExhausted(s[..j]);
    SpliceAfter(kept, s[j..]);
    assert s[..j + 1][..j] == s[..j];
    assert s[j..][1..] == s[j + 1..];
    if Exhausted(s[j]) {
      assert kept + [] == kept;
    }
  }

  lemma RemoteRowsNext(items: seq<ApiLineItem>, i: nat, orderId: Id, products: seq<ProductRecord>, firstId: Id)
    requires i < |items|
    ensures RemoteRows(items[..i + 1], orderId, products, firstId)
         == RemoteRows(items[..i], orderId, products, firstId) + [RemoteRow(items[i], firstId + i, orderId, products)]
  {
    assert items[..i + 1][..i] == items[..i];
  }

  /** `destroyPermanently` of one line item row. */
  method DestroyItemAt(db: Database, i: nat)
    requires db.Valid() && i < |db.lineItems|
    modifies db`lineItems
    ensures db.Valid()
    ensures db.lineItems == old(db.lineItems[..i] + db.lineItems[i + 1..])
  {
    RemoveItemKeepsOk(db.lineItems, i, db.nextId);
    db.lineItems := db.lineItems[..i] + db.lineItems[i + 1..];
  }

  /** `destroyPermanently` of every line item of `orderId`, one row at a time. */
  method DestroyItemsOf(db: Database, orderId: Id)
    requires db.Valid()
    modifies db`lineItems
    ensures db.Valid()
    ensures db.lineItems == ItemsNotOf(old(db.lineItems), orderId)
  {
    ghost var before := db.lineItems;
    ghost var j := 0;
    var i := 0;
    while i < |db.lineItems|
      invariant j <= |before| && db.Valid()
      invariant db.lineItems == ItemsNotOf(before[..j], orderId) + before[j..]
      invariant i == |ItemsNotOf(before[..j], orderId)|
      decreases |before| - j
    {
      ItemsNotOfNext(before, j, orderId, db.lineItems, i);
      if db.lineItems[i].orderId == orderId {
        DestroyItemAt(db, i);
      } else {
        i := i + 1;
      }
      j := j + 1;
    }
    assert before[..j] == before;
  }

  /** One `create` per server item, each a synced row of `orderId`. */
  method CreateRemoteItems(db: Database, orderId: Id, items: seq<ApiLineItem>)
    requires db.Valid() && orderId < db.nextId
    modifies db`lineItems, db`nextId
    ensures db.Valid()
    ensures db.lineItems == old(db.lineItems) + RemoteRows(items, orderId, db.products, old(db.nextId))
    ensures db.nextId == old(db.nextId) + |items|
  {
    ghost var before := db.lineItems;
    ghost var firstId := db.nextId;
    var i := 0;
    while i < |items|
      invariant i <= |items|
      invariant db.Valid() && db.nextId == firstId + i
      invariant db.lineItems == before + RemoteRows(items[..i], orderId, db.products, firstId)
    {
      RemoteRowsNext(items, i, orderId, db.products, firstId);
      InsertLineItem(db, RemoteRow(items[i], db.nextId, orderId, db.products));
      i := i + 1;
    }
    assert items[..i] == items;
  }

  /** `destroyPermanently` of one queue entry. */
  method DestroyEntryAt(db: Database, i: nat)
    requires db.Valid() && i < |db.syncQueue|
    modifies db`syncQueue
    ensures db.Valid()
    ensures db.syncQueue == old(db.syncQueue[..i] + db.syncQueue[i + 1..])
  {
    RemoveEntryAtKeepsOk(db.syncQueue, i, db.nextId);
    db.syncQueue := db.syncQueue[..i] + db.syncQueue[i + 1..];
  }

  /** `destroyPermanently` of every entry whose retries are exhausted. */
  method DestroyExhausted(db: Database)
    requires db.Valid()
    modifies db`syncQueue
    ensures db.Valid()
    ensures db.syncQueue == WithoutExhausted(old(db.syncQueue))
  {
    ghost var before := db.syncQueue;
    ghost var j := 0;
    var i := 0;
    while i < |db.syncQueue|
      invariant j <= |before| && db.Valid()
      invariant db.syncQueue == WithoutExhausted(before[..j]) + before[j..]
      invariant i == |WithoutExhausted(before[..j])|
      decreases |before| - j
    {
      WithoutExhaustedNext(before, j, db.syncQueue, i);
      if Exhausted(db.syncQueue[i]) {
        DestroyEntryAt(db, i);
      } else {
        i := i + 1;
      }
      j := j + 1;
    }
    assert before[..j] == before;
  }

  // ---------------------------------------------------------------------
  // The manager
  // ---------------------------------------------------------------------

  class OfflineFirstSyncManager {
    const db: Database
    var status: SyncStatus
    var listeners: seq<Handle>
    var callbacks: seq<Handle>
    /** Whether the 30-second interval is still set. */
    var intervalActive: bool
    /** Retry writes waiting for their timer, in scheduling order. */
    var deferredWrites: seq<DeferredWrite>
    /** Due times of the drains `queueAction` scheduled. */
    var debounceTimers: seq<nat>
    /** The sorted queue the running drain walks, and its position. */
    var drainList: seq<QueueEntry>
    var cursor: nat
    /** Every call made on the remote order API. */
    var remoteCalls: seq<RemoteCall>
    /** Every listener and callback invocation. */
    var deliveries: seq<Delivery>

    ghost predicate Valid()
      reads this, db
    {
      && db.Valid()
      && cursor <= |drainList|
      && (!status.isSyncing ==> drainList == [] && cursor == 0)
    }

    /** Subscribes to the network and starts the periodic drain. */
    constructor (db: Database)
      requires db.Valid()
      ensures Valid() && this.db == db
      ensures status == InitialStatus && intervalActive
      ensures listeners == [] && callbacks == []
      ensures deferredWrites == [] && debounceTimers == [] && drainList == [] && cursor == 0
      ensures remoteCalls == [] && deliveries == []
    {
      this.db := db;
      status := InitialStatus;
      listeners, callbacks := [], [];
      intervalActive := true;
      deferredWrites, debounceTimers, drainList, cursor := [], [], [], 0;
      remoteCalls, deliveries := [], [];
    }

    /** A copy of the status record. */
    method GetSyncStatus() returns (s: SyncStatus)
      ensures s == status
    {
      s := status;
    }

    method AddStatusListener(l: Handle)
      modifies this`listeners
      ensures listeners == old(listeners) + [l]
    {
      listeners := listeners + [l];
    }

    /** What calling the function `addStatusListener` returned does. */
    method RemoveStatusListener(l: Handle)
      modifies this`listeners
      ensures listeners == RemoveFirst(old(listeners), l)
    {
      listeners := Unsubscribe(listeners, l);
    }

    method AddSyncCompleteCallback(c: Handle)
      modifies this`callbacks
      ensures callbacks == old(callbacks) + [c]
    {
      callbacks := callbacks + [c];
    }

    /** What calling the function `addSyncCompleteCallback` returned does. */
    method RemoveSyncCompleteCallback(c: Handle)
      modifies this`callbacks
      ensures callbacks == RemoveFirst(old(callbacks), c)
    {
      callbacks := Unsubscribe(callbacks, c);
    }

    /** Each listener, in subscription order, gets a copy of the status. */
    method NotifyListeners()
      modifies this`deliveries
      ensures deliveries == old(deliveries) + Notifications(listeners, status)
    {
      var i := 0;
      while i < |listeners|
        invariant i <= |listeners|
        invariant deliveries == old(deliveries) + Notifications(listeners[..i], status)
      {
        assert listeners[..i + 1][..i] == listeners[..i];
        deliveries := deliveries + [StatusDelivered(listeners[i], status)];
        i := i + 1;
      }
      assert listeners[..i] == listeners;
    }

    method NotifySyncComplete()
      modifies this`deliveries
      ensures deliveries == old(deliveries) + Completions(callbacks)
    {
      var i := 0;
      while i < |callbacks|
        invariant i <= |callbacks|
        invariant deliveries == old(deliveries) + Completions(callbacks[..i])
      {
        assert callbacks[..i + 1][..i] == callbacks[..i];
        deliveries := deliveries + [SyncCompleted(callbacks[i])];
        i := i + 1;
      }
      assert callbacks[..i] == callbacks;
    }

    /** Recounts `pendingActions` (every queued entry) and `failedActions` (the exhausted ones). */
    method UpdatePendingCount()
      modifies this`status
      ensures status == WithCounts(old(status), db.syncQueue)
    {
      status := status.(pendingActions := |db.syncQueue|, failedActions := CountExhausted(db.syncQueue));
    }

    /** Queues an intent; while online, a drain is scheduled `DebounceMs` later. */
    method QueueAction(entityType: EntityType, entityId: Id, action: SyncAction, data: OrderPayload,
                       priority: int, now: nat)
      requires Valid()
      modifies db`syncQueue, db`nextId, this`status, this`debounceTimers
      ensures Valid()
      ensures db.syncQueue == old(db.syncQueue) + [QueueEntry(old(db.nextId), entityType, entityId, action, data, now, priority, 0, None)]
      ensures db.nextId == old(db.nextId) + 1
      ensures status == WithCounts(old(status), db.syncQueue)
      ensures debounceTimers == old(debounceTimers) + (if status.isOnline then [now + DebounceMs] else [])
    {
      var e := QueueEntry(db.nextId, entityType, entityId, action, data, now, priority, 0, None);
      db.syncQueue := db.syncQueue + [e];
      db.nextId := db.nextId + 1;
      UpdatePendingCount();
      if status.isOnline {
        debounceTimers := debounceTimers + [now + DebounceMs];
      }
    }

    // -------------------------------------------------------------------
    // The resolver's writes
    // -------------------------------------------------------------------

    method ApplyLocalWinsAt(k: nat, remote: ApiOrder)
      requires db.Valid() && k < |db.orders|
      modifies db`orders, db`lineItems
      ensures db.Valid()
      ensures db.Contents() == ApplyLocalWins(old(db.Contents()), k, remote)
    {
      var id := db.orders[k].id;
      ReplaceOrderKeepsValid(db.orders, k, LocalWinsOrder(db.orders[k], remote), db.nextId);
      db.orders := db.orders[k := LocalWinsOrder(db.orders[k], remote)];
      UpdateItemsOf(db, id, SyncedMark);
    }

    method ApplyRemoteWinsAt(k: nat, remote: ApiOrder)
      requires db.Valid() && k < |db.orders|
      modifies db`orders, db`lineItems, db`nextId
      ensures db.Valid()
      ensures db.Contents() == ApplyRemoteWins(old(db.Contents()), k, remote)
    {
      var id := db.orders[k].id;
      ReplaceOrderKeepsValid(db.orders, k, RemoteWinsOrder(db.orders[k], remote), db.nextId);
      db.orders := db.orders[k := RemoteWinsOrder(db.orders[k], remote)];
      DestroyItemsOf(db, id);
      CreateRemoteItems(db, id, remote.lineItems);
    }

    /** `resolveOrderConflict`: the local order must exist; the winner's writes follow. */
    method ResolveOrderConflict(localOrderId: Id, remote: ApiOrder) returns (o: Outcome)
      requires db.Valid()
      modifies db`orders, db`lineItems, db`nextId
      ensures db.Valid()
      ensures Resolve(old(db.Contents()), localOrderId, remote).Ok? ==>
        o == Done && db.Contents() == Resolve(old(db.Contents()), localOrderId, remote).value
      ensures Resolve(old(db.Contents()), localOrderId, remote).Err? ==>
        o == Failed(RecordNotFound) && db.Contents() == old(db.Contents())
    {
      var k := OrderIndex(db.orders, localOrderId);
      if k.None? {
        return Failed(RecordNotFound);
      }
      if LocalWins(db.orders[k.value], remote) {
        ApplyLocalWinsAt(k.value, remote);
      } else {
        ApplyRemoteWinsAt(k.value, remote);
      }
      o := Done;
    }

    /** Replays `resolveOrderConflict` on demand. */
    method TestConflictResolution(localOrderId: Id, remote: ApiOrder) returns (o: Outcome)
      requires db.Valid()
      modifies db`orders, db`lineItems, db`nextId
      ensures db.Valid()
      ensures Resolve(old(db.Contents()), localOrderId, remote).Ok? ==>
        o == Done && db.Contents() == Resolve(old(db.Contents()), localOrderId, remote).value
      ensures Resolve(old(db.Contents()), localOrderId, remote).Err? ==>
        o == Failed(RecordNotFound) && db.Contents() == old(db.Contents())
    {
      o := ResolveOrderConflict(localOrderId, remote);
    }

    // -------------------------------------------------------------------
    // Replaying one intent
    // -------------------------------------------------------------------

    /** Create or update answered with `reply`: resolve, re-fetch after a 409, or fail. */
    method AfterWriteReply(e: QueueEntry, verb: string, reply: Reply) returns (o: Outcome)
      requires db.Valid()
      modifies db`orders, db`lineItems, db`nextId, this`remoteCalls
      ensures db.Valid()
      ensures o == StepOutcome(AfterWrite(old(db.Contents()), e, verb, reply))
      ensures remoteCalls == old(remoteCalls) + AfterWrite(old(db.Contents()), e, verb, reply).calls
      ensures db.Contents() == if o.Done? then AfterWrite(old(db.Contents()), e, verb, reply).result.value else old(db.Contents())
    {
      match reply.primary {
        case RemoteOk(remote) =>
          o := ResolveOrderConflict(e.entityId, remote);
        case Conflict409 =>
          remoteCalls := remoteCalls + [GetCall(OrElse(e.data.apiId, e.entityId))];
          match reply.refetch {
            case RemoteOk(remote) =>
              o := ResolveOrderConflict(e.entityId, remote);
            case _ =>
              o := Failed(FailureMessage("fetch", reply.refetch));
          }
        case _ =>
          o := Failed(FailureMessage(verb, reply.primary));
      }
    }

    /** `syncOrderAction`: the remote calls for the intent and the local writes they lead to. */
    method SyncOrderAction(e: QueueEntry, reply: Reply) returns (o: Outcome)
      requires db.Valid()
      modifies db`orders, db`lineItems, db`nextId, this`remoteCalls
      ensures db.Valid()
      ensures o == StepOutcome(SyncOrder(old(db.Contents()), e, reply))
      ensures remoteCalls == old(remoteCalls) + SyncOrder(old(db.Contents()), e, reply).calls
      ensures db.Contents() == if o.Done? then SyncOrder(old(db.Contents()), e, reply).result.value else old(db.Contents())
    {
      match e.action {
        case Create =>
          remoteCalls := remoteCalls + [CreateCall(e.data.timestamp, e.data.lineItems)];
          o := AfterWriteReply(e, "create", reply);
        case Update =>
          var k := OrderIndex(db.orders, e.entityId);
          if k.None? {
            return Failed(RecordNotFound);
          }
          remoteCalls := remoteCalls + [UpdateCall(OrElse(db.orders[k.value].apiId, e.entityId), e.data.lineItems)];
          o := AfterWriteReply(e, "update", reply);
        case Delete =>
          o := SyncDeleteAction(e, reply);
      }
    }

    /** The `delete` branch of `syncOrderAction`: a 404 counts as done. */
    method SyncDeleteAction(e: QueueEntry, reply: Reply) returns (o: Outcome)
      requires db.Valid() && e.action == Delete
      modifies db`orders, this`remoteCalls
      ensures db.Valid()
      ensures o == StepOutcome(SyncOrder(old(db.Contents()), e, reply))
      ensures remoteCalls == old(remoteCalls) + SyncOrder(old(db.Contents()), e, reply).calls
      ensures db.Contents() == if o.Done? then SyncOrder(old(db.Contents()), e, reply).result.value else old(db.Contents())
    {
      var k := OrderIndex(db.orders, e.entityId);
      if k.None? {
        return Failed(RecordNotFound);
      }
      remoteCalls := remoteCalls + [DeleteCall(OrElse(db.orders[k.value].apiId, e.entityId))];
      match reply.primary {
        case RemoteOk(_) =>
          var marked := db.orders[k.value].(isDeleted := true, synced := true);
          ReplaceOrderKeepsValid(db.orders, k.value, marked, db.nextId);
          db.orders := db.orders[k.value := marked];
          o := Done;
        case NotFound404 =>
          o := Done;
        case _ =>
          o := Failed(FailureMessage("delete", reply.primary));
      }
    }

    /** `processSyncAction`: every entry is an order intent. */
    method ProcessSyncAction(e: QueueEntry, reply: Reply) returns (o: Outcome)
      requires db.Valid()
      modifies db`orders, db`lineItems, db`nextId, this`remoteCalls
      ensures db.Valid()
      ensures o == StepOutcome(SyncOrder(old(db.Contents()), e, reply))
      ensures remoteCalls == old(remoteCalls) + SyncOrder(old(db.Contents()), e, reply).calls
      ensures db.Contents() == if o.Done? then SyncOrder(old(db.Contents()), e, reply).result.value else old(db.Contents())
    {
      match e.entityType {
        case OrderEntity =>
          o := SyncOrderAction(e, reply);
      }
    }

    /**
     * `handleSyncError`: the new retry count and the message are written at
     * once when the count reaches `MaxRetries`, otherwise by a timer.
     */
    method HandleSyncError(e: QueueEntry, msg: string, now: nat)
      requires db.Valid()
      modifies db`syncQueue, this`deferredWrites
      ensures db.Valid()
      ensures db.syncQueue == QueueStep(old(db.syncQueue), e, Failed(msg))
      ensures deferredWrites == old(deferredWrites) + DeferredFor(e, Failed(msg), now)
    {
      var count := e.retryCount + 1;
      if count >= MaxRetries {
        StepKeepsQueueOk(db.syncQueue, e, Failed(msg), db.nextId);
        db.syncQueue := RecordFailure(db.syncQueue, e.id, count, msg);
      } else {
        deferredWrites := deferredWrites + [DeferredWrite(e.id, count, msg, now + RetryDelay(count))];
      }
    }

    /** The timer of the `i`-th deferred write fires; a destroyed entry is left alone. */
    method FireDeferredWrite(i: nat)
      requires Valid() && i < |deferredWrites|
      modifies db`syncQueue, this`deferredWrites
      ensures Valid()
      ensures deferredWrites == old(deferredWrites[..i] + deferredWrites[i + 1..])
      ensures var w := old(deferredWrites[i]);
        db.syncQueue == RecordFailure(old(db.syncQueue), w.entryId, w.retryCount, w.lastError)
    {
      var w := deferredWrites[i];
      db.syncQueue := RecordFailure(db.syncQueue, w.entryId, w.retryCount, w.lastError);
      deferredWrites := deferredWrites[..i] + deferredWrites[i + 1..];
    }

    // -------------------------------------------------------------------
    // The drain
    // -------------------------------------------------------------------

    /**
     * The synchronous start of `syncPendingActions`: nothing happens while a
     * drain runs or while offline; otherwise the drain is marked, listeners
     * hear of it, and the sorted queue is read.
     */
    method StartDrain() returns (started: bool)
      requires Valid()
      modifies this`status, this`drainList, this`cursor, this`deliveries
      ensures Valid()
      ensures started <==> !old(status.isSyncing) && old(status.isOnline)
      ensures !started ==> status == old(status) && drainList == old(drainList) && cursor == old(cursor)
                           && deliveries == old(deliveries)
      ensures started ==>
        && status == old(status).(isSyncing := true, error := None)
        && drainList == SortForDrain(db.syncQueue) && cursor == 0
        && deliveries == old(deliveries) + Notifications(listeners, status)
    {
      if status.isSyncing || !status.isOnline {
        return false;
      }
      status := status.(isSyncing := true, error := None);
      NotifyListeners();
      drainList := SortForDrain(db.syncQueue);
      cursor := 0;
      started := true;
    }

    /** One iteration of the drain loop: replay the entry, then remove it or record the failure. */
    method DrainStep(reply: Reply, now: nat) returns (o: Outcome)
      requires Valid() && status.isSyncing && cursor < |drainList|
      modifies db`orders, db`lineItems, db`nextId, db`syncQueue, this`cursor, this`deferredWrites, this`remoteCalls
      ensures Valid()
      ensures cursor == old(cursor) + 1
      ensures
        var e := old(drainList[cursor]);
        var eff := SyncOrder(old(db.Contents()), e, reply);
        && o == StepOutcome(eff)
        && db.Contents() == TablesAfterStep(old(db.Contents()), e, reply)
        && remoteCalls == old(remoteCalls) + eff.calls
        && deferredWrites == old(deferredWrites) + DeferredFor(e, o, now)
    {
      var e := drainList[cursor];
      o := ProcessSyncAction(e, reply);
      match o {
        case Done =>
          StepKeepsQueueOk(db.syncQueue, e, Done, db.nextId);
          db.syncQueue := RemoveEntry(db.syncQueue, e.id);
        case Failed(msg) =>
          HandleSyncError(e, msg, now);
      }
      cursor := cursor + 1;
    }

    /** The first `cursor` steps of a drain that started from `t0` have run. */
    ghost predicate DrainedSoFar(t0: Tables, calls0: seq<RemoteCall>, deferred0: seq<DeferredWrite>,
                                 replies: nat -> Reply, now: nat, outcomes: seq<Outcome>)
      reads this, db
    {
      RanSteps(t0, drainList, cursor, replies, now, calls0, deferred0, outcomes, db.Contents(), remoteCalls, deferredWrites)
    }

    /** The loop of `syncPendingActions`: every entry of the drain list is replayed in turn. */
    method DrainEntries(replies: nat -> Reply, now: nat, ghost t0: Tables, ghost calls0: seq<RemoteCall>,
                        ghost deferred0: seq<DeferredWrite>) returns (outcomes: seq<Outcome>)
      requires Valid() && status.isSyncing && cursor == 0
      requires RanSteps(t0, drainList, 0, replies, now, calls0, deferred0, [], db.Contents(), remoteCalls, deferredWrites)
      modifies db`orders, db`lineItems, db`nextId, db`syncQueue, this`cursor, this`deferredWrites, this`remoteCalls
      ensures Valid() && cursor == |drainList|
      ensures RanSteps(t0, drainList, |drainList|, replies, now, calls0, deferred0, outcomes,
                       db.Contents(), remoteCalls, deferredWrites)
    {
      outcomes := [];
      while cursor < |drainList|
        invariant Valid()
        invariant DrainedSoFar(t0, calls0, deferred0, replies, now, outcomes)
        decreases |drainList| - cursor
      {
        ghost var n, t, calls, deferred := cursor, db.Contents(), remoteCalls, deferredWrites;
        var o := DrainStep(replies(cursor), now);
        RanOneMore(t0, drainList, n, replies, now, calls0, deferred0, outcomes, t, calls, deferred,
                   o, db.Contents(), remoteCalls, deferredWrites);
        outcomes := outcomes + [o];
      }
    }

    /** The end of the drain: stamp it, call the callbacks, recount, notify. */
    method FinishDrain(now: nat)
      requires Valid() && status.isSyncing && cursor == |drainList|
      modifies this`status, this`deliveries, this`drainList, this`cursor
      ensures Valid()
      ensures status == WithCounts(old(status).(lastSync := Some(now), isSyncing := false), db.syncQueue)
      ensures deliveries == old(deliveries) + Completions(callbacks) + Notifications(listeners, status)
      ensures drainList == [] && cursor == 0
    {
      status := status.(lastSync := Some(now));
      NotifySyncComplete();
      status := status.(isSyncing := false);
      drainList, cursor := [], 0;
      UpdatePendingCount();
      NotifyListeners();
    }

    /**
     * `syncPendingActions` run to completion with no other event in
     * between; the `i`-th replayed entry gets the answers `replies(i)`.
     */
    method SyncPendingActions(replies: nat -> Reply, now: nat) returns (outcomes: seq<Outcome>)
      requires Valid()
      modifies db`orders, db`lineItems, db`nextId, db`syncQueue, this`status, this`drainList, this`cursor,
               this`deferredWrites, this`remoteCalls, this`deliveries
      ensures Valid()
      ensures old(status.isSyncing) || !old(status.isOnline) ==>
        && outcomes == [] && db.Contents() == old(db.Contents()) && status == old(status)
        && remoteCalls == old(remoteCalls) && deferredWrites == old(deferredWrites)
        && deliveries == old(deliveries) && drainList == old(drainList) && cursor == old(cursor)
      ensures !old(status.isSyncing) && old(status.isOnline) ==>
        var run := RunSteps(old(db.Contents()), SortForDrain(old(db.syncQueue)), replies, now);
        && outcomes == run.outcomes
        && db.Contents() == run.tables
        && remoteCalls == old(remoteCalls) + run.calls
        && deferredWrites == old(deferredWrites) + run.deferred
        && status == WithCounts(old(status).(lastSync := Some(now), error := None), db.syncQueue)
        && deliveries == old(deliveries) + Notifications(listeners, old(status).(isSyncing := true, error := None))
                         + Completions(callbacks) + Notifications(listeners, status)
        && drainList == [] && cursor == 0
    {
      var started := StartDrain();
      if !started {
        return [];
      }
      outcomes := RunStartedDrain(replies, now);
    }

    /** `syncPendingActions` after its guard: the loop, then the end of the drain. */
    method RunStartedDrain(replies: nat -> Reply, now: nat) returns (outcomes: seq<Outcome>)
      requires Valid() && status.isSyncing && cursor == 0
      modifies db`orders, db`lineItems, db`nextId, db`syncQueue, this`status, this`drainList, this`cursor,
               this`deferredWrites, this`remoteCalls, this`deliveries
      ensures Valid()
      ensures
        var run := RunSteps(old(db.Contents()), old(drainList), replies, now);
        && outcomes == run.outcomes
        && db.Contents() == run.tables
        && remoteCalls == old(remoteCalls) + run.calls
        && deferredWrites == old(deferredWrites) + run.deferred
      ensures status == WithCounts(old(status).(lastSync := Some(now), isSyncing := false), db.syncQueue)
      ensures deliveries == old(deliveries) + Completions(callbacks) + Notifications(listeners, status)
      ensures drainList == [] && cursor == 0
    {
      ghost var t0 := db.Contents();
      ghost var calls0, deferred0, list0 := remoteCalls, deferredWrites, drainList;
      RanNone(t0, drainList, replies, now, calls0, deferred0);
      outcomes := DrainEntries(replies, now, t0, calls0, deferred0);
      RanAll(t0, list0, replies, now, calls0, deferred0, outcomes, db.Contents(), remoteCalls, deferredWrites);
      FinishDrain(now);
    }

    /** `forcSync`: a drain while online, the offline error otherwise. */
    method ForceSync(replies: nat -> Reply, now: nat) returns (r: Outcome, outcomes: seq<Outcome>)
      requires Valid()
      modifies db`orders, db`lineItems, db`nextId, db`syncQueue, this`status, this`drainList, this`cursor,
               this`deferredWrites, this`remoteCalls, this`deliveries
      ensures Valid()
      ensures r.Done? || r == Failed(OfflineError)
      ensures r == Failed(OfflineError) <==> !old(status.isOnline)
      ensures r.Failed? ==>
        && outcomes == [] && db.Contents() == old(db.Contents()) && status == old(status)
        && remoteCalls == old(remoteCalls) && deferredWrites == old(deferredWrites)
        && deliveries == old(deliveries) && drainList == old(drainList) && cursor == old(cursor)
      ensures r.Done? && old(status.isSyncing) ==>
        && outcomes == [] && db.Contents() == old(db.Contents()) && status == old(status)
        && remoteCalls == old(remoteCalls) && deferredWrites == old(deferredWrites)
      ensures r.Done? && !old(status.isSyncing) ==>
        var run := RunSteps(old(db.Contents()), SortForDrain(old(db.syncQueue)), replies, now);
        && outcomes == run.outcomes
        && db.Contents() == run.tables
        && remoteCalls == old(remoteCalls) + run.calls
        && deferredWrites == old(deferredWrites) + run.deferred
        && status == WithCounts(old(status).(lastSync := Some(now), error := None), db.syncQueue)
    {
      if status.isOnline {
        outcomes := SyncPendingActions(replies, now);
        r := Done;
      } else {
        r, outcomes := Failed(OfflineError), [];
      }
    }

    // -------------------------------------------------------------------
    // Events
    // -------------------------------------------------------------------

    /**
     * The network listener: online means connected and reachable; going
     * from offline to online starts a drain; listeners are notified.
     */
    method OnNetworkChange(isConnected: bool, isInternetReachable: bool)
      requires Valid()
      modifies this`status, this`drainList, this`cursor, this`deliveries
      ensures Valid()
      ensures status.isOnline == (isConnected && isInternetReachable)
      ensures
        var online := old(status).(isOnline := isConnected && isInternetReachable);
        var starts := !old(status.isOnline) && online.isOnline && !old(status.isSyncing);
        && (starts ==>
              && status == online.(isSyncing := true, error := None)
              && drainList == SortForDrain(db.syncQueue) && cursor == 0
              && deliveries == old(deliveries) + Notifications(listeners, status) + Notifications(listeners, status))
        && (!starts ==>
              && status == online && drainList == old(drainList) && cursor == old(cursor)
              && deliveries == old(deliveries) + Notifications(listeners, status))
    {
      var wasOnline := status.isOnline;
      status := status.(isOnline := isConnected && isInternetReachable);
      if !wasOnline && status.isOnline {
        var _ := StartDrain();
      }
      NotifyListeners();
    }

    /** The 30-second interval: a drain starts only when online and idle. */
    method PeriodicTick() returns (started: bool)
      requires Valid()
      modifies this`status, this`drainList, this`cursor, this`deliveries
      ensures Valid()
      ensures started <==> old(intervalActive) && old(status.isOnline) && !old(status.isSyncing)
      ensures !started ==> status == old(status) && drainList == old(drainList) && cursor == old(cursor)
                           && deliveries == old(deliveries)
      ensures started ==>
        && status == old(status).(isSyncing := true, error := None)
        && drainList == SortForDrain(db.syncQueue) && cursor == 0
        && deliveries == old(deliveries) + Notifications(listeners, status)
    {
      started := false;
      if intervalActive && status.isOnline && !status.isSyncing {
        started := StartDrain();
      }
    }

    /** The drain `queueAction` scheduled fires; it is guarded like any other start. */
    method DebounceFires(i: nat) returns (started: bool)
      requires Valid() && i < |debounceTimers|
      modifies this`status, this`drainList, this`cursor, this`deliveries, this`debounceTimers
      ensures Valid()
      ensures debounceTimers == old(debounceTimers[..i] + debounceTimers[i + 1..])
      ensures started <==> old(status.isOnline) && !old(status.isSyncing)
      ensures !started ==> status == old(status) && drainList == old(drainList) && cursor == old(cursor)
                           && deliveries == old(deliveries)
      ensures started ==>
        && status == old(status).(isSyncing := true, error := None)
        && drainList == SortForDrain(db.syncQueue) && cursor == 0
        && deliveries == old(deliveries) + Notifications(listeners, status)
    {
      debounceTimers := debounceTimers[..i] + debounceTimers[i + 1..];
      started := StartDrain();
    }

    /** `clearFailedActions`: every exhausted entry is destroyed, then recount and notify. */
    method ClearFailedActions()
      requires Valid()
      modifies db`syncQueue, this`status, this`deliveries
      ensures Valid()
      ensures db.syncQueue == WithoutExhausted(old(db.syncQueue))
      ensures status == WithCounts(old(status), db.syncQueue)
      ensures status.failedActions == 0
      ensures status.pendingActions == |old(db.syncQueue)| - CountExhausted(old(db.syncQueue))
      ensures deliveries == old(deliveries) + Notifications(listeners, status)
    {
      ClearingRemovesTheCounted(db.syncQueue);
      DestroyExhausted(db);
      UpdatePendingCount();
      NotifyListeners();
    }

    /** `destroy`: the interval is cleared and the listeners dropped. */
    method Destroy()
      modifies this`intervalActive, this`listeners
      ensures !intervalActive && listeners == []
    {
      intervalActive := false;
      listeners := [];
    }
  }
}
