/**
 * The sync queue as the sync manager sees it: the retry constants, the
 * order the drain replays intents in, the counters derived from the queue,
 * and what one drain step leaves in the queue.
 */
module SyncQueue {
  import opened Wrappers
  import opened Schema

  /** An entry whose retry count reached this is counted as failed. */
  const MaxRetries: nat := 3
  /** Base of the exponential back-off of the deferred retry write. */
  const RetryDelayMs: nat := 1000
  /** Delay of the drain scheduled by `queueAction` while online. */
  const DebounceMs: nat := 500
  /** Period of the background drain. */
  const PeriodicSyncMs: nat := 30000

  function Pow2(n: nat): (r: nat)
    ensures r >= 1
  {
    if n == 0 then 1 else 2 * Pow2(n - 1)
  }

  /** How long the write recording the `count`-th failure is put off. */
  function RetryDelay(count: nat): (d: nat)
    requires count >= 1
    ensures d >= RetryDelayMs
  {
    RetryDelayMs * Pow2(count - 1)
  }

  /** Each further failure doubles the wait. */
  lemma RetryDelayDoubles(count: nat)
    requires count >= 1
    ensures RetryDelay(count + 1) == 2 * RetryDelay(count)
  {
    assert Pow2(count) == 2 * Pow2(count - 1);
  }

  predicate Exhausted(e: QueueEntry) {
    e.retryCount >= MaxRetries
  }

  predicate DistinctIds(q: seq<QueueEntry>) {
    forall i, j :: 0 <= i < j < |q| ==> q[i].id != q[j].id
  }

  predicate HasEntry(q: seq<QueueEntry>, id: Id) {
    exists i :: 0 <= i < |q| && q[i].id == id
  }

  // ---------------------------------------------------------------------
  // Drain order: priority descending, then timestamp ascending
  // ---------------------------------------------------------------------

  /** `a` may be replayed before `b`. */
  predicate Precedes(a: QueueEntry, b: QueueEntry) {
    a.priority > b.priority || (a.priority == b.priority && a.timestamp <= b.timestamp)
  }

  predicate DrainOrdered(q: seq<QueueEntry>) {
    forall i, j :: 0 <= i < j < |q| ==> Precedes(q[i], q[j])
  }

  lemma PrecedesTotal(a: QueueEntry, b: QueueEntry)
    ensures Precedes(a, b) || Precedes(b, a)
  {
  }

  /** Places `x` in front of the first entry it precedes. */
  function Insert(x: QueueEntry, s: seq<QueueEntry>): (r: seq<QueueEntry>)
    ensures multiset(r) == multiset(s) + multiset{x}
  {
    if s == [] then [x]
    else if Precedes(x, s[0]) then [x] + s
    else
      assert s == [s[0]] + s[1..];
      [s[0]] + Insert(x, s[1..])
  }

  lemma PrependOrdered(a: QueueEntry, rest: seq<QueueEntry>)
    requires DrainOrdered(rest)
    requires forall j :: 0 <= j < |rest| ==> Precedes(a, rest[j])
    ensures DrainOrdered([a] + rest)
  {
  }

  /** Every entry of `Insert(x, s)` is `x` or an entry of `s`. */
  lemma InsertedFrom(x: QueueEntry, s: seq<QueueEntry>, j: nat)
    requires j < |Insert(x, s)|
    ensures Insert(x, s)[j] == x || exists i :: 0 <= i < |s| && s[i] == Insert(x, s)[j]
  {
    var y := Insert(x, s)[j];
    assert y in multiset(Insert(x, s));
    if y != x {
      assert y in multiset(s);
    }
  }

  lemma {:induction false} InsertOrdered(x: QueueEntry, s: seq<QueueEntry>)
    requires DrainOrdered(s)
    ensures DrainOrdered(Insert(x, s))
  {
    if s != [] && !Precedes(x, s[0]) {
      var rest := Insert(x, s[1..]);
      InsertOrdered(x, s[1..]);
      forall j | 0 <= j < |rest|
        ensures Precedes(s[0], rest[j])
      {
        InsertedFrom(x, s[1..], j);
        if rest[j] != x {
          var i :| 0 <= i < |s[1..]| && s[1..][i] == rest[j];
          assert s[i + 1] == rest[j];
        }
      }
      PrependOrdered(s[0], rest);
    } else if s != [] {
      assert forall j :: 0 <= j < |s| ==> Precedes(s[0], s[j]);
      PrependOrdered(x, s);
    }
  }

  /** The result of the drain query over the queue table. */
  function SortForDrain(q: seq<QueueEntry>): (r: seq<QueueEntry>)
    ensures multiset(r) == multiset(q)
    ensures DrainOrdered(r)
  {
    if q == [] then []
    else
      assert q == [q[0]] + q[1..];
      InsertOrdered(q[0], SortForDrain(q[1..]));
      Insert(q[0], SortForDrain(q[1..]))
  }

  /** Sorting keeps the ids distinct, so no intent is replayed twice. */
  lemma {:induction false} SortKeepsIdsDistinct(q: seq<QueueEntry>)
    requires DistinctIds(q)
    ensures DistinctIds(SortForDrain(q))
  {
    if q != [] {
      var rest := SortForDrain(q[1..]);
      SortKeepsIdsDistinct(q[1..]);
      assert forall y :: y in multiset(rest) ==> y in q[1..];
      assert forall j :: 0 <= j < |rest| ==> rest[j] in multiset(rest);
      InsertFreshId(q[0], rest);
    }
  }

  lemma {:induction false} InsertFreshId(x: QueueEntry, s: seq<QueueEntry>)
    requires DistinctIds(s)
    requires forall j :: 0 <= j < |s| ==> s[j].id != x.id
    ensures DistinctIds(Insert(x, s))
  {
    if s != [] && !Precedes(x, s[0]) {
      var rest := Insert(x, s[1..]);
      InsertFreshId(x, s[1..]);
      forall j | 0 <= j < |rest|
        ensures rest[j].id != s[0].id
      {
        InsertedFrom(x, s[1..], j);
      }
      assert Insert(x, s) == [s[0]] + rest;
    }
  }

  /** The same multiset of entries, so every queued intent is in the drain. */
  lemma SortedHasEveryEntry(q: seq<QueueEntry>, id: Id)
    ensures HasEntry(SortForDrain(q), id) <==> HasEntry(q, id)
  {
    var r := SortForDrain(q);
    if HasEntry(q, id) {
      var i :| 0 <= i < |q| && q[i].id == id;
      assert q[i] in multiset(q);
      var j :| 0 <= j < |r| && r[j] == q[i];
    }
    if HasEntry(r, id) {
      var i :| 0 <= i < |r| && r[i].id == id;
      assert r[i] in multiset(r);
      var j :| 0 <= j < |q| && q[j] == r[i];
    }
  }

  // ---------------------------------------------------------------------
  // Counters
  // ---------------------------------------------------------------------

  /** The `retry_count >= maxRetries` count query. */
  function CountExhausted(q: seq<QueueEntry>): (n: nat)
    ensures n <= |q|
  {
    if q == [] then 0
    else CountExhausted(q[..|q| - 1]) + (if Exhausted(q[|q| - 1]) then 1 else 0)
  }

  /** The queue after every exhausted entry is destroyed. */
  function WithoutExhausted(q: seq<QueueEntry>): (r: seq<QueueEntry>)
    ensures forall x :: x in r <==> x in q && !Exhausted(x)
  {
    if q == [] then []
    else WithoutExhausted(q[..|q| - 1]) + (if Exhausted(q[|q| - 1]) then [] else [q[|q| - 1]])
  }

  /** Clearing failed entries removes exactly as many entries as are counted failed. */
  lemma {:induction false} ClearingRemovesTheCounted(q: seq<QueueEntry>)
    ensures |WithoutExhausted(q)| + CountExhausted(q) == |q|
    ensures CountExhausted(WithoutExhausted(q)) == 0
  {
    if q != [] {
      var p, last := q[..|q| - 1], q[|q| - 1];
      ClearingRemovesTheCounted(p);
      var w := WithoutExhausted(p);
      if Exhausted(last) {
        assert w + [] == w;
        assert WithoutExhausted(q) == w;
      } else {
        var r := w + [last];
        assert WithoutExhausted(q) == r;
        assert r[..|r| - 1] == w;
        assert CountExhausted(r) == CountExhausted(w);
      }
    }
  }

  // ---------------------------------------------------------------------
  // Queue edits
  // ---------------------------------------------------------------------

  /** `destroyPermanently` of the entry `id`. */
  function RemoveEntry(q: seq<QueueEntry>, id: Id): (r: seq<QueueEntry>)
    ensures forall x :: x in r <==> x in q && x.id != id
    ensures |r| <= |q|
  {
    if q == [] then []
    else RemoveEntry(q[..|q| - 1], id) + (if q[|q| - 1].id == id then [] else [q[|q| - 1]])
  }

  /** The update recording the `count`-th failure with `msg` on the entry `id`. */
  function RecordFailure(q: seq<QueueEntry>, id: Id, count: nat, msg: string): (r: seq<QueueEntry>)
    ensures |r| == |q|
    ensures forall i :: 0 <= i < |q| ==>
      r[i] == if q[i].id == id then q[i].(retryCount := count, lastError := Some(msg)) else q[i]
  {
    seq(|q|, i requires 0 <= i < |q| =>
      if q[i].id == id then q[i].(retryCount := count, lastError := Some(msg)) else q[i])
  }

  lemma HasEntryByMembership(q: seq<QueueEntry>, id: Id)
    ensures HasEntry(q, id) <==> exists x :: x in q && x.id == id
  {
    if HasEntry(q, id) {
      var i :| 0 <= i < |q| && q[i].id == id;
      assert q[i] in q;
    }
  }

  lemma RemoveEntryHas(q: seq<QueueEntry>, id: Id, x: Id)
    ensures HasEntry(RemoveEntry(q, id), x) <==> HasEntry(q, x) && x != id
  {
    HasEntryByMembership(q, x);
    HasEntryByMembership(RemoveEntry(q, id), x);
  }

  lemma RemoveEntryKeepsIdsDistinct(q: seq<QueueEntry>, id: Id)
    requires DistinctIds(q)
    ensures DistinctIds(RemoveEntry(q, id))
    decreases |q|
  {
    if q != [] {
      var p := RemoveEntry(q[..|q| - 1], id);
      RemoveEntryKeepsIdsDistinct(q[..|q| - 1], id);
      assert forall j :: 0 <= j < |p| ==> p[j] in p;
      assert forall j :: 0 <= j < |p| ==> p[j].id != q[|q| - 1].id;
    }
  }

  // ---------------------------------------------------------------------
  // What the drain does to the queue
  // ---------------------------------------------------------------------

  /** The retry count `handleSyncError` computes for a failure of `e`. */
  function NextRetryCount(e: QueueEntry): nat {
    e.retryCount + 1
  }

  /**
   * The failure is written at once when the new count reaches the limit;
   * below it the write is only scheduled, so the queue keeps the entry as is.
   */
  predicate WritesAtOnce(e: QueueEntry) {
    NextRetryCount(e) >= MaxRetries
  }

  /** The queue right after the step that replays `e` ended with `o`. */
  function QueueStep(q: seq<QueueEntry>, e: QueueEntry, o: Outcome): seq<QueueEntry> {
    match o
    case Done => RemoveEntry(q, e.id)
    case Failed(msg) =>
      if WritesAtOnce(e) then RecordFailure(q, e.id, NextRetryCount(e), msg) else q
  }

  /** The queue after the steps replaying `s` ended with `o`, one by one. */
  function QueueAfterSteps(q: seq<QueueEntry>, s: seq<QueueEntry>, o: seq<Outcome>): seq<QueueEntry>
    requires |s| == |o|
  {
    if s == [] then q
    else QueueStep(QueueAfterSteps(q, s[..|s| - 1], o[..|o| - 1]), s[|s| - 1], o[|o| - 1])
  }

  lemma QueueStepHas(q: seq<QueueEntry>, e: QueueEntry, o: Outcome, x: Id)
    ensures HasEntry(QueueStep(q, e, o), x) <==> HasEntry(q, x) && !(o.Done? && x == e.id)
  {
    match o
    case Done => RemoveEntryHas(q, e.id, x);
    case Failed(msg) =>
      if WritesAtOnce(e) {
        var r := RecordFailure(q, e.id, NextRetryCount(e), msg);
        if HasEntry(q, x) {
          var i :| 0 <= i < |q| && q[i].id == x;
          assert r[i].id == x;
        }
        if HasEntry(r, x) {
          var i :| 0 <= i < |r| && r[i].id == x;
          assert q[i].id == x;
        }
      }
  }

  /**
   * Over a whole drain, an entry of the drained list stays queued exactly
   * when its own step failed, and entries outside the list are untouched.
   */
  lemma {:induction false} DrainKeepsExactlyFailures(q: seq<QueueEntry>, s: seq<QueueEntry>, o: seq<Outcome>)
    requires |s| == |o| && DistinctIds(s)
    ensures forall k :: 0 <= k < |s| ==>
      (HasEntry(QueueAfterSteps(q, s, o), s[k].id) <==> HasEntry(q, s[k].id) && o[k].Failed?)
    ensures forall x :: (forall k :: 0 <= k < |s| ==> s[k].id != x) ==>
      (HasEntry(QueueAfterSteps(q, s, o), x) <==> HasEntry(q, x))
  {
    if s != [] {
      var n := |s| - 1;
      var before := QueueAfterSteps(q, s[..n], o[..n]);
      DrainKeepsExactlyFailures(q, s[..n], o[..n]);
      forall x
        ensures HasEntry(QueueAfterSteps(q, s, o), x) <==> HasEntry(before, x) && !(o[n].Done? && x == s[n].id)
      {
        QueueStepHas(before, s[n], o[n], x);
      }
      forall k | 0 <= k < n
        ensures s[k].id != s[n].id && s[k] == s[..n][k] && o[k] == o[..n][k]
      {
      }
    }
  }

  lemma QueueStepKeepsIdsDistinct(q: seq<QueueEntry>, e: QueueEntry, o: Outcome)
    requires DistinctIds(q)
    ensures DistinctIds(QueueStep(q, e, o))
  {
    if o.Done? {
      RemoveEntryKeepsIdsDistinct(q, e.id);
    }
  }

  /** A failure that reaches the limit is recorded on the entry itself, never on a copy. */
  lemma ExhaustingFailureRecorded(q: seq<QueueEntry>, e: QueueEntry, msg: string, i: nat)
    requires WritesAtOnce(e) && i < |q| && q[i].id == e.id
    ensures |QueueStep(q, e, Failed(msg))| == |q|
    ensures QueueStep(q, e, Failed(msg))[i].retryCount == e.retryCount + 1
    ensures QueueStep(q, e, Failed(msg))[i].lastError == Some(msg)
    ensures Exhausted(QueueStep(q, e, Failed(msg))[i])
  {
  }

  /**
   * A whole drain over the sorted queue: an entry that was queued is still
   * queued exactly when the step that replayed it failed, and no entry
   * appears that was not queued before.
   */
  lemma DrainLeavesExactlyFailures(q: seq<QueueEntry>, o: seq<Outcome>, id: Id)
    requires DistinctIds(q) && |o| == |SortForDrain(q)|
    ensures HasEntry(QueueAfterSteps(q, SortForDrain(q), o), id) ==> HasEntry(q, id)
    ensures HasEntry(q, id) ==>
      (HasEntry(QueueAfterSteps(q, SortForDrain(q), o), id) <==>
       exists k :: 0 <= k < |o| && SortForDrain(q)[k].id == id && o[k].Failed?)
  {
    var s := SortForDrain(q);
    SortKeepsIdsDistinct(q);
    SortedHasEveryEntry(q, id);
    DrainKeepsExactlyFailures(q, s, o);
    if HasEntry(q, id) {
      var k :| 0 <= k < |s| && s[k].id == id;
      assert forall j :: 0 <= j < |s| && s[j].id == id ==> j == k;
    }
  }
}
