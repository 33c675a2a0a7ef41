/** The persisted offline mutation queue: FIFO items with a retry counter, a processing pass guarded
    by a persisted flag and the online test, statistics, and a seven-day age sweep. */
module OfflineQueue {
  import opened Wrappers
  import opened Seqs
  import Text
  import Network

  datatype MutationType = Create | Update | Delete

  /** One pending mutation. `data` is the caller's JSON payload, kept opaque. */
  datatype QueueItem = QueueItem(
    id: string, kind: MutationType, collection: string, data: Option<string>,
    timestamp: int, retries: nat, error: Option<string>)

  datatype QueueStats = QueueStats(total: nat, pending: nat, failed: nat, lastProcessed: Option<int>)

  /** What one call of the caller's processor did: returned, or threw with a message. */
  datatype Outcome = Done | Threw(message: string)

  /** The caller's processor: its outcome for the `n`-th call of a pass, given the item. */
  type Processor = (nat, QueueItem) -> Outcome

  /** Items that failed this many times are skipped by automatic processing. */
  const MaxRetries: nat := 3

  /** The age beyond which the sweep drops an item, in milliseconds. */
  const SevenDaysMs: int := 7 * 24 * 60 * 60 * 1000

  /** The generated id: `queue_<now>_<random suffix>`. */
  function ItemId(now: nat, suffix: string): string
  {
    "queue_" + Text.NatToString(now) + "_" + suffix
  }

  predicate Exhausted(item: QueueItem)
  {
    item.retries >= MaxRetries
  }

  /** Items the next pass hands to the processor. */
  predicate Pending(item: QueueItem)
  {
    !Exhausted(item)
  }

  predicate DistinctIds(q: seq<QueueItem>)
  {
    forall i, j :: 0 <= i < j < |q| ==> q[i].id != q[j].id
  }

  /** The test `item => item.id !== id`. */
  function OtherId(id: string): QueueItem -> bool
  {
    (item: QueueItem) => item.id != id
  }

  /** `removeFromQueue`: every item with the id goes, the rest keep their order. */
  function RemoveById(q: seq<QueueItem>, id: string): seq<QueueItem>
  {
    Filter(q, OtherId(id))
  }

  /** Removing an id leaves no item with it, keeps every other item, and is a no-op for an unknown id. */
  lemma RemoveByIdEffect(q: seq<QueueItem>, id: string)
    ensures forall i :: 0 <= i < |RemoveById(q, id)| ==> RemoveById(q, id)[i].id != id
    ensures forall i :: 0 <= i < |q| && q[i].id != id ==> q[i] in RemoveById(q, id)
    ensures (forall i :: 0 <= i < |q| ==> q[i].id != id) ==> RemoveById(q, id) == q
  {
    if forall i :: 0 <= i < |q| ==> q[i].id != id {
      FilterAllPass(q, OtherId(id));
    }
  }

  /** `queue.find(i => i.id === id)`, as a position. */
  function FirstIndexOf(q: seq<QueueItem>, id: string): (r: Option<nat>)
    ensures r.None? <==> forall i :: 0 <= i < |q| ==> q[i].id != id
    ensures r.Some? ==> r.value < |q| && q[r.value].id == id && forall j :: 0 <= j < r.value ==> q[j].id != id
  {
    if q == [] then None
    else if q[0].id == id then Some(0)
    else match FirstIndexOf(q[1..], id)
      case None => None
      case Some(k) => Some(k + 1)
  }

  /** One more failed attempt, with its message. */
  function Marked(item: QueueItem, message: string): QueueItem
  {
    item.(retries := item.retries + 1, error := Some(message))
  }

  /** `markQueueItemError`: bump the first item with the id. */
  function MarkError(q: seq<QueueItem>, id: string, message: string): seq<QueueItem>
  {
    match FirstIndexOf(q, id)
    case None => q
    case Some(k) => q[k := Marked(q[k], message)]
  }

  /** Marking an error touches only the first item with the id: its retries grow by exactly one and
      its error is set; an unknown id changes nothing. */
  lemma MarkErrorEffect(q: seq<QueueItem>, id: string, message: string)
    ensures |MarkError(q, id, message)| == |q|
    ensures (forall i :: 0 <= i < |q| ==> q[i].id != id) ==> MarkError(q, id, message) == q
    ensures forall k :: 0 <= k < |q| && q[k].id == id && (forall j :: 0 <= j < k ==> q[j].id != id) ==>
      && MarkError(q, id, message)[k].retries == q[k].retries + 1
      && MarkError(q, id, message)[k].error == Some(message)
      && MarkError(q, id, message)[k] == q[k].(retries := q[k].retries + 1, error := Some(message))
      && forall j :: 0 <= j < |q| && j != k ==> MarkError(q, id, message)[j] == q[j]
  {
  }

  // ---------------------------------------------------------------- one processing pass

  /** The running state of a pass: the persisted queue, the two counters, and the items handed to
      the processor so far. */
  datatype PassState = PassState(queue: seq<QueueItem>, success: nat, failed: nat, calls: seq<QueueItem>)

  /** Handling one snapshot item against the current persisted queue. */
  function Step(r: PassState, item: QueueItem, processor: Processor): PassState
  {
    if Exhausted(item) then r.(failed := r.failed + 1)
    else match processor(|r.calls|, item)
      case Done => PassState(RemoveById(r.queue, item.id), r.success + 1, r.failed, r.calls + [item])
      case Threw(m) => PassState(MarkError(r.queue, item.id, m), r.success, r.failed + 1, r.calls + [item])
  }

  /** Handling the remaining snapshot items in order. */
  function Run(r: PassState, todo: seq<QueueItem>, processor: Processor): PassState
    decreases |todo|
  {
    if todo == [] then r else Run(Step(r, todo[0], processor), todo[1..], processor)
  }

  /** One step of `Run`, for the loop that implements it. */
  lemma RunUnfold(r: PassState, todo: seq<QueueItem>, processor: Processor)
    requires todo != []
    ensures Run(r, todo, processor) == Run(Step(r, todo[0], processor), todo[1..], processor)
  {
  }

  /** A whole pass over the queue as it stood when the pass began. */
  function ProcessPass(q: seq<QueueItem>, processor: Processor): PassState
  {
    Run(PassState(q, 0, 0, []), q, processor)
  }

  /** Every snapshot item is counted exactly once, and the processor sees exactly the items that are
      not exhausted, each once, in queue order. */
  lemma RunAccounting(r: PassState, todo: seq<QueueItem>, processor: Processor)
    ensures Run(r, todo, processor).success + Run(r, todo, processor).failed == r.success + r.failed + |todo|
    ensures Run(r, todo, processor).calls == r.calls + Filter(todo, Pending)
  {
    RunCounts(r, todo, processor);
    RunCalls(r, todo, processor);
  }

  lemma {:induction false} RunCounts(r: PassState, todo: seq<QueueItem>, processor: Processor)
    ensures Run(r, todo, processor).success + Run(r, todo, processor).failed == r.success + r.failed + |todo|
    decreases |todo|
  {
    if todo != [] {
      var r' := Step(r, todo[0], processor);
      RunUnfold(r, todo, processor);
      RunCounts(r', todo[1..], processor);
      StepAccounting(r, todo[0], processor);
    }
  }

  lemma {:induction false} RunCalls(r: PassState, todo: seq<QueueItem>, processor: Processor)
    ensures Run(r, todo, processor).calls == r.calls + Filter(todo, Pending)
    decreases |todo|
  {
    if todo != [] {
      var r' := Step(r, todo[0], processor);
      RunUnfold(r, todo, processor);
      var head := if Pending(todo[0]) then [todo[0]] else [];
      calc {
        Run(r, todo, processor).calls;
        Run(r', todo[1..], processor).calls;
        { RunCalls(r', todo[1..], processor); }
        r'.calls + Filter(todo[1..], Pending);
        { StepAccounting(r, todo[0], processor); }
        (r.calls + head) + Filter(todo[1..], Pending);
        { AppendAssoc(r.calls, head, Filter(todo[1..], Pending)); }
        r.calls + (head + Filter(todo[1..], Pending));
        { FilterCons(todo, Pending); }
        r.calls + Filter(todo, Pending);
      }
    }
  }

  /** One step counts its item once, and calls the processor exactly when the item is pending. */
  lemma StepAccounting(r: PassState, item: QueueItem, processor: Processor)
    ensures Step(r, item, processor).success + Step(r, item, processor).failed == r.success + r.failed + 1
    ensures Step(r, item, processor).calls == r.calls + if Pending(item) then [item] else []
  {
  }

  /** For a pass: `success + failed` is the snapshot length, and no exhausted item reaches the processor. */
  lemma PassAccounting(q: seq<QueueItem>, processor: Processor)
    ensures ProcessPass(q, processor).success + ProcessPass(q, processor).failed == |q|
    ensures ProcessPass(q, processor).calls == Filter(q, Pending)
    ensures forall i :: 0 <= i < |ProcessPass(q, processor).calls| ==> ProcessPass(q, processor).calls[i].retries < MaxRetries
  {
    RunAccounting(PassState(q, 0, 0, []), q, processor);
  }

  /** The reference outcome of handling `todo`, item by item, when ids are distinct: exhausted items
      stay as they are, handled ones go, failing ones stay with one more retry. `n` is the number of
      processor calls made before. */
  function Expected(todo: seq<QueueItem>, n: nat, processor: Processor): seq<QueueItem>
    decreases |todo|
  {
    if todo == [] then []
    else if Exhausted(todo[0]) then [todo[0]] + Expected(todo[1..], n, processor)
    else match processor(n, todo[0])
      case Done => Expected(todo[1..], n + 1, processor)
      case Threw(m) => [Marked(todo[0], m)] + Expected(todo[1..], n + 1, processor)
  }

  predicate IdsDisjoint(p: seq<QueueItem>, q: seq<QueueItem>)
  {
    forall i, j :: 0 <= i < |p| && 0 <= j < |q| ==> p[i].id != q[j].id
  }

  /** Removing the id of the head of `todo` from `done + todo` removes just that head. */
  lemma RemoveHead(done: seq<QueueItem>, todo: seq<QueueItem>)
    requires todo != [] && DistinctIds(todo) && IdsDisjoint(done, todo)
    ensures RemoveById(done + todo, todo[0].id) == done + todo[1..]
  {
    var keep := OtherId(todo[0].id);
    FilterAppend(done, todo, keep);
    KeepAllOthers(done, todo[0]);
    HeadDropped(todo);
  }

  /** Removing the head's id from a queue with distinct ids drops just the head. */
  lemma HeadDropped(todo: seq<QueueItem>)
    requires todo != [] && DistinctIds(todo)
    ensures Filter(todo, OtherId(todo[0].id)) == todo[1..]
  {
    assert Filter(todo, OtherId(todo[0].id)) == Filter(todo[1..], OtherId(todo[0].id));
    RestHasOtherIds(todo);
    KeepAllOthers(todo[1..], todo[0]);
  }

  /** Items whose ids differ from `x`'s all survive the removal of `x`'s id. */
  lemma KeepAllOthers(q: seq<QueueItem>, x: QueueItem)
    requires forall i :: 0 <= i < |q| ==> q[i].id != x.id
    ensures Filter(q, OtherId(x.id)) == q
  {
    FilterAllPass(q, OtherId(x.id));
  }

  lemma RestHasOtherIds(todo: seq<QueueItem>)
    requires todo != [] && DistinctIds(todo)
    ensures forall i :: 0 <= i < |todo[1..]| ==> todo[1..][i].id != todo[0].id
  {
    forall i | 0 <= i < |todo[1..]|
      ensures todo[1..][i].id != todo[0].id
    {
      assert todo[1..][i] == todo[i + 1];
    }
  }

  /** Marking the id of the head of `todo` in `done + todo` marks just that head. */
  lemma MarkHead(done: seq<QueueItem>, todo: seq<QueueItem>, m: string)
    requires todo != [] && IdsDisjoint(done, todo)
    ensures MarkError(done + todo, todo[0].id, m) == done + [Marked(todo[0], m)] + todo[1..]
  {
    var q := done + todo;
    var k := FirstIndexOf(q, todo[0].id);
    assert q[|done|] == todo[0];
    assert k == Some(|done|);
  }

  /** What the head of `todo` contributes to the reference outcome. */
  function HeadResult(item: QueueItem, n: nat, processor: Processor): seq<QueueItem>
  {
    if Exhausted(item) then [item]
    else match processor(n, item)
      case Done => []
      case Threw(m) => [Marked(item, m)]
  }

  /** The number of processor calls after handling `item`. */
  function CallsAfter(item: QueueItem, n: nat): nat
  {
    if Exhausted(item) then n else n + 1
  }

  /** One step, with distinct ids, moves the head of `todo` to its reference contribution. */
  lemma StepDistinct(done: seq<QueueItem>, todo: seq<QueueItem>, s: nat, f: nat, c: seq<QueueItem>, processor: Processor)
    requires todo != [] && DistinctIds(todo) && IdsDisjoint(done, todo)
    ensures var r := Step(PassState(done + todo, s, f, c), todo[0], processor);
      r.queue == (done + HeadResult(todo[0], |c|, processor)) + todo[1..]
      && |r.calls| == CallsAfter(todo[0], |c|)
  {
    var item := todo[0];
    if !Exhausted(item) {
      match processor(|c|, item)
      case Done =>
        RemoveHead(done, todo);
        assert done + [] == done;
      case Threw(m) =>
        MarkHead(done, todo, m);
    } else {
      assert todo == [item] + todo[1..];
      AppendAssoc(done, [item], todo[1..]);
    }
  }

  /** With distinct ids, a run over `todo` starting from `done + todo` leaves `done + Expected(todo)`. */
  lemma {:induction false} RunDistinct(done: seq<QueueItem>, todo: seq<QueueItem>, s: nat, f: nat, c: seq<QueueItem>, processor: Processor)
    requires DistinctIds(todo) && IdsDisjoint(done, todo)
    ensures Run(PassState(done + todo, s, f, c), todo, processor).queue == done + Expected(todo, |c|, processor)
    decreases |todo|
  {
    if todo == [] {
      assert done + todo == done;
    } else {
      var item, rest := todo[0], todo[1..];
      var r := Step(PassState(done + todo, s, f, c), item, processor);
      var head := HeadResult(item, |c|, processor);
      StepDistinct(done, todo, s, f, c, processor);
      RunUnfold(PassState(done + todo, s, f, c), todo, processor);
      assert Expected(todo, |c|, processor) == head + Expected(rest, CallsAfter(item, |c|), processor);
      DisjointAfterHead(done, todo, |c|, processor);
      RunDistinct(done + head, rest, r.success, r.failed, r.calls, processor);
      assert r == PassState((done + head) + rest, r.success, r.failed, r.calls);
      AppendAssoc(done, head, Expected(rest, CallsAfter(item, |c|), processor));
    }
  }

  /** The outcome for the head keeps its id, so it stays apart from the rest of the queue. */
  lemma DisjointAfterHead(done: seq<QueueItem>, todo: seq<QueueItem>, n: nat, processor: Processor)
    requires todo != [] && DistinctIds(todo) && IdsDisjoint(done, todo)
    ensures DistinctIds(todo[1..]) && IdsDisjoint(done + HeadResult(todo[0], n, processor), todo[1..])
  {
    var head := HeadResult(todo[0], n, processor);
    assert forall x :: x in head ==> x.id == todo[0].id;
    assert forall j :: 0 <= j < |todo| - 1 ==> todo[1..][j] == todo[j + 1];
  }

  /** After a pass over a queue with distinct ids: handled items are gone, failing items remain in place
      with one more retry, exhausted items remain untouched. */
  lemma PassDistinct(q: seq<QueueItem>, processor: Processor)
    requires DistinctIds(q)
    ensures ProcessPass(q, processor).queue == Expected(q, 0, processor)
  {
    assert IdsDisjoint([], q);
    RunDistinct([], q, 0, 0, [], processor);
    assert [] + q == q;
  }

  /** A processor that always throws. */
  ghost predicate AlwaysThrows(processor: Processor)
  {
    forall n, item :: processor(n, item).Threw?
  }

  /** Under an always-throwing processor every item stays, with the same identity, and gains one retry
      unless it was already exhausted. */
  lemma {:induction false} ExpectedAllThrow(todo: seq<QueueItem>, n: nat, processor: Processor)
    requires AlwaysThrows(processor)
    ensures |Expected(todo, n, processor)| == |todo|
    ensures forall i :: 0 <= i < |todo| ==>
      && Expected(todo, n, processor)[i].id == todo[i].id
      && Expected(todo, n, processor)[i].retries == if Exhausted(todo[i]) then todo[i].retries else todo[i].retries + 1
    decreases |todo|
  {
    if todo != [] {
      var n' := if Exhausted(todo[0]) then n else n + 1;
      ExpectedAllThrow(todo[1..], n', processor);
      assert processor(n, todo[0]).Threw?;
    }
  }

  /** One always-failing pass over distinct ids keeps every item in place with the same id and one
      more retry unless exhausted. */
  lemma FailingPass(q: seq<QueueItem>, processor: Processor)
    requires DistinctIds(q) && AlwaysThrows(processor)
    ensures var q' := ProcessPass(q, processor).queue;
      && |q'| == |q| && DistinctIds(q')
      && forall i :: 0 <= i < |q| ==>
        q'[i].id == q[i].id && q'[i].retries == if Exhausted(q[i]) then q[i].retries else q[i].retries + 1
  {
    PassDistinct(q, processor);
    ExpectedAllThrow(q, 0, processor);
  }

  /** A pass over exhausted items with distinct ids calls nothing, fails them all and changes nothing. */
  lemma ExhaustedPass(q: seq<QueueItem>, processor: Processor)
    requires DistinctIds(q) && forall i :: 0 <= i < |q| ==> Exhausted(q[i])
    ensures ProcessPass(q, processor).calls == []
    ensures ProcessPass(q, processor).queue == q
    ensures ProcessPass(q, processor).failed == |q|
  {
    PassAccounting(q, processor);
    FilterNonePass(q, Pending);
    PassDistinct(q, processor);
    ExpectedAllExhausted(q, 0, processor);
    RunAccounting(PassState(q, 0, 0, []), q, processor);
    assert ProcessPass(q, processor).success == 0 by {
      RunSuccessBound(PassState(q, 0, 0, []), q, processor);
    }
  }

  /** Successes never outnumber the processor calls. */
  lemma {:induction false} RunSuccessBound(r: PassState, todo: seq<QueueItem>, processor: Processor)
    requires r.success <= |r.calls|
    ensures Run(r, todo, processor).success - r.success <= |Run(r, todo, processor).calls| - |r.calls|
    ensures |r.calls| <= |Run(r, todo, processor).calls|
    decreases |todo|
  {
    if todo != [] {
      RunSuccessBound(Step(r, todo[0], processor), todo[1..], processor);
    }
  }

  /** Bounded retry: enqueued items whose processing always fails are all exhausted after exactly three
      passes; the fourth pass hands nothing to the processor, counts every item as failed and leaves
      the queue as it was. */
  lemma ThreeFailingPasses(q: seq<QueueItem>, p1: Processor, p2: Processor, p3: Processor, p4: Processor)
    requires DistinctIds(q) && forall i :: 0 <= i < |q| ==> q[i].retries == 0
    requires AlwaysThrows(p1) && AlwaysThrows(p2) && AlwaysThrows(p3)
    ensures var q3 := ProcessPass(ProcessPass(ProcessPass(q, p1).queue, p2).queue, p3).queue;
      && |q3| == |q|
      && (forall i :: 0 <= i < |q3| ==> q3[i].id == q[i].id && q3[i].retries == MaxRetries)
      && Stats(q3).total == |q| && Stats(q3).failed == |q| && Stats(q3).pending == 0
      && ProcessPass(q3, p4).calls == [] && ProcessPass(q3, p4).queue == q3 && ProcessPass(q3, p4).failed == |q|
  {
    var q1 := ProcessPass(q, p1).queue;
    FailingPass(q, p1);
    var q2 := ProcessPass(q1, p2).queue;
    FailingPass(q1, p2);
    var q3 := ProcessPass(q2, p3).queue;
    FailingPass(q2, p3);
    assert forall i :: 0 <= i < |q3| ==> q3[i].retries == MaxRetries;
    FilterAllPass(q3, Exhausted);
    ExhaustedPass(q3, p4);
  }

  /** A queue of exhausted items is left as it is. */
  lemma {:induction false} ExpectedAllExhausted(todo: seq<QueueItem>, n: nat, processor: Processor)
    requires forall i :: 0 <= i < |todo| ==> Exhausted(todo[i])
    ensures Expected(todo, n, processor) == todo
    decreases |todo|
  {
    if todo != [] {
      ExpectedAllExhausted(todo[1..], n, processor);
    }
  }

  // ---------------------------------------------------------------- statistics and sweep

  /** `Math.max` of the timestamps. */
  function MaxTimestamp(q: seq<QueueItem>): (m: int)
    requires q != []
    ensures forall i :: 0 <= i < |q| ==> q[i].timestamp <= m
    ensures exists i :: 0 <= i < |q| && q[i].timestamp == m
  {
    if |q| == 1 then q[0].timestamp
    else var rest := MaxTimestamp(q[1..]); if q[0].timestamp >= rest then q[0].timestamp else rest
  }

  /** `getQueueStats` over a queue snapshot. */
  function Stats(q: seq<QueueItem>): (s: QueueStats)
    ensures s.total == |q| && s.pending + s.failed == s.total
    ensures s.failed == |Filter(q, Exhausted)|
    ensures s.lastProcessed.None? <==> q == []
    ensures s.lastProcessed.Some? ==>
      (forall i :: 0 <= i < |q| ==> q[i].timestamp <= s.lastProcessed.value)
      && exists i :: 0 <= i < |q| && q[i].timestamp == s.lastProcessed.value
  {
    var failed := |Filter(q, Exhausted)|;
    QueueStats(|q|, |q| - failed, failed, if |q| > 0 then Some(MaxTimestamp(q)) else None)
  }

  /** `cleanOldQueueItems` at time `now`. */
  function KeepRecent(q: seq<QueueItem>, now: int): seq<QueueItem>
  {
    Filter(q, (item: QueueItem) => item.timestamp > now - SevenDaysMs)
  }

  /** The sweep keeps exactly the items younger than seven days (the filter keeps their order), and
      sweeping twice at the same time is sweeping once. */
  lemma KeepRecentEffect(q: seq<QueueItem>, now: int)
    ensures forall i :: 0 <= i < |q| ==> (q[i] in KeepRecent(q, now) <==> q[i].timestamp > now - SevenDaysMs)
    ensures forall i :: 0 <= i < |KeepRecent(q, now)| ==> KeepRecent(q, now)[i].timestamp > now - SevenDaysMs
    ensures KeepRecent(KeepRecent(q, now), now) == KeepRecent(q, now)
  {
    FilterIdempotent(q, (item: QueueItem) => item.timestamp > now - SevenDaysMs);
  }

  // ---------------------------------------------------------------- the persisted state

  /** The `offline_queue` and `queue_processing` storage keys. */
  class QueueStore {
    var items: seq<QueueItem>
    var processing: bool

    constructor ()
      ensures items == [] && !processing
    {
      items := [];
      processing := false;
    }

    /** `addToQueue`: append a fresh item with no retries; return its id. */
    method AddToQueue(kind: MutationType, collection: string, data: Option<string>, now: nat, suffix: string)
      returns (id: string)
      modifies this`items
      ensures id == ItemId(now, suffix)
      ensures items == old(items) + [QueueItem(id, kind, collection, data, now, 0, None)]
    {
      id := ItemId(now, suffix);
      items := items + [QueueItem(id, kind, collection, data, now, 0, None)];
    }

    /** `getQueue`. */
    function GetQueue(): seq<QueueItem>
      reads this
    {
      items
    }

    /** `removeFromQueue`. */
    method RemoveFromQueue(id: string)
      modifies this`items
      ensures items == RemoveById(old(items), id)
    {
      items := RemoveById(items, id);
    }

    /** `clearQueue`. */
    method ClearQueue()
      modifies this`items
      ensures items == []
    {
      items := [];
    }

    /** `markQueueItemError`. */
    method MarkQueueItemError(id: string, message: string)
      modifies this`items
      ensures items == MarkError(old(items), id, message)
    {
      var k := FirstIndexOf(items, id);
      if k.Some? {
        items := items[k.value := Marked(items[k.value], message)];
      }
    }

    /** `processQueue`: refuse while the flag is set or offline (the online test probes the network
        and refreshes the monitor's cache); otherwise set the flag, handle the snapshot in order, and
        reset the flag. Returns the counters and the items handed to the processor. */
    method ProcessQueue(monitor: Network.NetworkMonitor, probe: Network.ProbeState, processor: Processor)
      returns (success: nat, failed: nat, calls: seq<QueueItem>)
      modifies this, monitor`current
      ensures old(processing) ==> success == 0 && failed == 0 && calls == [] && items == old(items) && processing
      ensures old(processing) ==> monitor.current == old(monitor.current)
      ensures !old(processing) ==> monitor.current == Network.Normalize(probe)
      ensures !old(processing) && !Network.IsOnline(monitor.current) ==>
        success == 0 && failed == 0 && calls == [] && items == old(items) && !processing
      ensures !old(processing) && Network.IsOnline(monitor.current) ==>
        var pass := ProcessPass(old(items), processor);
        items == pass.queue && success == pass.success && failed == pass.failed && calls == pass.calls && !processing
    {
      success, failed, calls := 0, 0, [];
      if processing {
        return;
      }
      var online := monitor.IsOnlineNow(probe);
      if !online {
        return;
      }
      processing := true;
      var snapshot := items;
      for i := 0 to |snapshot|
        invariant processing
        invariant monitor.current == Network.Normalize(probe)
        invariant Run(PassState(items, success, failed, calls), snapshot[i..], processor) == ProcessPass(snapshot, processor)
      {
        var item := snapshot[i];
        var before := PassState(items, success, failed, calls);
        assert snapshot[i..][0] == item && snapshot[i..][1..] == snapshot[i + 1..];
        RunUnfold(before, snapshot[i..], processor);
        if item.retries >= MaxRetries {
          failed := failed + 1;
        } else {
          var outcome := processor(|calls|, item);
          calls := calls + [item];
          match outcome
          case Done =>
            RemoveFromQueue(item.id);
            success := success + 1;
          case Threw(m) =>
            MarkQueueItemError(item.id, m);
            failed := failed + 1;
        }
        assert PassState(items, success, failed, calls) == Step(before, item, processor);
      }
      processing := false;
    }

    /** `getQueueStats`. */
    function GetQueueStats(): QueueStats
      reads this
    {
      Stats(items)
    }

    /** `cleanOldQueueItems`: drop items older than seven days. */
    method CleanOldQueueItems(now: int)
      modifies this`items
      ensures items == KeepRecent(old(items), now)
    {
      var cleaned := KeepRecent(items, now);
      if |items| - |cleaned| > 0 {
        items := cleaned;
      } else {
        FilterFullLength(items, (item: QueueItem) => item.timestamp > now - SevenDaysMs);
      }
    }
  }

  /** A client's view: a second call issued while the flag is still set hands nothing to the processor
      and leaves the queue alone, so no item is applied twice. */
  method ReentrantCallIsRefused(store: QueueStore, monitor: Network.NetworkMonitor, probe: Network.ProbeState, processor: Processor)
    returns (success: nat, failed: nat, calls: seq<QueueItem>)
    requires store.processing
    modifies store, monitor`current
    ensures success == 0 && failed == 0 && calls == [] && store.items == old(store.items)
  {
    success, failed, calls := store.ProcessQueue(monitor, probe, processor);
  }
}
