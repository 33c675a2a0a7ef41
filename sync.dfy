/** The sync orchestrator between the local record list and the remote store: local-first writes
    under a temporary id, a sync queue drained without a retry cap, a pull that replaces the local
    list, and the strict online test they share. */
module Sync {
  import opened Wrappers
  import opened Seqs
  import opened Text
  import Network
  import opened Storage

  const TempPrefix := "temp_"

  datatype Action = Create | Delete

  /** A pending remote mutation, keyed by the record id it concerns. */
  datatype SyncQueueItem = SyncQueueItem(id: string, action: Action, data: Option<LocationInput>, timestamp: int)

  /** A call into the remote store. */
  datatype RemoteCall = SaveRemote(data: LocationInput) | DeleteRemote(id: string)

  datatype SyncStatus = SyncStatus(lastSync: Option<nat>, queueSize: nat, isOnline: bool)

  /** The remote store's verdict on the call made for the `k`-th item of a drain: accepted or thrown. */
  type RemoteOracle = (nat, SyncQueueItem) -> bool

  /** The persisted state the orchestrator works on: the local records, the sync queue and the
      last-sync timestamp. */
  datatype SyncState = SyncState(local: StoredList, queue: seq<SyncQueueItem>, lastSync: Option<nat>)

  /** What an operation did: the new state, the remote calls in order, and what it returned. */
  datatype Effect<R> = Effect(state: SyncState, calls: seq<RemoteCall>, result: Result<R>)

  /** The strict online test of this module: both flags exactly true. */
  function IsOnline(p: Network.ProbeState): (r: bool)
    ensures r <==> Network.IsOnline(Network.Normalize(p)) && p.isInternetReachable == Some(true)
  {
    p.isConnected == Some(true) && p.isInternetReachable == Some(true)
  }

  /** The strict test implies the network monitor's optimistic one, and unknown reachability is where
      they part: the monitor calls it online, this module offline. */
  lemma StrictImpliesOptimistic(p: Network.ProbeState)
    ensures IsOnline(p) ==> Network.IsOnline(Network.Normalize(p))
    ensures p.isConnected == Some(true) && p.isInternetReachable == None ==>
      !IsOnline(p) && Network.IsOnline(Network.Normalize(p))
  {
  }

  function TempId(now: nat): string
  {
    TempPrefix + NatToString(now)
  }

  predicate IsTemp(id: string)
  {
    StartsWith(id, TempPrefix)
  }

  lemma TempIdIsTemp(now: nat)
    ensures IsTemp(TempId(now))
  {
    StartsWithConcat(TempPrefix, NatToString(now));
  }

  // ---------------------------------------------------------------- the drain

  /** The remote call the drain makes for an item: a create with data is saved, a delete is deleted,
      and a create without data makes no call. */
  function CallFor(item: SyncQueueItem): Option<RemoteCall>
  {
    if item.action == Create && item.data.Some? then Some(SaveRemote(item.data.value))
    else if item.action == Delete then Some(DeleteRemote(item.id))
    else None
  }

  /** Whether the `k`-th item of a drain ends in the error list: its call was made and threw. */
  predicate Fails(k: nat, item: SyncQueueItem, accept: RemoteOracle)
  {
    CallFor(item).Some? && !accept(k, item)
  }

  /** The remote calls a drain over `items` makes, in queue order. */
  function DrainCalls(items: seq<SyncQueueItem>): (r: seq<RemoteCall>)
    ensures |r| <= |items|
    ensures forall c :: c in r <==> exists k :: 0 <= k < |items| && CallFor(items[k]) == Some(c)
    decreases |items|
  {
    if items == [] then []
    else
      var init := items[..|items| - 1];
      var last := items[|items| - 1];
      assert forall k :: 0 <= k < |init| ==> init[k] == items[k];
      DrainCalls(init) + match CallFor(last) case Some(c) => [c] case None => []
  }

  /** The `errors` list a drain over `items` accumulates: the ids of the failed items, in order. */
  function DrainErrors(items: seq<SyncQueueItem>, accept: RemoteOracle): (r: seq<string>)
    ensures |r| <= |items|
    ensures forall x :: x in r <==> exists k :: 0 <= k < |items| && items[k].id == x && Fails(k, items[k], accept)
    decreases |items|
  {
    if items == [] then []
    else
      var init := items[..|items| - 1];
      var last := items[|items| - 1];
      assert forall k :: 0 <= k < |init| ==> init[k] == items[k];
      DrainErrors(init, accept) + if Fails(|items| - 1, last, accept) then [last.id] else []
  }

  /** One more item of the drain: the error list and the calls grow by that item's share. */
  lemma DrainStep(items: seq<SyncQueueItem>, i: nat, accept: RemoteOracle)
    requires i < |items|
    ensures DrainErrors(items[..i + 1], accept) ==
      DrainErrors(items[..i], accept) + if Fails(i, items[i], accept) then [items[i].id] else []
    ensures DrainCalls(items[..i + 1]) ==
      DrainCalls(items[..i]) + match CallFor(items[i]) case Some(c) => [c] case None => []
  {
    var p := items[..i + 1];
    assert p[..|p| - 1] == items[..i];
    assert p[|p| - 1] == items[i];
  }

  /** `queue.filter(item => errors.includes(item.id))`. */
  function KeepFailed(q: seq<SyncQueueItem>, errors: seq<string>): seq<SyncQueueItem>
  {
    Filter(q, IdIn(errors))
  }

  function IdIn(errors: seq<string>): SyncQueueItem -> bool
  {
    (item: SyncQueueItem) => item.id in errors
  }

  /** `processSyncQueue`: a no-op without a user, offline or with an empty queue; otherwise a pass
      that clears the queue and stamps the sync time when nothing failed, and keeps the items whose
      id failed otherwise. It never touches the local records. */
  function Drain(s: SyncState, signedIn: bool, online: bool, accept: RemoteOracle, now: nat): (r: SyncState)
    ensures !signedIn || !online || s.queue == [] ==> r == s
    ensures r.local == s.local
    ensures |r.queue| <= |s.queue|
    ensures r.lastSync != s.lastSync ==> r.lastSync == Some(now) && r.queue == []
  {
    if !signedIn || !online || s.queue == [] then s
    else
      var errors := DrainErrors(s.queue, accept);
      if errors == [] then s.(queue := [], lastSync := Some(now))
      else s.(queue := KeepFailed(s.queue, errors))
  }

  /** With no failure the drain empties the queue and records the sync time. */
  lemma DrainAllAccepted(s: SyncState, accept: RemoteOracle, now: nat)
    requires s.queue != []
    requires forall k :: 0 <= k < |s.queue| ==> !Fails(k, s.queue[k], accept)
    ensures Drain(s, true, true, accept, now) == s.(queue := [], lastSync := Some(now))
  {
    NoFailuresNoErrors(s.queue, accept);
  }

  lemma {:induction false} NoFailuresNoErrors(items: seq<SyncQueueItem>, accept: RemoteOracle)
    requires forall k :: 0 <= k < |items| ==> !Fails(k, items[k], accept)
    ensures DrainErrors(items, accept) == []
    decreases |items|
  {
    if items != [] {
      NoFailuresNoErrors(items[..|items| - 1], accept);
    }
  }

  /** With distinct ids, the drain keeps exactly the items whose call failed, in their order; a create
      without data is therefore dropped as though it had succeeded. */
  lemma DrainKeepsExactlyFailed(s: SyncState, accept: RemoteOracle, now: nat)
    requires s.queue != []
    requires forall i, j :: 0 <= i < j < |s.queue| ==> s.queue[i].id != s.queue[j].id
    requires exists k :: 0 <= k < |s.queue| && Fails(k, s.queue[k], accept)
    ensures var q' := Drain(s, true, true, accept, now).queue;
      && (forall i :: 0 <= i < |s.queue| ==> (s.queue[i] in q' <==> Fails(i, s.queue[i], accept)))
      && (forall i :: 0 <= i < |q'| ==> q'[i] in s.queue)
      && (forall i :: 0 <= i < |s.queue| && s.queue[i].action == Create && s.queue[i].data.None? ==> s.queue[i] !in q')
    ensures Drain(s, true, true, accept, now).queue == FailedInOrder(s.queue, accept, 0)
    ensures Drain(s, true, true, accept, now).lastSync == s.lastSync
  {
    var k :| 0 <= k < |s.queue| && Fails(k, s.queue[k], accept);
    var errors := DrainErrors(s.queue, accept);
    assert s.queue[k].id in errors;
    ErrorsExactlyFailed(s.queue, accept);
    assert Drain(s, true, true, accept, now) == s.(queue := KeepFailed(s.queue, errors));
    KeepExactly(s.queue, errors, accept);
    DrainInOrder(s.queue, errors, accept);
  }

  /** The kept queue is the failed items, in queue order. */
  lemma DrainInOrder(q: seq<SyncQueueItem>, errors: seq<string>, accept: RemoteOracle)
    requires forall i :: 0 <= i < |q| ==> (IdIn(errors)(q[i]) <==> Fails(i, q[i], accept))
    ensures KeepFailed(q, errors) == FailedInOrder(q, accept, 0)
  {
    forall i | 0 <= i < |q|
      ensures IdIn(errors)(q[i]) <==> Fails(0 + i, q[i], accept)
    {
      assert 0 + i == i;
    }
    KeepInOrder(q, errors, accept, 0);
  }

  /** The items of `items` whose own call failed, in queue order; `base` is the drain position of
      `items[0]`. */
  function FailedInOrder(items: seq<SyncQueueItem>, accept: RemoteOracle, base: nat): seq<SyncQueueItem>
    decreases |items|
  {
    if items == [] then []
    else (if Fails(base, items[0], accept) then [items[0]] else []) + FailedInOrder(items[1..], accept, base + 1)
  }

  /** Keeping the items whose id is an error, when that is exactly the items whose call failed, keeps
      the failed items in their queue order. */
  lemma {:induction false} KeepInOrder(q: seq<SyncQueueItem>, errors: seq<string>, accept: RemoteOracle, base: nat)
    requires forall i :: 0 <= i < |q| ==> (IdIn(errors)(q[i]) <==> Fails(base + i, q[i], accept))
    ensures KeepFailed(q, errors) == FailedInOrder(q, accept, base)
    decreases |q|
  {
    if q != [] {
      var tail := q[1..];
      assert forall i :: 0 <= i < |tail| ==> tail[i] == q[i + 1] && base + 1 + i == base + (i + 1);
      KeepInOrder(tail, errors, accept, base + 1);
      FilterCons(q, IdIn(errors));
      assert IdIn(errors)(q[0]) <==> Fails(base, q[0], accept);
    }
  }

  /** Keeping the items whose id is an error, when that is exactly the items whose call failed. */
  lemma KeepExactly(q: seq<SyncQueueItem>, errors: seq<string>, accept: RemoteOracle)
    requires forall i :: 0 <= i < |q| ==> (IdIn(errors)(q[i]) <==> Fails(i, q[i], accept))
    ensures var q' := KeepFailed(q, errors);
      && (forall i :: 0 <= i < |q| ==> (q[i] in q' <==> Fails(i, q[i], accept)))
      && (forall i :: 0 <= i < |q'| ==> q'[i] in q)
      && (forall i :: 0 <= i < |q| && q[i].action == Create && q[i].data.None? ==> q[i] !in q')
  {
  }

  /** With distinct ids, an item's id is among the errors exactly when its own call failed. */
  lemma ErrorsExactlyFailed(items: seq<SyncQueueItem>, accept: RemoteOracle)
    requires forall i, j :: 0 <= i < j < |items| ==> items[i].id != items[j].id
    ensures forall i :: 0 <= i < |items| ==> (IdIn(DrainErrors(items, accept))(items[i]) <==> Fails(i, items[i], accept))
  {
    var errors := DrainErrors(items, accept);
    forall i | 0 <= i < |items|
      ensures items[i].id in errors <==> Fails(i, items[i], accept)
    {
      if items[i].id in errors {
        var j :| 0 <= j < |items| && items[j].id == items[i].id && Fails(j, items[j], accept);
        assert i == j;
      }
    }
  }

  /** There is no retry cap: when every item needs a call and every call fails, the queue is kept
      whole, however often the drain runs. */
  lemma DrainNoRetryCap(s: SyncState, accept: RemoteOracle, now: nat)
    requires forall k :: 0 <= k < |s.queue| ==> Fails(k, s.queue[k], accept)
    ensures Drain(s, true, true, accept, now) == s
  {
    if s.queue != [] {
      var errors := DrainErrors(s.queue, accept);
      assert s.queue[0].id in errors;
      FilterAllPass(s.queue, IdIn(errors));
    }
  }

  /** `getSyncStatus` over a state: the last sync time, the queue length and the strict online test. */
  function Status(s: SyncState, probe: Network.ProbeState): SyncStatus
  {
    SyncStatus(s.lastSync, |s.queue|, IsOnline(probe))
  }

  /** What the status reports after a drain: an empty queue and the new sync time when every call
      went through; the earlier status when every call failed or the drain did not run; never a
      longer queue; and online only where the network monitor also says online. */
  lemma StatusAfterDrain(s: SyncState, signedIn: bool, probe: Network.ProbeState, accept: RemoteOracle, now: nat)
    ensures var st := Status(Drain(s, signedIn, IsOnline(probe), accept, now), probe);
      && (signedIn && IsOnline(probe) && s.queue != [] && (forall k :: 0 <= k < |s.queue| ==> !Fails(k, s.queue[k], accept)) ==>
            st.queueSize == 0 && st.lastSync == Some(now))
      && ((forall k :: 0 <= k < |s.queue| ==> Fails(k, s.queue[k], accept)) ==> st == Status(s, probe))
      && (!signedIn || !IsOnline(probe) ==> st == Status(s, probe))
      && st.queueSize <= |s.queue|
      && (st.isOnline ==> Network.IsOnline(Network.Normalize(probe)))
  {
    if signedIn && IsOnline(probe) {
      if s.queue != [] && forall k :: 0 <= k < |s.queue| ==> !Fails(k, s.queue[k], accept) {
        DrainAllAccepted(s, accept, now);
      }
      if forall k :: 0 <= k < |s.queue| ==> Fails(k, s.queue[k], accept) {
        DrainNoRetryCap(s, accept, now);
      }
    }
  }

  // ---------------------------------------------------------------- the pull

  /** `syncFromFirebase`: with a user and online, the remote list replaces the local one wholesale and
      the sync time is stamped; a failed fetch changes nothing. The queue is never touched. */
  function Pull(s: SyncState, signedIn: bool, online: bool, remote: Result<seq<WasteLocation>>, now: nat): (r: SyncState)
    ensures r.queue == s.queue
    ensures signedIn && online && remote.Ok? ==> r.local == Parsed(remote.value) && r.lastSync == Some(now)
    ensures !(signedIn && online && remote.Ok?) ==> r == s
  {
    if !signedIn || !online || remote.Err? then s
    else s.(local := Parsed(remote.value), lastSync := Some(now))
  }

  /** `fullSync`: the drain strictly before the pull. When the pull goes ahead, the local list is the
      remote one whatever was there before; the queue is whatever the drain left. */
  lemma FullSyncOutcome(s: SyncState, signedIn: bool, drainOnline: bool, pullOnline: bool,
                        accept: RemoteOracle, remote: Result<seq<WasteLocation>>, now: nat)
    ensures var r := Pull(Drain(s, signedIn, drainOnline, accept, now), signedIn, pullOnline, remote, now);
      && r.queue == Drain(s, signedIn, drainOnline, accept, now).queue
      && (signedIn && pullOnline && remote.Ok? ==> r.local == Parsed(remote.value) && r.lastSync == Some(now))
      && (!(signedIn && pullOnline && remote.Ok?) ==> r.local == s.local)
  {
  }

  /** A record created offline whose create fails again during the drain leaves the local list at the
      pull when the remote list lacks it, while its create item stays queued. */
  lemma PullDropsUnsyncedRecord(s: SyncState, accept: RemoteOracle, remote: seq<WasteLocation>, now: nat, k: nat)
    requires k < |s.queue| && Fails(k, s.queue[k], accept) && s.queue[k].action == Create
    requires forall i :: 0 <= i < |remote| ==> remote[i].id != s.queue[k].id
    ensures var r := Pull(Drain(s, true, true, accept, now), true, true, Ok(remote), now);
      && (forall i :: 0 <= i < |Locations(r.local)| ==> Locations(r.local)[i].id != s.queue[k].id)
      && s.queue[k] in r.queue
  {
    var errors := DrainErrors(s.queue, accept);
    assert s.queue[k].id in errors;
  }

  // ---------------------------------------------------------------- local-first writes

  /** `existingData.map(item => item.id === tempId ? {...item, id: firebaseId} : item)`. */
  function ReplaceId(rs: seq<WasteLocation>, from: string, to: string): (r: seq<WasteLocation>)
    ensures |r| == |rs|
    ensures forall i :: 0 <= i < |rs| ==> r[i] == if rs[i].id == from then rs[i].(id := to) else rs[i]
  {
    if rs == [] then []
    else [if rs[0].id == from then rs[0].(id := to) else rs[0]] + ReplaceId(rs[1..], from, to)
  }

  const UnparseableLocal := "stored waste locations do not parse"

  /** `saveWasteLocationWithSync` with the clock at `now`, the connectivity and user checks as given,
      and `remote` the remote store's answer should it be called. */
  function SaveWithSync(s: SyncState, data: LocationInput, now: nat, isoNow: string,
                        signedIn: bool, online: bool, remote: Result<string>): Effect<string>
  {
    if s.local.Unparseable? then Effect(s, [], Err(UnparseableLocal))
    else
      var tempId := TempId(now);
      var existing := Locations(s.local) + [WasteLocation(tempId, isoNow, data)];
      var queued := s.queue + [SyncQueueItem(tempId, Create, Some(data), now)];
      if online && signedIn then
        match remote
        case Ok(firebaseId) => Effect(s.(local := Parsed(ReplaceId(existing, tempId, firebaseId))), [SaveRemote(data)], Ok(firebaseId))
        case Err(_) => Effect(s.(local := Parsed(existing), queue := queued), [SaveRemote(data)], Ok(tempId))
      else Effect(s.(local := Parsed(existing), queue := queued), [], Ok(tempId))
  }

  /** Every successful save appends one record built from the input: under the temporary id when
      queued, under the remote id when the remote write succeeded; with a fresh temporary id the
      earlier records keep their contents and order. */
  lemma SaveAppendsLocally(s: SyncState, data: LocationInput, now: nat, isoNow: string,
                           signedIn: bool, online: bool, remote: Result<string>)
    requires !s.local.Unparseable?
    requires forall i :: 0 <= i < |Locations(s.local)| ==> Locations(s.local)[i].id != TempId(now)
    ensures var e := SaveWithSync(s, data, now, isoNow, signedIn, online, remote);
      && e.result.Ok?
      && e.state.local.Parsed?
      && |e.state.local.records| == |Locations(s.local)| + 1
      && e.state.local.records[..|Locations(s.local)|] == Locations(s.local)
      && e.state.local.records[|Locations(s.local)|] == WasteLocation(e.result.value, isoNow, data)
  {
    var existing := Locations(s.local) + [WasteLocation(TempId(now), isoNow, data)];
    if online && signedIn && remote.Ok? {
      var r := ReplaceId(existing, TempId(now), remote.value);
      assert r[..|Locations(s.local)|] == Locations(s.local);
    }
  }

  /** Offline or signed out, a save makes no remote call, queues one create for the temporary id with
      the input as data, and returns the temporary id. */
  lemma SaveWhileOffline(s: SyncState, data: LocationInput, now: nat, isoNow: string,
                         signedIn: bool, online: bool, remote: Result<string>)
    requires !s.local.Unparseable? && !(online && signedIn)
    ensures var e := SaveWithSync(s, data, now, isoNow, signedIn, online, remote);
      && e.calls == []
      && e.state.queue == s.queue + [SyncQueueItem(TempId(now), Create, Some(data), now)]
      && e.result == Ok(TempId(now))
      && e.state.lastSync == s.lastSync
  {
  }

  /** Online with a user, a save calls the remote store once; on success it queues nothing and returns
      the remote id, on failure it queues the create and returns the temporary id. */
  lemma SaveWhileOnline(s: SyncState, data: LocationInput, now: nat, isoNow: string, remote: Result<string>)
    requires !s.local.Unparseable?
    ensures var e := SaveWithSync(s, data, now, isoNow, true, true, remote);
      && e.calls == [SaveRemote(data)]
      && (remote.Ok? ==> e.state.queue == s.queue && e.result == Ok(remote.value))
      && (remote.Err? ==> e.state.queue == s.queue + [SyncQueueItem(TempId(now), Create, Some(data), now)] && e.result == Ok(TempId(now)))
  {
  }

  /** When the stored list does not parse the save throws and nothing changes. */
  lemma SaveOverUnparseableThrows(s: SyncState, data: LocationInput, now: nat, isoNow: string,
                                  signedIn: bool, online: bool, remote: Result<string>)
    requires s.local.Unparseable?
    ensures var e := SaveWithSync(s, data, now, isoNow, signedIn, online, remote);
      e.result.Err? && e.state == s && e.calls == []
  {
  }

  /** `deleteWasteLocationWithSync`: remove locally, then delete remotely or queue the delete; a
      temporary id is only ever removed locally. */
  function DeleteWithSync(s: SyncState, id: string, now: nat, signedIn: bool, online: bool, remoteOk: bool): Effect<()>
  {
    if s.local.Unparseable? then Effect(s, [], Err(UnparseableLocal))
    else
      var local := Storage.AfterDelete(s.local, id);
      var queued := s.queue + [SyncQueueItem(id, Delete, None, now)];
      if online && signedIn && !IsTemp(id) then
        if remoteOk then Effect(s.(local := local), [DeleteRemote(id)], Ok(()))
        else Effect(s.(local := local, queue := queued), [DeleteRemote(id)], Ok(()))
      else if !IsTemp(id) then Effect(s.(local := local, queue := queued), [], Ok(()))
      else Effect(s.(local := local), [], Ok(()))
  }

  /** A delete always removes every local record with the id; a temporary id never reaches the remote
      store or the queue; any other id is deleted remotely, or queued exactly when that is not done. */
  lemma DeleteEffect(s: SyncState, id: string, now: nat, signedIn: bool, online: bool, remoteOk: bool)
    requires !s.local.Unparseable?
    ensures var e := DeleteWithSync(s, id, now, signedIn, online, remoteOk);
      && e.result.Ok?
      && (forall i :: 0 <= i < |Locations(e.state.local)| ==> Locations(e.state.local)[i].id != id)
      && e.state.lastSync == s.lastSync
      && (IsTemp(id) ==> e.calls == [] && e.state.queue == s.queue)
      && (!IsTemp(id) ==> e.calls == (if online && signedIn then [DeleteRemote(id)] else []))
      && (!IsTemp(id) && online && signedIn && remoteOk ==> e.state.queue == s.queue)
      && (!IsTemp(id) && !(online && signedIn && remoteOk) ==> e.state.queue == s.queue + [SyncQueueItem(id, Delete, None, now)])
  {
    Storage.DeleteEffect(s.local, id);
  }

  // ---------------------------------------------------------------- the service

  /** The sync service over the shared local record store. */
  class SyncService {
    const records: RecordStore
    var queue: seq<SyncQueueItem>
    var lastSync: Option<nat>

    constructor (records: RecordStore)
      ensures this.records == records && queue == [] && lastSync == None
    {
      this.records := records;
      queue := [];
      lastSync := None;
    }

    function State(): SyncState
      reads this, records
    {
      SyncState(records.stored, queue, lastSync)
    }

    /** `addToSyncQueue`. */
    method AddToSyncQueue(item: SyncQueueItem)
      modifies this
      ensures queue == old(queue) + [item] && lastSync == old(lastSync)
    {
      queue := queue + [item];
    }

    /** `getSyncQueue`. */
    function GetSyncQueue(): seq<SyncQueueItem>
      reads this
    {
      queue
    }

    /** `clearSyncQueue`. */
    method ClearSyncQueue()
      modifies this
      ensures queue == [] && lastSync == old(lastSync)
    {
      queue := [];
    }

    /** The loop of `processSyncQueue`: one remote call per item that needs one, in order, and the
        ids of the items whose call threw. */
    static method AttemptAll(snapshot: seq<SyncQueueItem>, accept: RemoteOracle)
      returns (calls: seq<RemoteCall>, errors: seq<string>)
      ensures calls == DrainCalls(snapshot)
      ensures errors == DrainErrors(snapshot, accept)
    {
      calls, errors := [], [];
      for i := 0 to |snapshot|
        invariant errors == DrainErrors(snapshot[..i], accept)
        invariant calls == DrainCalls(snapshot[..i])
      {
        DrainStep(snapshot, i, accept);
        var item := snapshot[i];
        if item.action == Create && item.data.Some? {
          calls := calls + [SaveRemote(item.data.value)];
          if !accept(i, item) {
            errors := errors + [item.id];
          }
        } else if item.action == Delete {
          calls := calls + [DeleteRemote(item.id)];
          if !accept(i, item) {
            errors := errors + [item.id];
          }
        }
      }
      assert snapshot[..|snapshot|] == snapshot;
    }

    /** `processSyncQueue`: the remote store's verdicts come from `accept`; returns its calls. */
    method ProcessSyncQueue(signedIn: bool, probe: Network.ProbeState, accept: RemoteOracle, now: nat)
      returns (calls: seq<RemoteCall>)
      modifies this
      ensures State() == Drain(old(State()), signedIn, IsOnline(probe), accept, now)
      ensures calls == if signedIn && IsOnline(probe) then DrainCalls(old(queue)) else []
    {
      calls := [];
      if !signedIn {
        return;
      }
      var online := IsOnline(probe);
      if !online {
        return;
      }
      var snapshot := queue;
      if |snapshot| == 0 {
        return;
      }
      var errors;
      calls, errors := AttemptAll(snapshot, accept);
      if |errors| == 0 {
        ClearSyncQueue();
        lastSync := Some(now);
      } else {
        queue := KeepFailed(snapshot, errors);
      }
    }

    /** `saveWasteLocationWithSync`. */
    method SaveWasteLocationWithSync(data: LocationInput, now: nat, isoNow: string,
                                     signedIn: bool, probe: Network.ProbeState, remote: Result<string>)
      returns (r: Result<string>, calls: seq<RemoteCall>)
      modifies this, records
      ensures Effect(State(), calls, r) == SaveWithSync(old(State()), data, now, isoNow, signedIn, IsOnline(probe), remote)
    {
      calls := [];
      var tempId := TempId(now);
      var newLocation := WasteLocation(tempId, isoNow, data);
      if records.stored.Unparseable? {
        return Err(UnparseableLocal), [];
      }
      var existingData := Locations(records.stored) + [newLocation];
      records.stored := Parsed(existingData);
      var online := IsOnline(probe);
      if online && signedIn {
        calls := [SaveRemote(data)];
        if remote.Ok? {
          var firebaseId := remote.value;
          records.stored := Parsed(ReplaceId(existingData, tempId, firebaseId));
          return Ok(firebaseId), calls;
        }
        AddToSyncQueue(SyncQueueItem(tempId, Create, Some(data), now));
      } else {
        AddToSyncQueue(SyncQueueItem(tempId, Create, Some(data), now));
      }
      r := Ok(tempId);
    }

    /** `deleteWasteLocationWithSync`; `remoteOk` is whether the remote delete would succeed. */
    method DeleteWasteLocationWithSync(id: string, now: nat, signedIn: bool, probe: Network.ProbeState, remoteOk: bool)
      returns (r: Result<()>, calls: seq<RemoteCall>)
      modifies this, records
      ensures Effect(State(), calls, r) == DeleteWithSync(old(State()), id, now, signedIn, IsOnline(probe), remoteOk)
    {
      calls := [];
      if records.stored.Unparseable? {
        return Err(UnparseableLocal), [];
      }
      var existingData := Locations(records.stored);
      records.stored := Parsed(WithoutId(existingData, id));
      var online := IsOnline(probe);
      if online && signedIn && !IsTemp(id) {
        calls := [DeleteRemote(id)];
        if !remoteOk {
          AddToSyncQueue(SyncQueueItem(id, Delete, None, now));
        }
      } else if !IsTemp(id) {
        AddToSyncQueue(SyncQueueItem(id, Delete, None, now));
      }
      r := Ok(());
    }

    /** `syncFromFirebase`; `remote` is the fetch of the user's records. */
    method SyncFromFirebase(signedIn: bool, probe: Network.ProbeState, remote: Result<seq<WasteLocation>>, now: nat)
      modifies this, records
      ensures State() == Pull(old(State()), signedIn, IsOnline(probe), remote, now)
    {
      if !signedIn {
        return;
      }
      var online := IsOnline(probe);
      if !online || remote.Err? {
        return;
      }
      records.stored := Parsed(remote.value);
      lastSync := Some(now);
    }

    /** `fullSync`: drain, then pull, each with its own connectivity probe. */
    method FullSync(signedIn: bool, drainProbe: Network.ProbeState, pullProbe: Network.ProbeState,
                    accept: RemoteOracle, remote: Result<seq<WasteLocation>>, now: nat)
      returns (calls: seq<RemoteCall>)
      modifies this, records
      ensures State() == Pull(Drain(old(State()), signedIn, IsOnline(drainProbe), accept, now),
                              signedIn, IsOnline(pullProbe), remote, now)
      ensures calls == if signedIn && IsOnline(drainProbe) then DrainCalls(old(queue)) else []
    {
      calls := ProcessSyncQueue(signedIn, drainProbe, accept, now);
      SyncFromFirebase(signedIn, pullProbe, remote, now);
    }

    /** `getSyncStatus`. */
    function GetSyncStatus(probe: Network.ProbeState): (st: SyncStatus)
      reads this
      ensures st == Status(State(), probe)
    {
      SyncStatus(lastSync, |queue|, IsOnline(probe))
    }
  }
}
