/** The network status monitor: a cached connectivity status, the optimistic online test,
    and a process-wide list of status listeners. */
module Network {
  import opened Wrappers

  /** What the platform's network probe reports; every field may be absent. */
  datatype ProbeState = ProbeState(isConnected: Option<bool>, isInternetReachable: Option<bool>, kind: Option<string>)

  /** The monitor's own status record. `kind` is the probe's type string ("wifi", "cellular", "none",
      "unknown", or whatever else the probe reports), defaulting to "unknown". */
  datatype NetworkStatus = NetworkStatus(isConnected: bool, isInternetReachable: Option<bool>, kind: string)

  /** A registered callback, identified by reference identity. */
  type Listener = nat

  /** One invocation of a listener with a status. */
  datatype Notification = Notification(listener: Listener, status: NetworkStatus)

  /** The status cached before any probe or event. */
  const InitialStatus := NetworkStatus(false, None, "unknown")

  /** The status built from a probe: `isConnected ?? false` and `type || 'unknown'`. */
  function Normalize(state: ProbeState): (s: NetworkStatus)
  {
    NetworkStatus(
      state.isConnected == Some(true),
      state.isInternetReachable,
      if state.kind == None || state.kind == Some("") then "unknown" else state.kind.value)
  }

  /** An absent connectivity flag reads as disconnected, an absent type as "unknown", reachability is
      kept as reported, and a present non-empty type is kept verbatim. */
  lemma NormalizeDefaults(state: ProbeState)
    ensures Normalize(state).isConnected <==> state.isConnected == Some(true)
    ensures state.isConnected == None ==> !Normalize(state).isConnected
    ensures Normalize(state).isInternetReachable == state.isInternetReachable
    ensures state.kind == None ==> Normalize(state).kind == "unknown"
    ensures state.kind.Some? && state.kind.value != "" ==> Normalize(state).kind == state.kind.value
    ensures Normalize(state).kind != ""
  {
  }

  /** The probe view of a status. */
  function AsProbe(s: NetworkStatus): ProbeState
  {
    ProbeState(Some(s.isConnected), s.isInternetReachable, Some(s.kind))
  }

  /** Normalization is a projection: re-normalizing a normalized status changes nothing. */
  lemma NormalizeIdempotent(state: ProbeState)
    ensures Normalize(AsProbe(Normalize(state))) == Normalize(state)
  {
  }

  /** The optimistic online test: connected, and reachability not known to be false. */
  predicate IsOnline(s: NetworkStatus)
  {
    s.isConnected && s.isInternetReachable != Some(false)
  }

  /** Unknown reachability counts as online when connected; a disconnected status is never online. */
  lemma UnknownReachabilityIsOnline(s: NetworkStatus)
    ensures s.isInternetReachable == None ==> (IsOnline(s) <==> s.isConnected)
    ensures !s.isConnected ==> !IsOnline(s)
    ensures s.isInternetReachable == Some(false) ==> !IsOnline(s)
  {
  }

  /** The initial status is offline. */
  lemma InitiallyOffline()
    ensures !IsOnline(InitialStatus)
  {
  }

  /** The position of the first occurrence of `x` in `s`, or -1: `Array.prototype.indexOf`. */
  function IndexOf(s: seq<Listener>, x: Listener): (r: int)
    ensures -1 <= r < |s|
    ensures r == -1 <==> x !in s
    ensures r >= 0 ==> s[r] == x && x !in s[..r]
  {
    if s == [] then -1
    else if s[0] == x then 0
    else var k := IndexOf(s[1..], x); if k == -1 then -1 else k + 1
  }

  /** The reference meaning of the disposer: drop the first occurrence of `x`, keep the rest in order. */
  function RemoveFirst(s: seq<Listener>, x: Listener): seq<Listener>
  {
    if s == [] then [] else if s[0] == x then s[1..] else [s[0]] + RemoveFirst(s[1..], x)
  }

  /** `indexOf` followed by `splice(index, 1)` removes exactly the first occurrence. */
  lemma {:induction false} SpliceAtIndexOf(s: seq<Listener>, x: Listener)
    requires x in s
    ensures RemoveFirst(s, x) == s[..IndexOf(s, x)] + s[IndexOf(s, x) + 1..]
  {
    if s[0] != x {
      SpliceAtIndexOf(s[1..], x);
      var k := IndexOf(s[1..], x);
      assert s[..k + 1] == [s[0]] + s[1..][..k];
      assert s[k + 2..] == s[1..][k + 1..];
    }
  }

  /** Removing the first occurrence takes one copy of `x` away and nothing else; if `x` is not
      registered (for example after its last copy was disposed) the list is unchanged. */
  lemma {:induction false} RemoveFirstEffect(s: seq<Listener>, x: Listener)
    ensures x in s ==> multiset(RemoveFirst(s, x)) == multiset(s) - multiset{x} && |RemoveFirst(s, x)| == |s| - 1
    ensures x !in s ==> RemoveFirst(s, x) == s
  {
    if s != [] {
      RemoveFirstEffect(s[1..], x);
      assert s == [s[0]] + s[1..];
      assert multiset(s) == multiset{s[0]} + multiset(s[1..]);
      if s[0] != x {
        var r := RemoveFirst(s[1..], x);
        assert RemoveFirst(s, x) == [s[0]] + r;
        assert multiset(RemoveFirst(s, x)) == multiset{s[0]} + multiset(r);
        if x in s[1..] {
          assert multiset(r) == multiset(s[1..]) - multiset{x};
          assert x in multiset(s[1..]);
        }
      }
    }
  }

  /** Disposing `x` leaves every other listener registered as often as before. */
  lemma {:induction false} RemoveFirstKeepsOthers(s: seq<Listener>, x: Listener, y: Listener)
    requires y != x
    ensures multiset(RemoveFirst(s, x))[y] == multiset(s)[y]
  {
    if s != [] {
      RemoveFirstKeepsOthers(s[1..], x, y);
      assert s == [s[0]] + s[1..];
      if s[0] != x {
        assert RemoveFirst(s, x) == [s[0]] + RemoveFirst(s[1..], x);
      }
    }
  }

  /** The fan-out a status event performs: every listener once, in registration order. */
  function FanOut(listeners: seq<Listener>, s: NetworkStatus): (r: seq<Notification>)
    ensures |r| == |listeners|
    ensures forall i :: 0 <= i < |r| ==> r[i] == Notification(listeners[i], s)
  {
    if listeners == [] then [] else [Notification(listeners[0], s)] + FanOut(listeners[1..], s)
  }

  /** The module-level state of the network service: the cached status and the listener list. */
  class NetworkMonitor {
    var current: NetworkStatus
    var listeners: seq<Listener>

    constructor ()
      ensures current == InitialStatus && listeners == []
    {
      current := InitialStatus;
      listeners := [];
    }

    /** A status event from the platform: cache the normalized status, then notify every listener. */
    method OnStatusEvent(state: ProbeState) returns (notified: seq<Notification>)
      modifies this`current
      ensures current == Normalize(state) && listeners == old(listeners)
      ensures notified == FanOut(listeners, current)
    {
      var status := Normalize(state);
      current := status;
      var registered := listeners;
      notified := [];
      for i := 0 to |registered|
        invariant current == status
        invariant notified == FanOut(registered[..i], status)
      {
        assert registered[..i + 1] == registered[..i] + [registered[i]];
        FanOutAppend(registered[..i], registered[i], status);
        notified := notified + [Notification(registered[i], status)];
      }
      assert registered[..|registered|] == registered;
    }

    /** `getNetworkStatus`: probe, normalize, cache and return the status. */
    method GetNetworkStatus(state: ProbeState) returns (s: NetworkStatus)
      modifies this`current
      ensures s == Normalize(state) && current == s
    {
      s := Normalize(state);
      current := s;
    }

    /** `isOnline`: a fresh probe judged by the optimistic test. */
    method IsOnlineNow(state: ProbeState) returns (online: bool)
      modifies this`current
      ensures current == Normalize(state)
      ensures online <==> current.isConnected && current.isInternetReachable != Some(false)
    {
      var s := GetNetworkStatus(state);
      online := IsOnline(s);
    }

    /** `addNetworkListener`: append the callback; its disposer is DisposeListener. */
    method AddNetworkListener(callback: Listener)
      modifies this`listeners
      ensures listeners == old(listeners) + [callback]
    {
      listeners := listeners + [callback];
    }

    /** The disposer returned by `addNetworkListener`: remove one occurrence of the callback. */
    method DisposeListener(callback: Listener)
      modifies this`listeners
      ensures listeners == RemoveFirst(old(listeners), callback)
    {
      var index := IndexOf(listeners, callback);
      if index > -1 {
        SpliceAtIndexOf(listeners, callback);
        listeners := listeners[..index] + listeners[index + 1..];
      } else {
        RemoveFirstEffect(listeners, callback);
      }
    }

    /** `getCurrentNetworkStatus`: the cached status, without probing. */
    function GetCurrentNetworkStatus(): NetworkStatus
      reads this
    {
      current
    }

    /** `isWiFiConnection`: the cached type is "wifi"; never together with a cellular connection. */
    predicate IsWiFiConnection()
      reads this
      ensures IsWiFiConnection() ==> !IsCellularConnection()
    {
      current.kind == "wifi"
    }

    /** `isCellularConnection`: the cached type is "cellular"; never together with a Wi-Fi connection. */
    predicate IsCellularConnection()
      reads this
      ensures IsCellularConnection() ==> current.kind != "wifi"
    {
      current.kind == "cellular"
    }
  }

  /** Appending a listener appends its notification. */
  lemma {:induction false} FanOutAppend(ls: seq<Listener>, l: Listener, s: NetworkStatus)
    ensures FanOut(ls + [l], s) == FanOut(ls, s) + [Notification(l, s)]
  {
    if ls != [] {
      assert (ls + [l])[1..] == ls[1..] + [l];
      FanOutAppend(ls[1..], l, s);
    }
  }

  /** A client's view: a listener registered twice and disposed twice is gone, the others stay in
      order, a third dispose of the now absent listener changes nothing, and the next event reaches
      exactly the others. */
  method ListenerLifecycle(a: Listener, b: Listener, state: ProbeState) returns (notified: seq<Notification>)
    requires a != b
    ensures notified == [Notification(b, Normalize(state))]
  {
    var monitor := new NetworkMonitor();
    InitiallyOffline();
    monitor.AddNetworkListener(a);
    monitor.AddNetworkListener(b);
    monitor.AddNetworkListener(a);
    monitor.DisposeListener(a);
    monitor.DisposeListener(a);
    assert monitor.listeners == [b];
    monitor.DisposeListener(a);
    notified := monitor.OnStatusEvent(state);
  }
}
