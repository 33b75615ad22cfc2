/**
 * The `window.EventSource` proxy of the injected page script. Each instance
 * announces itself, keeps one untracked spy on the default `message` channel,
 * and replaces `addEventListener`/`removeEventListener` so that every page
 * listener is registered through a forwarding adapter: the adapter posts a
 * capture for a named channel and then calls the listener. A map from
 * listener to channel to adapter makes repeated registration reuse the same
 * adapter and lets removal detach exactly the adapter that was attached.
 *
 * The native listener list of the instance is modelled as the sequence of
 * registrations it holds (the native `addEventListener` ignores a registration
 * it already has, the native `removeEventListener` drops it), and the native
 * calls the proxy makes are logged in order.
 */
module EventSourceProxy {
  import opened Wrappers
  import opened Captures

  /** The default channel, covered by the spy. */
  const MessageChannel := "message"

  /** A page listener (a function or an object with `handleEvent`), compared by identity. */
  class Listener { }

  /** The forwarding wrapper made for one (listener, channel) pair. */
  class Adapter {
    const listener: Listener
    const channel: string

    constructor (listener: Listener, channel: string)
      ensures this.listener == listener && this.channel == channel
    {
      this.listener := listener;
      this.channel := channel;
    }
  }

  /** What the native instance calls when an event arrives on a channel. */
  datatype Handler = Spy | Wrapped(adapter: Adapter) | PageListener(listener: Listener)

  /** One entry of the native listener list. */
  datatype Registration = Registration(channel: string, handler: Handler)

  /** A call the proxy makes to the native `addEventListener`/`removeEventListener`. */
  datatype NativeCall = NativeAdd(added: Registration) | NativeRemove(removed: Registration)

  /** `listenerMap`: listener to channel to the adapter registered for that pair. */
  type ListenerMap = map<Listener, map<string, Adapter>>

  // ---------------------------------------------------------------------------
  // The listener map
  // ---------------------------------------------------------------------------

  /** `listenerMap.get(listener)?.get(type)`. */
  function Lookup(m: ListenerMap, l: Listener, t: string): Option<Adapter> {
    if l in m && t in m[l] then Some(m[l][t]) else None
  }

  /** Store `a` for the pair, creating the listener's inner map when it has none. */
  function Track(m: ListenerMap, l: Listener, t: string, a: Adapter): ListenerMap {
    var inner: map<string, Adapter> := if l in m then m[l] else map[];
    m[l := inner[t := a]]
  }

  /** Delete the pair, and the listener's inner map once it is empty. */
  function Untrack(m: ListenerMap, l: Listener, t: string): ListenerMap {
    if l in m then
      var inner := m[l] - {t};
      if |inner| == 0 then m - {l} else m[l := inner]
    else m
  }

  /** Storing an adapter makes it the one found for its pair and changes no other pair. */
  lemma TrackLookup(m: ListenerMap, l: Listener, t: string, a: Adapter)
    ensures forall l2, t2 ::
      Lookup(Track(m, l, t, a), l2, t2) == (if l2 == l && t2 == t then Some(a) else Lookup(m, l2, t2))
  {
  }

  /** Deleting a pair makes it untracked and changes no other pair. */
  lemma UntrackLookup(m: ListenerMap, l: Listener, t: string)
    ensures forall l2, t2 ::
      Lookup(Untrack(m, l, t), l2, t2) == (if l2 == l && t2 == t then None else Lookup(m, l2, t2))
  {
    if l in m {
      var inner := m[l] - {t};
      if |inner| == 0 {
        forall t2 | t2 in m[l]
          ensures t2 == t
        {
          assert t2 == t || t2 in inner;
        }
      }
    }
  }

  lemma TrackFinds(m: ListenerMap, l: Listener, t: string, a: Adapter)
    ensures Lookup(Track(m, l, t, a), l, t) == Some(a)
  {
  }

  /** Storing the adapter a pair already has changes nothing. */
  lemma TrackSame(m: ListenerMap, l: Listener, t: string)
    requires Lookup(m, l, t).Some?
    ensures Track(m, l, t, Lookup(m, l, t).value) == m
  {
    assert m[l][t := m[l][t]] == m[l];
  }

  lemma UntrackForgets(m: ListenerMap, l: Listener, t: string)
    ensures Lookup(Untrack(m, l, t), l, t).None?
  {
  }

  /** No listener is kept with an empty inner map. */
  ghost predicate NoEmptyTypeMaps(m: ListenerMap) {
    forall l :: l in m ==> |m[l]| > 0
  }

  /** Every stored adapter belongs to the pair it is stored under. */
  ghost predicate AdaptersMatch(m: ListenerMap) {
    forall l, t :: l in m && t in m[l] ==> m[l][t].listener == l && m[l][t].channel == t
  }

  lemma TrackKeepsMap(m: ListenerMap, l: Listener, t: string, a: Adapter)
    requires NoEmptyTypeMaps(m) && AdaptersMatch(m)
    requires a.listener == l && a.channel == t
    ensures NoEmptyTypeMaps(Track(m, l, t, a)) && AdaptersMatch(Track(m, l, t, a))
  {
    TrackLookup(m, l, t, a);
    var r := Track(m, l, t, a);
    assert t in r[l].Keys;
  }

  lemma UntrackKeepsMap(m: ListenerMap, l: Listener, t: string)
    requires NoEmptyTypeMaps(m) && AdaptersMatch(m)
    ensures NoEmptyTypeMaps(Untrack(m, l, t)) && AdaptersMatch(Untrack(m, l, t))
  {
    UntrackLookup(m, l, t);
  }

  /**
   * Adding an untracked pair and then removing it gives the map back exactly:
   * the inner map created for a new listener is dropped again.
   */
  lemma TrackThenUntrack(m: ListenerMap, l: Listener, t: string, a: Adapter)
    requires NoEmptyTypeMaps(m) && Lookup(m, l, t).None?
    ensures Untrack(Track(m, l, t, a), l, t) == m
  {
    var r := Track(m, l, t, a);
    if l in m {
      assert r[l] - {t} == m[l];
      assert m[l := m[l]] == m;
    } else {
      assert r[l] - {t} == map[];
      assert r - {l} == m;
    }
  }

  // ---------------------------------------------------------------------------
  // The native listener list
  // ---------------------------------------------------------------------------

  /** The native `addEventListener`: a registration it already holds is not added twice. */
  function AddNative(regs: seq<Registration>, r: Registration): seq<Registration> {
    if r in regs then regs else regs + [r]
  }

  /** The native `removeEventListener`: the registration is dropped, the rest keep their order. */
  function RemoveNative(regs: seq<Registration>, r: Registration): seq<Registration>
    decreases |regs|
  {
    if regs == [] then []
    else (if regs[0] == r then [] else [regs[0]]) + RemoveNative(regs[1..], r)
  }

  /** No registration is held twice. */
  ghost predicate Distinct(regs: seq<Registration>) {
    forall i, j :: 0 <= i < j < |regs| ==> regs[i] != regs[j]
  }

  lemma AddNativeHolds(regs: seq<Registration>, r: Registration)
    ensures forall x :: x in AddNative(regs, r) <==> x in regs || x == r
    ensures Distinct(regs) ==> Distinct(AddNative(regs, r))
  {
  }

  lemma {:induction false} RemoveNativeHolds(regs: seq<Registration>, r: Registration)
    ensures forall x :: x in RemoveNative(regs, r) <==> x in regs && x != r
    ensures Distinct(regs) ==> Distinct(RemoveNative(regs, r))
    decreases |regs|
  {
    if regs != [] {
      RemoveNativeHolds(regs[1..], r);
      var rest := RemoveNative(regs[1..], r);
      assert forall x :: x in regs <==> x == regs[0] || x in regs[1..];
      if Distinct(regs) {
        assert Distinct(regs[1..]) by {
          forall i, j | 0 <= i < j < |regs[1..]|
            ensures regs[1..][i] != regs[1..][j]
          {
            assert regs[1..][i] == regs[i + 1] && regs[1..][j] == regs[j + 1];
          }
        }
        if regs[0] != r {
          assert regs[0] !in regs[1..] by {
            forall k | 0 <= k < |regs[1..]|
              ensures regs[1..][k] != regs[0]
            {
              assert regs[1..][k] == regs[k + 1];
            }
          }
          DistinctCons(regs[0], rest);
        }
      }
    }
  }

  lemma DistinctCons(x: Registration, rest: seq<Registration>)
    requires Distinct(rest) && x !in rest
    ensures Distinct([x] + rest)
  {
    var s := [x] + rest;
    forall i, j | 0 <= i < j < |s|
      ensures s[i] != s[j]
    {
      assert s[j] == rest[j - 1];
      if i > 0 {
        assert s[i] == rest[i - 1];
      }
    }
  }

  /** Removing a registration the list does not hold leaves it as it is. */
  lemma {:induction false} RemoveAbsent(regs: seq<Registration>, r: Registration)
    requires r !in regs
    ensures RemoveNative(regs, r) == regs
    decreases |regs|
  {
    if regs != [] {
      assert r !in regs[1..];
      RemoveAbsent(regs[1..], r);
      assert [regs[0]] + regs[1..] == regs;
    }
  }

  lemma {:induction false} RemoveAppend(a: seq<Registration>, b: seq<Registration>, r: Registration)
    ensures RemoveNative(a + b, r) == RemoveNative(a, r) + RemoveNative(b, r)
    decreases |a|
  {
    if a == [] {
      assert a + b == b;
    } else {
      assert (a + b)[1..] == a[1..] + b;
      RemoveAppend(a[1..], b, r);
    }
  }

  /** Adding a new registration and removing it again gives the list back. */
  lemma AddThenRemoveNative(regs: seq<Registration>, r: Registration)
    requires r !in regs
    ensures RemoveNative(AddNative(regs, r), r) == regs
  {
    RemoveAppend(regs, [r], r);
    RemoveAbsent(regs, r);
    assert RemoveNative([r], r) == [] + RemoveNative([], r);
  }

  // ---------------------------------------------------------------------------
  // What the map and the native list keep in step
  // ---------------------------------------------------------------------------

  /** A native registration the proxy may hold: the spy on `message`, or a tracked adapter. */
  ghost predicate RegistrationTracked(m: ListenerMap, r: Registration) {
    match r.handler
    case Spy => r.channel == MessageChannel
    case Wrapped(a) => Lookup(m, a.listener, r.channel) == Some(a)
    case PageListener(_) => false
  }

  /**
   * The spy is registered; every tracked adapter is registered on its channel;
   * everything registered is the spy or a tracked adapter (a page listener is
   * never registered directly); nothing is registered twice.
   */
  ghost predicate Inv(m: ListenerMap, regs: seq<Registration>) {
    && NoEmptyTypeMaps(m)
    && AdaptersMatch(m)
    && Registration(MessageChannel, Spy) in regs
    && TrackedAreRegistered(m, regs)
    && RegisteredAreTracked(m, regs)
    && Distinct(regs)
  }

  /** Every tracked adapter is natively registered on its channel. */
  ghost predicate TrackedAreRegistered(m: ListenerMap, regs: seq<Registration>) {
    forall l, t :: l in m && t in m[l] ==> Registration(t, Wrapped(m[l][t])) in regs
  }

  /** Every native registration is the spy or a tracked adapter. */
  ghost predicate RegisteredAreTracked(m: ListenerMap, regs: seq<Registration>) {
    forall r :: r in regs ==> RegistrationTracked(m, r)
  }

  /** A new pair gets a new adapter, stored and natively registered. */
  lemma AddKeepsInv(m: ListenerMap, regs: seq<Registration>, l: Listener, t: string, a: Adapter)
    requires Inv(m, regs) && Lookup(m, l, t).None?
    requires a.listener == l && a.channel == t
    ensures Inv(Track(m, l, t, a), AddNative(regs, Registration(t, Wrapped(a))))
  {
    var r := Registration(t, Wrapped(a));
    TrackKeepsMap(m, l, t, a);
    AddNativeHolds(regs, r);
    AddKeepsTracked(m, regs, l, t, a);
    AddKeepsRegistered(m, regs, l, t, a);
  }

  lemma AddKeepsTracked(m: ListenerMap, regs: seq<Registration>, l: Listener, t: string, a: Adapter)
    requires RegisteredAreTracked(m, regs) && Lookup(m, l, t).None?
    requires a.listener == l && a.channel == t
    ensures RegisteredAreTracked(Track(m, l, t, a), AddNative(regs, Registration(t, Wrapped(a))))
  {
    var r := Registration(t, Wrapped(a));
    var m2, regs2 := Track(m, l, t, a), AddNative(regs, r);
    TrackLookup(m, l, t, a);
    AddNativeHolds(regs, r);
    forall x | x in regs2
      ensures RegistrationTracked(m2, x)
    {
      if x != r {
        assert RegistrationTracked(m, x);
      }
    }
  }

  lemma AddKeepsRegistered(m: ListenerMap, regs: seq<Registration>, l: Listener, t: string, a: Adapter)
    requires TrackedAreRegistered(m, regs)
    ensures TrackedAreRegistered(Track(m, l, t, a), AddNative(regs, Registration(t, Wrapped(a))))
  {
    var r := Registration(t, Wrapped(a));
    var m2, regs2 := Track(m, l, t, a), AddNative(regs, r);
    TrackLookup(m, l, t, a);
    AddNativeHolds(regs, r);
    forall l2, t2 | l2 in m2 && t2 in m2[l2]
      ensures Registration(t2, Wrapped(m2[l2][t2])) in regs2
    {
      assert Lookup(m2, l2, t2) == Some(m2[l2][t2]);
    }
  }

  /** Removing a tracked pair unregisters its adapter and forgets it. */
  lemma RemoveKeepsInv(m: ListenerMap, regs: seq<Registration>, l: Listener, t: string)
    requires Inv(m, regs) && Lookup(m, l, t).Some?
    ensures Inv(Untrack(m, l, t), RemoveNative(regs, Registration(t, Wrapped(Lookup(m, l, t).value))))
  {
    var a := Lookup(m, l, t).value;
    var r := Registration(t, Wrapped(a));
    var m2, regs2 := Untrack(m, l, t), RemoveNative(regs, r);
    UntrackLookup(m, l, t);
    UntrackKeepsMap(m, l, t);
    RemoveNativeHolds(regs, r);
    forall x | x in regs2
      ensures RegistrationTracked(m2, x)
    {
      assert RegistrationTracked(m, x);
    }
    forall l2, t2 | l2 in m2 && t2 in m2[l2]
      ensures Registration(t2, Wrapped(m2[l2][t2])) in regs2
    {
      assert Lookup(m2, l2, t2) == Some(m2[l2][t2]);
      assert Lookup(m, l2, t2) == Some(m2[l2][t2]);
    }
  }

  /** Both paths of `addEventListener` keep the invariant and leave `a` registered for the pair. */
  lemma AddStep(m: ListenerMap, regs: seq<Registration>, l: Listener, t: string, a: Adapter)
    requires Inv(m, regs)
    requires Lookup(m, l, t) == Some(a) || (Lookup(m, l, t).None? && a.listener == l && a.channel == t)
    ensures Inv(Track(m, l, t, a), AddNative(regs, Registration(t, Wrapped(a))))
    ensures Lookup(Track(m, l, t, a), l, t) == Some(a)
    ensures Lookup(m, l, t) == Some(a) ==> Track(m, l, t, a) == m && AddNative(regs, Registration(t, Wrapped(a))) == regs
  {
    TrackFinds(m, l, t, a);
    if Lookup(m, l, t) == Some(a) {
      RepeatAddChangesNothing(m, regs, l, t);
      TrackSame(m, l, t);
    } else {
      AddKeepsInv(m, regs, l, t, a);
    }
  }

  /**
   * What the replaced `removeEventListener` hands to the native one: the
   * tracked adapter, or the listener itself when the pair is untracked.
   */
  function RemovalTarget(m: ListenerMap, l: Listener, t: string): Registration {
    match Lookup(m, l, t)
    case Some(a) => Registration(t, Wrapped(a))
    case None => Registration(t, PageListener(l))
  }

  /** Both paths of `removeEventListener` keep the invariant and leave the pair untracked. */
  lemma RemoveStep(m: ListenerMap, regs: seq<Registration>, l: Listener, t: string)
    requires Inv(m, regs)
    ensures Inv(Untrack(m, l, t), RemoveNative(regs, RemovalTarget(m, l, t)))
    ensures Lookup(Untrack(m, l, t), l, t).None?
    ensures Lookup(m, l, t).None? ==> Untrack(m, l, t) == m && RemoveNative(regs, RemovalTarget(m, l, t)) == regs
  {
    UntrackForgets(m, l, t);
    if Lookup(m, l, t).Some? {
      RemoveKeepsInv(m, regs, l, t);
    } else {
      UntrackedRemoveChangesNothing(m, regs, l, t);
      UntrackAbsent(m, l, t);
    }
  }

  /** Deleting a pair that is not tracked leaves the map as it is. */
  lemma UntrackAbsent(m: ListenerMap, l: Listener, t: string)
    requires NoEmptyTypeMaps(m) && Lookup(m, l, t).None?
    ensures Untrack(m, l, t) == m
  {
    if l in m {
      assert m[l] - {t} == m[l];
      assert m[l := m[l]] == m;
    }
  }

  /** Re-adding a tracked pair hands the native list the adapter it already holds. */
  lemma RepeatAddChangesNothing(m: ListenerMap, regs: seq<Registration>, l: Listener, t: string)
    requires Inv(m, regs) && Lookup(m, l, t).Some?
    ensures AddNative(regs, Registration(t, Wrapped(Lookup(m, l, t).value))) == regs
  {
  }

  /** Removing an untracked listener passes it through, and the native list holds no such entry. */
  lemma UntrackedRemoveChangesNothing(m: ListenerMap, regs: seq<Registration>, l: Listener, t: string)
    requires Inv(m, regs)
    ensures RemoveNative(regs, Registration(t, PageListener(l))) == regs
  {
    var r := Registration(t, PageListener(l));
    assert !RegistrationTracked(m, r);
    RemoveAbsent(regs, r);
  }

  /** At most one adapter per (listener, channel) pair is ever registered. */
  lemma OneAdapterPerPair(m: ListenerMap, regs: seq<Registration>, a: Adapter, b: Adapter, t: string)
    requires Inv(m, regs)
    requires Registration(t, Wrapped(a)) in regs && Registration(t, Wrapped(b)) in regs
    requires a.listener == b.listener
    ensures a == b
  {
    assert RegistrationTracked(m, Registration(t, Wrapped(a)));
    assert RegistrationTracked(m, Registration(t, Wrapped(b)));
  }

  // ---------------------------------------------------------------------------
  // Event delivery
  // ---------------------------------------------------------------------------

  /** What one event posts and which page listeners it reaches, in order. */
  datatype Delivery = Delivery(captures: seq<Capture>, delivered: seq<Listener>)

  /** Two deliveries one after the other. */
  function Then(d1: Delivery, d2: Delivery): Delivery {
    Delivery(d1.captures + d2.captures, d1.delivered + d2.delivered)
  }

  lemma ThenAssociative(d1: Delivery, d2: Delivery, d3: Delivery)
    ensures Then(d1, Then(d2, d3)) == Then(Then(d1, d2), d3)
  {
  }

  /**
   * One registration fires: the spy posts the event as `message`; an adapter
   * posts it under its own channel unless that is `message`, then calls its listener.
   */
  function Fire(id: string, r: Registration, payload: string, now: int): Delivery {
    match r.handler
    case Spy => Delivery([EsMessage(id, MessageChannel, payload, now)], [])
    case Wrapped(a) =>
      Delivery(if a.channel != MessageChannel then [EsMessage(id, a.channel, payload, now)] else [], [a.listener])
    case PageListener(l) => Delivery([], [l])
  }

  /** What one registration does with an event on `channel`: nothing unless it is registered there. */
  function FireOn(id: string, r: Registration, channel: string, payload: string, now: int): Delivery {
    if r.channel == channel then Fire(id, r, payload, now) else Delivery([], [])
  }

  /** The native dispatch of one event: every registration on its channel fires, in list order. */
  function Dispatch(id: string, regs: seq<Registration>, channel: string, payload: string, now: int): Delivery
    decreases |regs|
  {
    if regs == [] then Delivery([], [])
    else Then(FireOn(id, regs[0], channel, payload, now), Dispatch(id, regs[1..], channel, payload, now))
  }

  lemma {:induction false} DispatchAppend(id: string, a: seq<Registration>, b: seq<Registration>, channel: string, payload: string, now: int)
    ensures Dispatch(id, a + b, channel, payload, now) ==
      Then(Dispatch(id, a, channel, payload, now), Dispatch(id, b, channel, payload, now))
    decreases |a|
  {
    if a == [] {
      assert a + b == b;
    } else {
      assert (a + b)[0] == a[0] && (a + b)[1..] == a[1..] + b;
      DispatchAppend(id, a[1..], b, channel, payload, now);
      var f := FireOn(id, a[0], channel, payload, now);
      var da, db := Dispatch(id, a[1..], channel, payload, now), Dispatch(id, b, channel, payload, now);
      assert Dispatch(id, a + b, channel, payload, now) == Then(f, Dispatch(id, a[1..] + b, channel, payload, now));
      assert Dispatch(id, a, channel, payload, now) == Then(f, da);
      ThenAssociative(f, da, db);
    }
  }

  /**
   * The registrations the proxy can hold: the spy only on `message`, adapters
   * only on their own channel, never a page listener directly.
   */
  ghost predicate WellRegistered(regs: seq<Registration>) {
    forall r :: r in regs ==>
      match r.handler
      case Spy => r.channel == MessageChannel
      case Wrapped(a) => a.channel == r.channel
      case PageListener(_) => false
  }

  lemma InvWellRegistered(m: ListenerMap, regs: seq<Registration>)
    requires Inv(m, regs)
    ensures WellRegistered(regs)
  {
    forall r | r in regs && r.handler.Wrapped?
      ensures r.handler.adapter.channel == r.channel
    {
      assert RegistrationTracked(m, r);
    }
  }

  /** A listener is reached exactly when a registration for it (direct or through an adapter) is on the channel. */
  lemma {:induction false} DeliveredIff(id: string, regs: seq<Registration>, channel: string, payload: string, now: int, l: Listener)
    ensures l in Dispatch(id, regs, channel, payload, now).delivered <==>
      (exists a :: Registration(channel, Wrapped(a)) in regs && a.listener == l) ||
      Registration(channel, PageListener(l)) in regs
    decreases |regs|
  {
    if regs != [] {
      DeliveredIff(id, regs[1..], channel, payload, now, l);
      assert forall x :: x in regs <==> x == regs[0] || x in regs[1..];
    }
  }

  /** Without the spy, a default-channel event posts nothing: adapters on `message` stay silent. */
  lemma {:induction false} NoSpyNoMessageCapture(id: string, regs: seq<Registration>, payload: string, now: int)
    requires WellRegistered(regs) && Registration(MessageChannel, Spy) !in regs
    ensures Dispatch(id, regs, MessageChannel, payload, now).captures == []
    decreases |regs|
  {
    if regs != [] {
      assert regs[0] in regs;
      assert forall x :: x in regs[1..] ==> x in regs;
      NoSpyNoMessageCapture(id, regs[1..], payload, now);
    }
  }

  /** The spy occurs once: the list is the part before it, the spy, and the part after it. */
  lemma SpySplit(regs: seq<Registration>) returns (pre: seq<Registration>, post: seq<Registration>)
    requires Distinct(regs) && Registration(MessageChannel, Spy) in regs
    ensures regs == pre + [Registration(MessageChannel, Spy)] + post
    ensures Registration(MessageChannel, Spy) !in pre && Registration(MessageChannel, Spy) !in post
  {
    var spy := Registration(MessageChannel, Spy);
    var k :| 0 <= k < |regs| && regs[k] == spy;
    pre, post := regs[..k], regs[k + 1..];
    assert regs == pre + [spy] + post;
    forall i | 0 <= i < |pre|
      ensures pre[i] != spy
    {
      assert pre[i] == regs[i];
    }
    forall i | 0 <= i < |post|
      ensures post[i] != spy
    {
      assert post[i] == regs[k + 1 + i];
    }
  }

  /**
   * A default-channel event is posted exactly once, by the spy, however many
   * page listeners are registered for it.
   */
  lemma MessagePostedOnce(id: string, m: ListenerMap, regs: seq<Registration>, payload: string, now: int)
    requires Inv(m, regs)
    ensures Dispatch(id, regs, MessageChannel, payload, now).captures == [EsMessage(id, MessageChannel, payload, now)]
  {
    var spy := Registration(MessageChannel, Spy);
    InvWellRegistered(m, regs);
    var pre, post := SpySplit(regs);
    assert forall x :: x in pre ==> x in regs;
    assert forall x :: x in post ==> x in regs;
    NoSpyNoMessageCapture(id, pre, payload, now);
    NoSpyNoMessageCapture(id, post, payload, now);
    DispatchAppend(id, pre + [spy], post, MessageChannel, payload, now);
    DispatchAppend(id, pre, [spy], MessageChannel, payload, now);
  }

  /**
   * On any other channel the event is posted once per listener it reaches,
   * always under the channel's name: a named event nobody listens to is not posted.
   */
  lemma {:induction false} NamedPostedPerListener(id: string, regs: seq<Registration>, channel: string, payload: string, now: int)
    requires channel != MessageChannel && WellRegistered(regs)
    ensures var d := Dispatch(id, regs, channel, payload, now);
      && |d.captures| == |d.delivered|
      && forall i :: 0 <= i < |d.captures| ==> d.captures[i] == EsMessage(id, channel, payload, now)
    decreases |regs|
  {
    if regs != [] {
      assert regs[0] in regs;
      assert forall x :: x in regs[1..] ==> x in regs;
      NamedPostedPerListener(id, regs[1..], channel, payload, now);
    }
  }

  /** Under the invariant, the listeners reached on a channel are exactly those tracked for it. */
  lemma ReachesTrackedListeners(id: string, m: ListenerMap, regs: seq<Registration>, channel: string, payload: string, now: int, l: Listener)
    requires Inv(m, regs)
    ensures l in Dispatch(id, regs, channel, payload, now).delivered <==> Lookup(m, l, channel).Some?
  {
    DeliveredIff(id, regs, channel, payload, now, l);
    assert !RegistrationTracked(m, Registration(channel, PageListener(l)));
    if Lookup(m, l, channel).Some? {
      var a := Lookup(m, l, channel).value;
      assert Registration(channel, Wrapped(a)) in regs && a.listener == l;
    }
    if exists a :: Registration(channel, Wrapped(a)) in regs && a.listener == l {
      var a :| Registration(channel, Wrapped(a)) in regs && a.listener == l;
      assert RegistrationTracked(m, Registration(channel, Wrapped(a)));
    }
  }

  // ---------------------------------------------------------------------------
  // The error handler
  // ---------------------------------------------------------------------------

  /** What the instance's `onerror` property holds. */
  datatype ErrorSlot = Logger(original: Option<Listener>) | PageHandler(handler: Listener)

  /**
   * As written: the logger keeps the `onerror` read at construction, which on a
   * new instance is always null, and a page assigning `onerror` later simply
   * overwrites the logger.
   */
  function ErrorSlotAsWritten(assignedByPage: Option<Listener>): ErrorSlot {
    match assignedByPage
    case None => Logger(None)
    case Some(h) => PageHandler(h)
  }

  /** An error event as written: the logger posts `es-error` and calls the kept handler. */
  function FireErrorAsWritten(id: string, slot: ErrorSlot, now: int): (Option<Capture>, Option<Listener>) {
    match slot
    case Logger(original) => (Some(EsError(id, now)), original)
    case PageHandler(h) => (None, Some(h))
  }

  /** Once the page sets its own `onerror`, errors are no longer posted. */
  lemma PageOnErrorHidesErrors(id: string, h: Listener, now: int)
    ensures FireErrorAsWritten(id, ErrorSlotAsWritten(Some(h)), now) == (None, Some(h))
  {
  }

  /** The handler kept at construction is never a page handler. */
  lemma OriginalHandlerNeverCalled(id: string, now: int)
    ensures FireErrorAsWritten(id, ErrorSlotAsWritten(None), now).1 == None
  {
  }

  /** Corrected: every error posts `es-error`, then calls the page's handler if it set one. */
  function FireError(id: string, pageHandler: Option<Listener>, now: int): (Option<Capture>, Option<Listener>) {
    (Some(EsError(id, now)), pageHandler)
  }

  /** Corrected, each error is posted once and reaches the handler the page assigned. */
  lemma ErrorsAlwaysPosted(id: string, pageHandler: Option<Listener>, now: int)
    ensures FireError(id, pageHandler, now).0 == Some(EsError(id, now))
    ensures FireError(id, pageHandler, now).1 == pageHandler
    ensures pageHandler.Some? ==> FireError(id, pageHandler, now) != FireErrorAsWritten(id, ErrorSlotAsWritten(pageHandler), now)
  {
  }

  // ---------------------------------------------------------------------------
  // The proxied instance
  // ---------------------------------------------------------------------------

  class ProxiedEventSource {
    const id: string
    const url: string
    var listenerMap: ListenerMap
    var registrations: seq<Registration>
    var nativeCalls: seq<NativeCall>
    var sent: seq<Capture>
    var pageOnError: Option<Listener>

    ghost predicate Valid()
      reads this
    {
      Inv(listenerMap, registrations)
    }

    /** Construction: announce the connection, then attach the spy on `message`. */
    constructor (id: string, url: string, now: int)
      ensures Valid()
      ensures this.id == id && this.url == url
      ensures sent == [EsConnect(id, url, now)]
      ensures listenerMap == map[]
      ensures registrations == [Registration(MessageChannel, Spy)]
      ensures nativeCalls == [NativeAdd(Registration(MessageChannel, Spy))]
      ensures pageOnError == None
    {
      this.id := id;
      this.url := url;
      sent := [EsConnect(id, url, now)];
      listenerMap := map[];
      var spy := Registration(MessageChannel, Spy);
      registrations := AddNative([], spy);
      nativeCalls := [NativeAdd(spy)];
      pageOnError := None;
    }

    /**
     * The replaced `addEventListener`: a tracked pair re-adds its stored adapter;
     * a new pair gets a new adapter, which is stored and added. The adapter
     * registered for the pair is returned.
     */
    method AddEventListener(t: string, l: Listener) returns (a: Adapter)
      requires Valid()
      modifies this
      ensures Valid()
      ensures Lookup(listenerMap, l, t) == Some(a)
      ensures registrations == AddNative(old(registrations), Registration(t, Wrapped(a)))
      ensures nativeCalls == old(nativeCalls) + [NativeAdd(Registration(t, Wrapped(a)))]
      ensures listenerMap == Track(old(listenerMap), l, t, a)
      ensures old(Lookup(listenerMap, l, t)).Some? ==> a == old(Lookup(listenerMap, l, t)).value
      ensures old(Lookup(listenerMap, l, t)).None? ==> fresh(a) && a.listener == l && a.channel == t
      ensures sent == old(sent) && pageOnError == old(pageOnError)
    {
      var found := Lookup(listenerMap, l, t);
      if found.Some? {
        a := found.value;
      } else {
        a := new Adapter(l, t);
      }
      ghost var m, regs := listenerMap, registrations;
      listenerMap := Track(listenerMap, l, t, a);
      CallNativeAdd(Registration(t, Wrapped(a)));
      AddStep(m, regs, l, t, a);
    }

    /**
     * The replaced `removeEventListener`: a tracked pair removes its adapter
     * and forgets it (and the listener's inner map once empty); an untracked
     * one passes the listener itself through.
     */
    method RemoveEventListener(t: string, l: Listener)
      requires Valid()
      modifies this
      ensures Valid()
      ensures Lookup(listenerMap, l, t).None?
      ensures listenerMap == Untrack(old(listenerMap), l, t)
      ensures registrations == RemoveNative(old(registrations), RemovalTarget(old(listenerMap), l, t))
      ensures nativeCalls == old(nativeCalls) + [NativeRemove(RemovalTarget(old(listenerMap), l, t))]
      ensures old(Lookup(listenerMap, l, t)).None? ==>
        listenerMap == old(listenerMap) && registrations == old(registrations)
      ensures sent == old(sent) && pageOnError == old(pageOnError)
    {
      var found := Lookup(listenerMap, l, t);
      RemoveStep(listenerMap, registrations, l, t);
      if found.Some? {
        CallNativeRemove(Registration(t, Wrapped(found.value)));
        listenerMap := Untrack(listenerMap, l, t);
      } else {
        CallNativeRemove(Registration(t, PageListener(l)));
      }
    }

    /** `originalAdd.call(this, …)`: the native list gains the registration unless it holds it. */
    method CallNativeAdd(r: Registration)
      modifies this
      ensures registrations == AddNative(old(registrations), r)
      ensures nativeCalls == old(nativeCalls) + [NativeAdd(r)]
      ensures listenerMap == old(listenerMap) && sent == old(sent) && pageOnError == old(pageOnError)
    {
      registrations := AddNative(registrations, r);
      nativeCalls := nativeCalls + [NativeAdd(r)];
    }

    /** `originalRemove.call(this, …)`: the native list drops the registration. */
    method CallNativeRemove(r: Registration)
      modifies this
      ensures registrations == RemoveNative(old(registrations), r)
      ensures nativeCalls == old(nativeCalls) + [NativeRemove(r)]
      ensures listenerMap == old(listenerMap) && sent == old(sent) && pageOnError == old(pageOnError)
    {
      registrations := RemoveNative(registrations, r);
      nativeCalls := nativeCalls + [NativeRemove(r)];
    }

    /** Adding a new pair and removing it again leaves the map and the native list as they were. */
    method AddThenRemove(t: string, l: Listener)
      requires Valid() && Lookup(listenerMap, l, t).None?
      modifies this
      ensures Valid()
      ensures listenerMap == old(listenerMap) && registrations == old(registrations)
    {
      ghost var m, regs := listenerMap, registrations;
      var a := AddEventListener(t, l);
      assert !RegistrationTracked(m, Registration(t, Wrapped(a)));
      RemoveEventListener(t, l);
      TrackThenUntrack(m, l, t, a);
      AddThenRemoveNative(regs, Registration(t, Wrapped(a)));
    }

    /** An event arrives on a channel: the captures are posted and the reached listeners returned. */
    method DispatchEvent(channel: string, payload: string, now: int) returns (delivered: seq<Listener>)
      requires Valid()
      modifies this
      ensures Valid()
      ensures var d := Dispatch(id, registrations, channel, payload, now);
        sent == old(sent) + d.captures && delivered == d.delivered
      ensures listenerMap == old(listenerMap) && registrations == old(registrations)
      ensures nativeCalls == old(nativeCalls) && pageOnError == old(pageOnError)
    {
      var d := Dispatch(id, registrations, channel, payload, now);
      sent := sent + d.captures;
      delivered := d.delivered;
    }

    /** The page assigns `onerror`. */
    method SetOnError(h: Listener)
      modifies this
      ensures pageOnError == Some(h)
      ensures listenerMap == old(listenerMap) && registrations == old(registrations)
      ensures nativeCalls == old(nativeCalls) && sent == old(sent)
    {
      pageOnError := Some(h);
    }

    /** An error event: post `es-error`, then call the page's handler, if any (corrected behaviour). */
    method OnError(now: int) returns (called: Option<Listener>)
      modifies this
      ensures var fired := FireError(id, old(pageOnError), now);
        fired.0.Some? && sent == old(sent) + [fired.0.value] && called == fired.1
      ensures listenerMap == old(listenerMap) && registrations == old(registrations)
      ensures nativeCalls == old(nativeCalls) && pageOnError == old(pageOnError)
    {
      var fired := FireError(id, pageOnError, now);
      sent := sent + [fired.0.value];
      called := fired.1;
    }
  }
}
