/**
 * The background service's connection registry: a map from inspected tab id
 * to the panel's open port. A panel announces itself with an `init` message
 * for its tab (the last announcement wins); when a port closes, the first tab
 * recorded for it, in `Object.keys` order, is forgotten; every capture relayed
 * from a tab's content script is posted to that tab's port, or dropped.
 *
 * Tab ids are the integer keys of a plain object, which `Object.keys` lists in
 * ascending numeric order.
 */
module Registry {
  import opened Wrappers
  import opened Captures

  /** A panel's open port, compared by identity. */
  class Port { }

  /** A message from a panel over its port. */
  datatype PanelMessage = PanelMessage(name: string, tabId: nat)

  /** Who relayed a capture: the sending tab, when the sender is a tab's content script. */
  datatype Sender = Sender(tab: Option<nat>)

  /** One `port.postMessage(request)`. */
  datatype Post = Post(port: Port, request: Capture)

  // ---------------------------------------------------------------------------
  // Object.keys order
  // ---------------------------------------------------------------------------

  /** `m` is the least element of `s`. */
  predicate IsLeast(m: nat, s: set<nat>) {
    m in s && forall k :: k in s ==> m <= k
  }

  lemma {:induction false} LeastExists(s: set<nat>)
    requires s != {}
    ensures exists m :: IsLeast(m, s)
    decreases |s|
  {
    var x :| x in s;
    if s == {x} {
      assert IsLeast(x, s);
    } else {
      LeastExists(s - {x});
      var m :| IsLeast(m, s - {x});
      var least := if x < m then x else m;
      forall k | k in s
        ensures least <= k
      {
        if k != x {
          assert k in s - {x};
        }
      }
      assert IsLeast(least, s);
    }
  }

  /** The least element of a non-empty set of tab ids. */
  function Least(s: set<nat>): (m: nat)
    requires s != {}
    ensures m in s && forall k :: k in s ==> m <= k
  {
    LeastExists(s);
    var m :| IsLeast(m, s);
    m
  }

  /** `Object.keys` of an object with integer keys: the keys in ascending order. */
  function AscendingKeys(s: set<nat>): (tabs: seq<nat>)
    ensures |tabs| == |s|
    ensures forall i :: 0 <= i < |tabs| ==> tabs[i] in s
    decreases |s|
  {
    if s == {} then [] else
      var m := Least(s);
      [m] + AscendingKeys(s - {m})
  }

  /** Strictly ascending, hence without repetition. */
  predicate Ascending(tabs: seq<nat>) {
    forall i, j :: 0 <= i < j < |tabs| ==> tabs[i] < tabs[j]
  }

  /** The keys are listed once each, every one of them, in strictly ascending order. */
  lemma {:induction false} AscendingKeysSpec(s: set<nat>)
    ensures var tabs := AscendingKeys(s);
      (forall k :: k in s <==> k in tabs) && Ascending(tabs)
    decreases |s|
  {
    if s != {} {
      var m := Least(s);
      AscendingKeysSpec(s - {m});
      PrependLeast(m, AscendingKeys(s - {m}), s - {m});
      assert (s - {m}) + {m} == s;
    }
  }

  lemma PrependLeast(m: nat, rest: seq<nat>, r: set<nat>)
    requires forall k :: k in r <==> k in rest
    requires Ascending(rest)
    requires forall k :: k in r ==> m <= k
    requires m !in r
    ensures (forall k :: k in r + {m} <==> k in [m] + rest) && Ascending([m] + rest)
  {
    var tabs := [m] + rest;
    forall i, j | 0 <= i < j < |tabs|
      ensures tabs[i] < tabs[j]
    {
      assert tabs[j] == rest[j - 1];
      if i > 0 {
        assert tabs[i] == rest[i - 1];
      } else {
        assert tabs[j] in r;
      }
    }
  }

  // ---------------------------------------------------------------------------
  // Registry rules
  // ---------------------------------------------------------------------------

  /** The tabs recorded for a port. */
  function TabsOf(connections: map<nat, Port>, port: Port): set<nat> {
    set k | k in connections && connections[k] == port
  }

  /** The registry after a port closes: the lowest tab recorded for it is forgotten, if any. */
  function Unregistered(connections: map<nat, Port>, port: Port): (after: map<nat, Port>)
    ensures forall k :: k in connections && connections[k] != port ==> k in after && after[k] == connections[k]
  {
    var tabs := TabsOf(connections, port);
    if tabs == {} then connections else connections - {Least(tabs)}
  }

  /** Where a relayed capture goes: to the sending tab's port when one is recorded, else nowhere. */
  function Route(connections: map<nat, Port>, request: Capture, sender: Sender): (posts: seq<Post>)
    ensures |posts| <= 1
    ensures |posts| == 1 <==> sender.tab.Some? && sender.tab.value in connections
    ensures |posts| == 1 ==> posts[0] == Post(connections[sender.tab.value], request)
  {
    match sender.tab
    case None => []
    case Some(tab) => if tab in connections then [Post(connections[tab], request)] else []
  }

  /**
   * Closing a port forgets exactly one tab when the port is recorded (the
   * lowest tab recorded for it) and nothing otherwise; every other entry keeps its port.
   */
  lemma UnregisterForgetsOne(connections: map<nat, Port>, port: Port)
    ensures var after := Unregistered(connections, port);
      && after.Keys <= connections.Keys
      && (forall k :: k in after ==> after[k] == connections[k])
      && (TabsOf(connections, port) == {} <==> after == connections)
      && (TabsOf(connections, port) != {} ==>
          exists tab :: tab in connections && connections[tab] == port &&
            after.Keys == connections.Keys - {tab} &&
            forall k :: k in connections && connections[k] == port ==> tab <= k)
  {
    var tabs := TabsOf(connections, port);
    if tabs != {} {
      var tab := Least(tabs);
      assert tab in connections && connections[tab] == port;
      assert forall k :: k in connections && connections[k] == port ==> tab <= k by {
        forall k | k in connections && connections[k] == port
          ensures tab <= k
        {
          assert k in tabs;
        }
      }
      assert Unregistered(connections, port).Keys == connections.Keys - {tab};
      assert Unregistered(connections, port) != connections by {
        assert tab !in Unregistered(connections, port);
      }
    }
  }

  /**
   * A stale close is harmless: when a tab is announced again on a new port and
   * the old port then closes, captures for the tab still reach the new port.
   */
  lemma StaleCloseKeepsNewPort(connections: map<nat, Port>, tab: nat, oldPort: Port, newPort: Port, request: Capture)
    requires oldPort != newPort
    ensures Route(Unregistered(connections[tab := newPort], oldPort), request, Sender(Some(tab))) == [Post(newPort, request)]
  {
  }

  // ---------------------------------------------------------------------------
  // The background service
  // ---------------------------------------------------------------------------

  class Background {
    /** `connections`: tab id to the panel port announced for it. */
    var connections: map<nat, Port>
    /** Every `postMessage` made to a panel port, in order. */
    var posted: seq<Post>

    constructor ()
      ensures connections == map[] && posted == []
    {
      connections := map[];
      posted := [];
    }

    /** A panel message on `port`: `init` records the port for the tab; anything else is ignored. */
    method OnPanelMessage(port: Port, message: PanelMessage)
      modifies this
      ensures message.name == "init" ==> connections == old(connections)[message.tabId := port]
      ensures message.name != "init" ==> connections == old(connections)
      ensures posted == old(posted)
    {
      if message.name == "init" {
        connections := connections[message.tabId := port];
      }
    }

    /** `port.onDisconnect`: scan the tabs in key order and forget the first one recorded for `port`. */
    method OnDisconnect(port: Port)
      modifies this
      ensures connections == Unregistered(old(connections), port)
      ensures posted == old(posted)
    {
      var tabs := AscendingKeys(connections.Keys);
      ghost var removed := false;
      var i := 0;
      while i < |tabs|
        invariant 0 <= i <= |tabs|
        invariant connections == old(connections)
        invariant forall j :: 0 <= j < i ==> connections[tabs[j]] != port
      {
        if connections[tabs[i]] == port {
          FirstInOrderIsLeast(connections, port, tabs, i);
          connections := connections - {tabs[i]};
          removed := true;
          break;
        }
        i := i + 1;
      }
      if !removed {
        NoneInOrderMeansNone(connections, port, tabs);
      }
    }

    /** A capture relayed by a content script is posted to its tab's port, or dropped. */
    method OnRuntimeMessage(request: Capture, sender: Sender)
      modifies this
      ensures posted == old(posted) + Route(old(connections), request, sender)
      ensures connections == old(connections)
    {
      if sender.tab.Some? {
        var tabId := sender.tab.value;
        if tabId in connections {
          posted := posted + [Post(connections[tabId], request)];
        }
      }
    }
  }

  /** The first tab in ascending key order that records the port is the least such tab. */
  lemma FirstInOrderIsLeast(connections: map<nat, Port>, port: Port, tabs: seq<nat>, i: nat)
    requires tabs == AscendingKeys(connections.Keys)
    requires i < |tabs| && connections[tabs[i]] == port
    requires forall j :: 0 <= j < i ==> connections[tabs[j]] != port
    ensures tabs[i] == Least(TabsOf(connections, port))
  {
    AscendingKeysSpec(connections.Keys);
    var ts := TabsOf(connections, port);
    assert tabs[i] in ts;
    var m := Least(ts);
    assert m in tabs;
    var j :| 0 <= j < |tabs| && tabs[j] == m;
    assert j >= i by {
      assert tabs[j] in ts;
    }
  }

  /** When the scan finds no tab recorded for the port, there is none. */
  lemma NoneInOrderMeansNone(connections: map<nat, Port>, port: Port, tabs: seq<nat>)
    requires tabs == AscendingKeys(connections.Keys)
    requires forall j :: 0 <= j < |tabs| ==> connections[tabs[j]] != port
    ensures TabsOf(connections, port) == {}
  {
    AscendingKeysSpec(connections.Keys);
    forall k | k in connections
      ensures connections[k] != port
    {
      var j :| 0 <= j < |tabs| && tabs[j] == k;
    }
  }
}
