/** The registry of logged-in users: the server's global `clients`
    dictionary from username to connection, and the fan-out `broadcast`
    that writes one frame to every member and drops the members whose
    connection fails. A Python dict iterates in insertion order, so the
    registry keeps the order of its names next to the map. */
module Registry {
  import opened Protocol

  /** The value of the `clients` dict: its keys in iteration order, and the
      connection each key maps to. */
  datatype Members = Members(names: seq<string>, conns: map<string, ConnId>)

  predicate NoDup(s: seq<string>) {
    forall i, j :: 0 <= i < j < |s| ==> s[i] != s[j]
  }

  /** Every name in the order is a key of the map. */
  ghost predicate Listed(m: Members) {
    forall n :: n in m.names ==> n in m.conns
  }

  /** The order lists each key of the map exactly once. */
  ghost predicate Wf(m: Members) {
    NoDup(m.names) && forall n :: n in m.conns <==> n in m.names
  }

  /** s without x, the others kept in their order. */
  function Without(s: seq<string>, x: string): (r: seq<string>)
    ensures forall y :: y in r <==> y in s && y != x
    ensures NoDup(s) ==> NoDup(r)
  {
    if s == [] then []
    else if s[0] == x then Without(s[1..], x)
    else
      var rest := Without(s[1..], x);
      assert NoDup(s) ==> s[0] !in s[1..];
      [s[0]] + rest
  }

  /** Removing a name that is not there gives the order back unchanged. */
  lemma {:induction false} WithoutAbsent(s: seq<string>, x: string)
    requires x !in s
    ensures Without(s, x) == s
  {
    if s != [] {
      assert s[0] != x;
      assert x !in s[1..];
      WithoutAbsent(s[1..], x);
      assert s == [s[0]] + s[1..];
    }
  }

  /** Removing the name at place i of an order without duplicates closes
      the gap and keeps the others in their order. */
  lemma {:induction false} WithoutAt(s: seq<string>, i: nat)
    requires NoDup(s) && i < |s|
    ensures Without(s, s[i]) == s[..i] + s[i + 1..]
  {
    if i == 0 {
      assert s[0] !in s[1..];
      WithoutAbsent(s[1..], s[0]);
    } else {
      var t := s[1..];
      assert s[0] != s[i];
      assert t[i - 1] == s[i];
      assert NoDup(t);
      WithoutAt(t, i - 1);
      assert t[..i - 1] == s[1..i];
      assert t[i..] == s[i + 1..];
      assert s[..i] == [s[0]] + s[1..i];
    }
  }

  /** `if name in clients: del clients[name]`: the key goes, and so does its
      place in the order; removing an absent key changes nothing. */
  function Unregister(m: Members, name: string): (r: Members)
    requires Wf(m)
    ensures Wf(r)
  {
    if name in m.conns then Members(Without(m.names, name), m.conns - {name}) else m
  }

  /** `clients[name] = conn` for a name that is not a key yet: it comes last
      in the order. */
  function Register(m: Members, name: string, conn: ConnId): (r: Members)
    requires Wf(m) && name !in m.conns
    ensures Wf(r)
    ensures r.conns == m.conns[name := conn]
    ensures r.names == m.names + [name]
  {
    Members(m.names + [name], m.conns[name := conn])
  }

  /** Unregistering every name of ns, one after the other. */
  function UnregisterAll(m: Members, ns: seq<string>): (r: Members)
    requires Wf(m)
    ensures Wf(r)
  {
    if ns == [] then m
    else Unregister(UnregisterAll(m, ns[..|ns| - 1]), ns[|ns| - 1])
  }

  /** Unregistering the names of ns removes exactly those keys and leaves
      the other entries as they were. */
  lemma {:induction false} UnregisterAllRemoves(m: Members, ns: seq<string>)
    requires Wf(m)
    ensures forall n :: n in UnregisterAll(m, ns).conns <==> n in m.conns && n !in ns
    ensures forall n :: n in UnregisterAll(m, ns).conns ==> UnregisterAll(m, ns).conns[n] == m.conns[n]
  {
    if ns != [] {
      var front := ns[..|ns| - 1];
      assert forall x :: x in ns <==> x in front || x == ns[|ns| - 1];
      UnregisterAllRemoves(m, front);
    }
  }

  /** The names of ns, in their order, other than `exclude`, whose
      connection is in `broken` (when `failed` holds) or is not (otherwise). */
  function Pick(ns: seq<string>, conns: map<string, ConnId>, exclude: Option<string>,
                broken: set<ConnId>, failed: bool): (r: seq<string>)
    requires forall n :: n in ns ==> n in conns
    ensures forall n :: n in r ==> n in conns
  {
    if ns == [] then []
    else
      var n := ns[|ns| - 1];
      Pick(ns[..|ns| - 1], conns, exclude, broken, failed)
        + (if Some(n) != exclude && (conns[n] in broken) == failed then [n] else [])
  }

  /** Picking keeps exactly the names that qualify, each once. */
  lemma {:induction false} PickExactly(ns: seq<string>, conns: map<string, ConnId>, exclude: Option<string>,
                                       broken: set<ConnId>, failed: bool)
    requires forall n :: n in ns ==> n in conns
    ensures var r := Pick(ns, conns, exclude, broken, failed);
      && (forall n :: n in r <==> n in ns && Some(n) != exclude && (conns[n] in broken) == failed)
      && (NoDup(ns) ==> NoDup(r))
  {
    if ns != [] {
      var n := ns[|ns| - 1];
      var front := ns[..|ns| - 1];
      assert forall x :: x in ns <==> x in front || x == n;
      assert NoDup(ns) ==> n !in front;
      PickExactly(front, conns, exclude, broken, failed);
    }
  }

  /** One frame to the connection of each name of ns, in order. */
  function Deliveries(ns: seq<string>, conns: map<string, ConnId>, frame: string): seq<Send>
    requires forall n :: n in ns ==> n in conns
  {
    if ns == [] then []
    else Deliveries(ns[..|ns| - 1], conns, frame) + [Send(conns[ns[|ns| - 1]], frame)]
  }

  /** The k-th delivery goes to the connection of the k-th name. */
  lemma {:induction false} DeliveriesAt(ns: seq<string>, conns: map<string, ConnId>, frame: string)
    requires forall n :: n in ns ==> n in conns
    ensures |Deliveries(ns, conns, frame)| == |ns|
    ensures forall k :: 0 <= k < |ns| ==> Deliveries(ns, conns, frame)[k] == Send(conns[ns[k]], frame)
  {
    if ns != [] {
      var front := ns[..|ns| - 1];
      DeliveriesAt(front, conns, frame);
      forall k | 0 <= k < |front| ensures front[k] == ns[k] { }
    }
  }

  /** The frames a fan-out over ns delivers, in order: one to each name
      other than `exclude` whose connection works. */
  function Sends(ns: seq<string>, conns: map<string, ConnId>, frame: string,
                 exclude: Option<string>, broken: set<ConnId>): seq<Send>
    requires forall n :: n in ns ==> n in conns
  {
    if ns == [] then []
    else
      var n := ns[|ns| - 1];
      Sends(ns[..|ns| - 1], conns, frame, exclude, broken)
        + (if Some(n) != exclude && conns[n] !in broken then [Send(conns[n], frame)] else [])
  }

  /** Those frames are one per picked recipient. */
  lemma {:induction false} SendsAreDeliveries(ns: seq<string>, conns: map<string, ConnId>, frame: string,
                                              exclude: Option<string>, broken: set<ConnId>)
    requires forall n :: n in ns ==> n in conns
    ensures Sends(ns, conns, frame, exclude, broken)
      == Deliveries(Pick(ns, conns, exclude, broken, false), conns, frame)
  {
    if ns != [] {
      var front := ns[..|ns| - 1];
      var n := ns[|ns| - 1];
      SendsAreDeliveries(front, conns, frame, exclude, broken);
      var p := Pick(front, conns, exclude, broken, false);
      if Some(n) != exclude && conns[n] !in broken {
        assert Pick(ns, conns, exclude, broken, false) == p + [n];
        assert (p + [n])[..|p|] == p;
        assert Deliveries(p + [n], conns, frame) == Deliveries(p, conns, frame) + [Send(conns[n], frame)];
      } else {
        assert Pick(ns, conns, exclude, broken, false) == p;
      }
    }
  }

  /** The members a broadcast reaches: every member but `exclude` whose
      connection works, in registry order. */
  function Recipients(m: Members, exclude: Option<string>, broken: set<ConnId>): seq<string>
    requires Listed(m)
  {
    Pick(m.names, m.conns, exclude, broken, false)
  }

  /** The members whose send fails during a broadcast. */
  function Failed(m: Members, exclude: Option<string>, broken: set<ConnId>): seq<string>
    requires Listed(m)
  {
    Pick(m.names, m.conns, exclude, broken, true)
  }

  /** The frames a broadcast delivers. */
  function Fanout(m: Members, frame: string, exclude: Option<string>, broken: set<ConnId>): seq<Send>
    requires Listed(m)
  {
    Deliveries(Recipients(m, exclude, broken), m.conns, frame)
  }

  /** The registry a broadcast leaves behind: the failed members removed. */
  function AfterBroadcast(m: Members, exclude: Option<string>, broken: set<ConnId>): Members
    requires Wf(m)
  {
    UnregisterAll(m, Failed(m, exclude, broken))
  }

  /** A broadcast reaches every member but `exclude` whose connection works,
      each exactly once and in registry order, with the same frame; a
      failing member does not keep the ones after it from being reached. */
  lemma FanoutReachesEveryWorkingMember(m: Members, frame: string, exclude: Option<string>,
                                        broken: set<ConnId>)
    requires Wf(m)
    ensures var rs := Recipients(m, exclude, broken);
      && NoDup(rs)
      && (forall n :: n in rs <==> n in m.conns && Some(n) != exclude && m.conns[n] !in broken)
      && |Fanout(m, frame, exclude, broken)| == |rs|
      && forall k :: 0 <= k < |rs| ==> Fanout(m, frame, exclude, broken)[k] == Send(m.conns[rs[k]], frame)
    ensures forall n :: n in m.conns && Some(n) != exclude && m.conns[n] !in broken ==>
      Send(m.conns[n], frame) in Fanout(m, frame, exclude, broken)
    ensures forall s :: s in Fanout(m, frame, exclude, broken) ==> s.frame == frame && s.to !in broken
  {
    var rs := Recipients(m, exclude, broken);
    var out := Fanout(m, frame, exclude, broken);
    PickExactly(m.names, m.conns, exclude, broken, false);
    DeliveriesAt(rs, m.conns, frame);
    forall n | n in m.conns && Some(n) != exclude && m.conns[n] !in broken
      ensures Send(m.conns[n], frame) in out
    {
      var k :| 0 <= k < |rs| && rs[k] == n;
      assert out[k] == Send(m.conns[n], frame);
    }
    forall s | s in out ensures s.frame == frame && s.to !in broken {
      var k :| 0 <= k < |out| && out[k] == s;
      assert rs[k] in rs;
    }
  }

  /** After a broadcast the registry is the old one minus exactly the
      members whose send failed; everyone else keeps their connection, and
      the excluded member is never removed. */
  lemma BroadcastDropsExactlyFailed(m: Members, exclude: Option<string>, broken: set<ConnId>)
    requires Wf(m)
    ensures var r := AfterBroadcast(m, exclude, broken);
      && Wf(r)
      && (forall n :: n in r.conns <==> n in m.conns && !(Some(n) != exclude && m.conns[n] in broken))
      && (forall n :: n in r.conns ==> r.conns[n] == m.conns[n])
      && (exclude.Some? && exclude.value in m.conns ==> exclude.value in r.conns)
  {
    PickExactly(m.names, m.conns, exclude, broken, true);
    UnregisterAllRemoves(m, Failed(m, exclude, broken));
  }

  /** The `clients` dictionary, updated in place. */
  class Clients {
    var names: seq<string>
    var conns: map<string, ConnId>

    function Value(): Members
      reads this
    {
      Members(names, conns)
    }

    ghost predicate Valid()
      reads this
    {
      Wf(Value())
    }

    constructor ()
      ensures Valid() && Value() == Members([], map[])
    {
      names := [];
      conns := map[];
    }

    /** `if name in clients: del clients[name]` */
    method Discard(name: string)
      requires Valid()
      modifies this
      ensures Valid() && Value() == Unregister(old(Value()), name)
    {
      if name in conns {
        names := Without(names, name);
        conns := conns - {name};
      }
    }

    /** `clients[name] = conn`, for a name that is not a key. */
    method Add(name: string, conn: ConnId)
      requires Valid() && name !in conns
      modifies this
      ensures Valid() && Value() == Register(old(Value()), name, conn)
    {
      names := names + [name];
      conns := conns[name := conn];
    }

    /** The first loop of broadcast: over a snapshot of the members, write
      the frame to each one but `exclude`, and list those whose send fails.
      The dictionary itself is not touched. */
    method SendToAll(frame: string, exclude: Option<string>, broken: set<ConnId>)
      returns (out: seq<Send>, disconnected: seq<string>)
      requires Listed(Value())
      ensures out == Fanout(Value(), frame, exclude, broken)
      ensures disconnected == Failed(Value(), exclude, broken)
    {
      var snapshot := names;
      disconnected := [];
      out := [];
      var i := 0;
      while i < |snapshot|
        invariant 0 <= i <= |snapshot|
        invariant out == Sends(snapshot[..i], conns, frame, exclude, broken)
        invariant disconnected == Pick(snapshot[..i], conns, exclude, broken, true)
      {
        var name := snapshot[i];
        assert snapshot[..i + 1][..i] == snapshot[..i];
        if Some(name) != exclude {
          var c := conns[name];
          if c in broken {
            disconnected := disconnected + [name];
          } else {
            out := out + [Send(c, frame)];
          }
        }
        i := i + 1;
      }
      assert snapshot[..i] == snapshot;
      SendsAreDeliveries(snapshot, conns, frame, exclude, broken);
    }

    /** broadcast(message, exclude): write message + "\n" to every member
      but `exclude`, then delete the members whose send failed. */
    method Broadcast(message: string, exclude: Option<string>, broken: set<ConnId>)
      returns (out: seq<Send>)
      requires Valid()
      modifies this
      ensures Valid()
      ensures out == Fanout(old(Value()), Frame(message), exclude, broken)
      ensures Value() == AfterBroadcast(old(Value()), exclude, broken)
    {
      var disconnected;
      out, disconnected := SendToAll(Frame(message), exclude, broken);
      ghost var m0 := Value();
      ghost var done: seq<string> := [];
      var j := 0;
      while j < |disconnected|
        invariant 0 <= j <= |disconnected| && done == disconnected[..j]
        invariant Valid()
        invariant Value() == UnregisterAll(m0, done)
      {
        var name := disconnected[j];
        assert (done + [name])[..|done|] == done;
        Discard(name);
        done := done + [name];
        j := j + 1;
      }
      assert disconnected[..j] == disconnected;
    }
  }
}
