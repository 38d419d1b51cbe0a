/** The whole server: the shared registry and one session per accepted
    connection, each step of a session being atomic. The invariant says
    what the registry means: every registered name is a valid name whose
    connection runs an active session logged in under that name. The
    converse does not hold, and the lemmas at the end show how a session
    stays active after it has lost its entry. */
module Server {
  import opened Text
  import opened Protocol
  import opened Registry
  import opened Session
  import opened Properties

  datatype World = World(members: Members, sessions: map<ConnId, State>)

  /** The registered name n belongs to an active session logged in as n. */
  ghost predicate Owned(w: World, n: string)
    requires n in w.members.conns
  {
    var c := w.members.conns[n];
    && n != "" && ' ' !in n
    && c in w.sessions && w.sessions[c].phase == Active && w.sessions[c].username == Some(n)
  }

  ghost predicate Inv(w: World) {
    && Wf(w.members)
    && (forall c :: c in w.sessions ==> Consistent(w.sessions[c]))
    && (forall n :: n in w.members.conns ==> Owned(w, n))
  }

  /** No connection yet. */
  function Boot(): World {
    World(Members([], map[]), map[])
  }

  /** `accept` hands a new connection to a fresh session. */
  function Accept(w: World, c: ConnId): World
    requires c !in w.sessions
  {
    World(w.members, w.sessions[c := Start()])
  }

  /** One atomic step of the session of c. */
  function Deliver(w: World, c: ConnId, ev: Event, broken: set<ConnId>): (r: (World, seq<Send>))
    requires Inv(w) && c in w.sessions
  {
    var o := StepEffect(w.members, c, w.sessions[c], ev, broken);
    (World(o.members, w.sessions[c := o.state]), o.out)
  }

  /** The line loop only removes entries. */
  lemma {:induction false} DrainWithin(m: Members, conn: ConnId, name: string, buffer: string, broken: set<ConnId>)
    requires Wf(m)
    ensures Within(DrainEffect(m, conn, name, buffer, broken).members.conns, m.conns)
    decreases |buffer|
  {
    var parts := Split1(buffer, '\n');
    if |parts| == 2 {
      var line := Strip(parts[0]);
      if line == "" {
        DrainWithin(m, conn, name, parts[1], broken);
      } else {
        var r := LineEffect(m, conn, name, line, broken);
        LineEffectBounds(m, conn, name, line, broken);
        if !r.fatal {
          DrainWithin(r.members, conn, name, parts[1], broken);
        }
      }
    }
  }

  /** How one step changes the registry, seen from the session taking it:
      only a login adds an entry (its own valid name, for its own
      connection), an active session that stays active only loses
      entries, and an active session that ends leaves its name
      unregistered. */
  lemma StepShape(m: Members, conn: ConnId, s: State, ev: Event, broken: set<ConnId>)
    requires Wf(m) && Consistent(s)
    ensures var o := StepEffect(m, conn, s, ev, broken);
      && (s.phase == Closed ==> o == Outcome(m, [], s))
      && (s.phase == Active && o.state.phase == Active ==>
            o.state.username == s.username && Within(o.members.conns, m.conns))
      && (s.phase == AwaitingLogin && o.state.phase == Active ==>
            && o.state.username.Some?
            && var n := o.state.username.value;
            && n != "" && ' ' !in n && n !in m.conns
            && n in o.members.conns && o.members.conns[n] == conn
            && forall k :: k in o.members.conns && k != n ==> k in m.conns && o.members.conns[k] == m.conns[k])
      && (o.state.phase != Active ==> Within(o.members.conns, m.conns))
      && (s.phase == Active && o.state.phase != Active ==> s.username.value !in o.members.conns)
  {
    match s.phase
    case Closed =>
    case AwaitingLogin =>
      if ev.Chunk? && ev.data != "" {
        LoginShape(m, conn, ev.data, broken);
      }
    case Active =>
      ActiveShape(m, conn, s, ev, broken);
  }

  /** The login step adds at most its own, valid, name. */
  lemma LoginShape(m: Members, conn: ConnId, data: string, broken: set<ConnId>)
    requires Wf(m)
    ensures var o := LoginEffect(m, conn, data, broken);
      && (o.state.phase == Active ==>
            && o.state.username.Some?
            && var n := o.state.username.value;
            && n != "" && ' ' !in n && n !in m.conns
            && n in o.members.conns && o.members.conns[n] == conn
            && forall k :: k in o.members.conns && k != n ==> k in m.conns && o.members.conns[k] == m.conns[k])
      && (o.state.phase != Active ==> Within(o.members.conns, m.conns))
  {
    if StartsWith(Strip(data), "LOGIN ") {
      LoginIsAdmit(m, conn, data, broken);
      var name := Requested(data);
      if ' ' in name || name in m.conns {
        AdmitRejected(m, conn, name, broken);
        FarewellAnnouncesDeparture(m, name, broken);
      } else if conn in broken {
        AdmitOkFails(m, conn, name, broken);
        FarewellAnnouncesDeparture(m, name, broken);
      } else {
        AdmitAccepted(m, conn, name, broken);
      }
    } else {
      LoginRefused(m, conn, data, broken);
    }
  }

  /** An active session keeps its name while it stays active, only ever
      removes entries, and has its name removed when it ends. */
  lemma ActiveShape(m: Members, conn: ConnId, s: State, ev: Event, broken: set<ConnId>)
    requires Wf(m) && Consistent(s) && s.phase == Active
    ensures var o := StepEffect(m, conn, s, ev, broken);
      && Within(o.members.conns, m.conns)
      && (o.state.phase == Active ==> o.state.username == s.username)
      && (o.state.phase != Active ==> s.username.value !in o.members.conns)
  {
    var name := s.username.value;
    if ev.Chunk? && ev.data != "" {
      var d := DrainEffect(m, conn, name, s.buffer + ev.data, broken);
      DrainWithin(m, conn, name, s.buffer + ev.data, broken);
      if d.fatal {
        FarewellAnnouncesDeparture(d.members, name, broken);
      }
    } else if ev.Timeout? {
      FarewellAnnouncesDeparture(m, name, broken);
      FarewellAnnouncesDeparture(Farewell(m, name, broken).0, name, broken);
    } else {
      FarewellAnnouncesDeparture(m, name, broken);
    }
  }

  /** A chunk reaching a session that awaits its login is the login. */
  lemma LoginStep(w: World, c: ConnId, data: string, broken: set<ConnId>)
    requires Inv(w) && c in w.sessions && w.sessions[c].phase == AwaitingLogin && data != ""
    requires StartsWith(Strip(data), "LOGIN ")
    ensures var o := AdmitEffect(w.members, c, Requested(data), broken);
      Deliver(w, c, Chunk(data), broken) == (World(o.members, w.sessions[c := o.state]), o.out)
  {
    var s := w.sessions[c];
    assert StepEffect(w.members, c, s, Chunk(data), broken) == LoginEffect(w.members, c, data, broken);
    LoginIsAdmit(w.members, c, data, broken);
  }

  lemma BootInv()
    ensures Inv(Boot())
  {
  }

  lemma AcceptKeepsInv(w: World, c: ConnId)
    requires Inv(w) && c !in w.sessions
    ensures Inv(Accept(w, c))
  {
    var w' := Accept(w, c);
    forall n | n in w'.members.conns ensures Owned(w', n) {
      assert Owned(w, n);
    }
  }

  /** Every step of every session keeps the invariant. */
  lemma DeliverKeepsInv(w: World, c: ConnId, ev: Event, broken: set<ConnId>)
    requires Inv(w) && c in w.sessions
    ensures Inv(Deliver(w, c, ev, broken).0)
  {
    var s := w.sessions[c];
    var o := StepEffect(w.members, c, s, ev, broken);
    var w' := Deliver(w, c, ev, broken).0;
    StepShape(w.members, c, s, ev, broken);
    forall n | n in w'.members.conns ensures Owned(w', n) {
      var c' := w'.members.conns[n];
      if s.phase == AwaitingLogin && o.state.phase == Active && n == o.state.username.value {
      } else {
        assert n in w.members.conns && w.members.conns[n] == c';
        assert Owned(w, n);
      }
    }
  }

  /** Two registered names never share a connection. */
  lemma RegisteredConnectionsDistinct(w: World, a: string, b: string)
    requires Inv(w) && a in w.members.conns && b in w.members.conns && a != b
    ensures w.members.conns[a] != w.members.conns[b]
  {
    assert Owned(w, a) && Owned(w, b);
  }

  /** A join notice goes to everyone but the joiner. */
  lemma JoinerDoesNotHearOwnJoin(w: World, c: ConnId, data: string, broken: set<ConnId>)
    requires Inv(w) && c in w.sessions && w.sessions[c].phase == AwaitingLogin && data != ""
    requires StartsWith(Strip(data), "LOGIN ")
    requires ' ' !in Requested(data) && Requested(data) !in w.members.conns && c !in broken
    ensures var out := Deliver(w, c, Chunk(data), broken).1;
      && |out| >= 1 && out[0] == Send(c, Frame(OkReply))
      && forall x :: x in out[1..] ==> x.to != c
  {
    forall n | n in w.members.conns ensures w.members.conns[n] != c {
      assert Owned(w, n);
    }
    LoginStep(w, c, data, broken);
    AdmitSkipsJoiner(w.members, c, Requested(data), broken);
  }

  lemma AdmitSkipsJoiner(m: Members, conn: ConnId, name: string, broken: set<ConnId>)
    requires Wf(m) && ' ' !in name && name !in m.conns && conn !in broken
    requires forall n :: n in m.conns ==> m.conns[n] != conn
    ensures var out := AdmitEffect(m, conn, name, broken).out;
      && |out| >= 1 && out[0] == Send(conn, Frame(OkReply))
      && forall x :: x in out[1..] ==> x.to != conn
  {
    var m1 := Register(m, name, conn);
    FanoutReachesEveryWorkingMember(m1, Frame(Joined(name)), Some(name), broken);
    var out := AdmitEffect(m, conn, name, broken).out;
    assert out[1..] == Fanout(m1, Frame(Joined(name)), Some(name), broken);
    var rs := Recipients(m1, Some(name), broken);
    forall x | x in out[1..] ensures x.to != conn {
      var k :| 0 <= k < |out[1..]| && out[1..][k] == x;
      assert rs[k] in m.conns && x.to == m.conns[rs[k]];
    }
  }

  /** A second login under a registered name is refused with
      ERR username-taken, yet its cleanup deletes the holder's entry; the
      holder's session goes on, active and logged in, without one. */
  lemma DuplicateLoginEvictsHolder(w: World, c: ConnId, data: string, broken: set<ConnId>)
    requires Inv(w) && c in w.sessions && w.sessions[c].phase == AwaitingLogin && data != ""
    requires StartsWith(Strip(data), "LOGIN ") && Requested(data) in w.members.conns
    ensures var (w', out) := Deliver(w, c, Chunk(data), broken);
      var name := Requested(data);
      var holder := w.members.conns[name];
      && holder != c
      && name !in w'.members.conns
      && holder in w'.sessions && w'.sessions[holder] == w.sessions[holder]
      && w'.sessions[holder].phase == Active && w'.sessions[holder].username == Some(name)
      && w'.sessions[c] == State(Closed, Some(name), "")
      && out == Attempt(c, broken, UsernameTaken) + Farewell(w.members, name, broken).1
  {
    var name := Requested(data);
    assert Owned(w, name);
    var holder := w.members.conns[name];
    OnlyOwnSessionChanges(w, c, Chunk(data), broken, holder);
    LoginTaken(w, c, data, broken);
  }

  /** A taken name ends the session, takes the name out and announces it. */
  lemma LoginTaken(w: World, c: ConnId, data: string, broken: set<ConnId>)
    requires Inv(w) && c in w.sessions && w.sessions[c].phase == AwaitingLogin && data != ""
    requires StartsWith(Strip(data), "LOGIN ") && Requested(data) in w.members.conns
    ensures var (w', out) := Deliver(w, c, Chunk(data), broken);
      && Requested(data) !in w'.members.conns
      && w'.sessions[c] == State(Closed, Some(Requested(data)), "")
      && out == Attempt(c, broken, UsernameTaken) + Farewell(w.members, Requested(data), broken).1
  {
    assert Owned(w, Requested(data));
    LoginStep(w, c, data, broken);
    AdmitRejected(w.members, c, Requested(data), broken);
  }

  /** So the invariant cannot be strengthened to "every active session is
      registered": once evicted, the same name can be taken again by a
      third connection, and two active sessions carry the same name. */
  lemma NameTakenTwice(w: World, holder: ConnId, c: ConnId, data: string, broken: set<ConnId>)
    requires Inv(w) && holder in w.sessions && c in w.sessions && w.sessions[c].phase == AwaitingLogin
    requires data != "" && StartsWith(Strip(data), "LOGIN ")
    requires w.sessions[holder].phase == Active && w.sessions[holder].username == Some(Requested(data))
    requires Requested(data) !in w.members.conns && ' ' !in Requested(data) && c !in broken
    ensures var w' := Deliver(w, c, Chunk(data), broken).0;
      && holder != c
      && holder in w'.sessions && w'.sessions[holder] == w.sessions[holder]
      && w'.sessions[c] == State(Active, Some(Requested(data)), "")
  {
    OnlyOwnSessionChanges(w, c, Chunk(data), broken, holder);
    LoginAccepted(w, c, data, broken);
  }

  /** A step leaves every other session as it was. */
  lemma OnlyOwnSessionChanges(w: World, c: ConnId, ev: Event, broken: set<ConnId>, d: ConnId)
    requires Inv(w) && c in w.sessions && d in w.sessions && d != c
    ensures var w' := Deliver(w, c, ev, broken).0;
      d in w'.sessions && w'.sessions[d] == w.sessions[d]
  {
  }

  /** A valid, free name whose OK can be written makes the session active under it. */
  lemma LoginAccepted(w: World, c: ConnId, data: string, broken: set<ConnId>)
    requires Inv(w) && c in w.sessions && w.sessions[c].phase == AwaitingLogin && data != ""
    requires StartsWith(Strip(data), "LOGIN ")
    requires Requested(data) !in w.members.conns && ' ' !in Requested(data) && c !in broken
    ensures Deliver(w, c, Chunk(data), broken).0.sessions[c] == State(Active, Some(Requested(data)), "")
  {
    LoginStep(w, c, data, broken);
    var st := AdmitEffect(w.members, c, Requested(data), broken).state;
    assert st == State(Active, Some(Requested(data)), "");
  }
}
