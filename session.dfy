/** One connection's session, as `handle_client` runs it: the login phase
    on the first received chunk, the message loop that reassembles lines in
    a buffer and dispatches each one, and the cleanup on the way out.

    Each socket call becomes part of one atomic step: the step receives an
    Event (what `recv` returned, or that it timed out or raised) and a set
    `broken` of connections whose `sendall` fails during the step. A failed
    send inside a `try` is swallowed; any other failed send to the
    session's own connection raises, which leaves the message loop for the
    generic `except` and the `finally` cleanup; here that is `fatal`.

    The functions below state what a step does; the class Handler does it
    step by step on a shared Clients object, and each of its methods is
    proved to agree with them. */
module Session {
  import opened Text
  import opened Protocol
  import opened Registry

  /** What one `recv` of a connection produced. An empty chunk is how the
      socket reports that the peer closed the stream (`if not data`);
      Eof names that case too. Fault is a `recv` that raised something
      other than a timeout, or bytes that do not decode. */
  datatype Event = Chunk(data: string) | Eof | Timeout | Fault

  datatype Phase = AwaitingLogin | Active | Closed

  /** The locals of `handle_client` that outlive one step. */
  datatype State = State(phase: Phase, username: Option<string>, buffer: string)

  /** Before login nothing is set; a logged-in session has a username. */
  predicate Consistent(s: State) {
    && (s.phase == AwaitingLogin ==> s.username == None && s.buffer == "")
    && (s.phase == Active ==> s.username.Some?)
  }

  /** A fresh connection: `username = None`, `buffer = ""`. */
  function Start(): State {
    State(AwaitingLogin, None, "")
  }

  /** The result of a step: the registry, the frames delivered, the session. */
  datatype Outcome = Outcome(members: Members, out: seq<Send>, state: State)

  /** The result of dispatching one line; `fatal` when it raised. */
  datatype LineResult = LineResult(members: Members, out: seq<Send>, fatal: bool)

  /** The result of the line loop: `rest` is what is left in the buffer. */
  datatype Drained = Drained(members: Members, out: seq<Send>, fatal: bool, rest: string)

  /** Every entry of a is an entry of b. */
  ghost predicate Within(a: map<string, ConnId>, b: map<string, ConnId>) {
    forall n :: n in a ==> n in b && a[n] == b[n]
  }

  lemma AppendAssoc<T>(a: seq<T>, b: seq<T>, c: seq<T>)
    ensures a + (b + c) == (a + b) + c
  {
  }

  /** One `conn.sendall` of text + "\n": delivered unless conn is broken. */
  function Attempt(conn: ConnId, broken: set<ConnId>, text: string): (out: seq<Send>)
    ensures |out| <= 1 && (out == [] <==> conn in broken)
    ensures forall x :: x in out ==> x == Send(conn, Frame(text))
  {
    if conn in broken then [] else [Send(conn, Frame(text))]
  }

  /** The WHO replies: one `USER <name>` per key, in dictionary order, each
      send guarded on its own. */
  function WhoReplies(names: seq<string>, conn: ConnId, broken: set<ConnId>): seq<Send>
  {
    if names == [] then []
    else WhoReplies(names[..|names| - 1], conn, broken) + Attempt(conn, broken, UserLine(names[|names| - 1]))
  }

  /** Dispatching one stripped, non-empty line of the session of `name` on
      connection `conn`. Only MSG changes the registry, through its
      broadcast; the replies of DM, of its format error and of an unknown
      command are unguarded, so they raise on a broken connection. */
  function LineEffect(m: Members, conn: ConnId, name: string, line: string, broken: set<ConnId>): (r: LineResult)
    requires Wf(m)
    ensures Wf(r.members)
  {
    match Parse(line)
    case Who => LineResult(m, WhoReplies(m.names, conn, broken), false)
    case Dm(target, text) =>
      if target in m.conns then
        var tc := m.conns[target];
        if tc in broken then LineResult(m, Attempt(conn, broken, SendFailed), conn in broken)
        else if conn in broken then LineResult(m, [Send(tc, Frame(DmLine(name, text)))], true)
        else LineResult(m, [Send(tc, Frame(DmLine(name, text))), Send(conn, Frame(DmLine(target, text)))], false)
      else LineResult(m, Attempt(conn, broken, UserNotFound(target)), conn in broken)
    case BadDm => LineResult(m, Attempt(conn, broken, InvalidDmFormat), conn in broken)
    case Ping => LineResult(m, Attempt(conn, broken, Pong), false)
    case Msg(text) =>
      LineResult(AfterBroadcast(m, None, broken), Fanout(m, Frame(MsgLine(name, text)), None, broken), false)
    case BareMsg => LineResult(m, [], false)
    case Unknown => LineResult(m, Attempt(conn, broken, UnknownCommand), conn in broken)
  }

  /** A broadcast only removes entries. */
  lemma BroadcastWithin(m: Members, exclude: Option<string>, broken: set<ConnId>)
    requires Wf(m)
    ensures Within(AfterBroadcast(m, exclude, broken).conns, m.conns)
  {
    BroadcastDropsExactlyFailed(m, exclude, broken);
  }

  /** `while "\n" in buffer`: cut off the text before the first newline,
      strip it, skip it when empty, dispatch it otherwise; stop when a
      dispatch raises. */
  function DrainEffect(m: Members, conn: ConnId, name: string, buffer: string, broken: set<ConnId>): (d: Drained)
    requires Wf(m)
    ensures Wf(d.members)
    decreases |buffer|
  {
    var parts := Split1(buffer, '\n');
    if |parts| == 1 then Drained(m, [], false, buffer)
    else
      var line := Strip(parts[0]);
      if line == "" then DrainEffect(m, conn, name, parts[1], broken)
      else
        var r := LineEffect(m, conn, name, line, broken);
        if r.fatal then Drained(r.members, r.out, true, parts[1])
        else
          var d := DrainEffect(r.members, conn, name, parts[1], broken);
          Drained(d.members, r.out + d.out, d.fatal, d.rest)
  }

  /** The cleanup once `username` is set: delete it from the registry when
      it is a key (whoever holds it), then broadcast its departure to
      everyone still registered. */
  function Farewell(m: Members, name: string, broken: set<ConnId>): (r: (Members, seq<Send>))
    requires Wf(m)
    ensures Wf(r.0)
  {
    var m1 := Unregister(m, name);
    (AfterBroadcast(m1, None, broken), Fanout(m1, Frame(Departed(name)), None, broken))
  }

  /** The session ends after `said` with `username` set to name. */
  function Closing(m: Members, name: string, said: seq<Send>, buffer: string, broken: set<ConnId>): (o: Outcome)
    requires Wf(m)
    ensures Wf(o.members)
  {
    var (m1, notices) := Farewell(m, name, broken);
    Outcome(m1, said + notices, State(Closed, Some(name), buffer))
  }

  /** The login phase on the first non-empty chunk. Before a username is
      assigned, a rejection only replies; after that, AdmitEffect. */
  function LoginEffect(m: Members, conn: ConnId, data: string, broken: set<ConnId>): (o: Outcome)
    requires Wf(m)
    ensures Wf(o.members) && Consistent(o.state) && o.state.phase != AwaitingLogin
  {
    match ParseLogin(data)
    case NotLogin => Outcome(m, Attempt(conn, broken, InvalidLogin), State(Closed, None, ""))
    case Blank => Outcome(m, Attempt(conn, broken, InvalidUsername), State(Closed, None, ""))
    case Name(name) => AdmitEffect(m, conn, name, broken)
  }

  /** Once `username` is set to the requested name: a name with a space
      or a taken name is refused and the cleanup runs for it, as it does
      when the OK cannot be sent; otherwise the name is registered, OK is
      sent and everyone else hears that it joined. */
  function AdmitEffect(m: Members, conn: ConnId, name: string, broken: set<ConnId>): (o: Outcome)
    requires Wf(m)
    ensures Wf(o.members) && Consistent(o.state) && o.state.phase != AwaitingLogin
    ensures o.state.username == Some(name)
  {
    if ' ' in name then Closing(m, name, Attempt(conn, broken, InvalidUsername), "", broken)
    else if name in m.conns then Closing(m, name, Attempt(conn, broken, UsernameTaken), "", broken)
    else
      var m1 := Register(m, name, conn);
      if conn in broken then Closing(m1, name, [], "", broken)
      else
        Outcome(AfterBroadcast(m1, Some(name), broken),
                [Send(conn, Frame(OkReply))] + Fanout(m1, Frame(Joined(name)), Some(name), broken),
                State(Active, Some(name), ""))
  }

  /** One step of the session on connection conn. */
  function StepEffect(m: Members, conn: ConnId, s: State, ev: Event, broken: set<ConnId>): (o: Outcome)
    requires Wf(m) && Consistent(s)
    ensures Wf(o.members) && Consistent(o.state)
  {
    match s.phase
    case Closed => Outcome(m, [], s)
    case AwaitingLogin => (
      match ev
      case Chunk(data) =>
        if data == "" then Outcome(m, [], State(Closed, None, s.buffer))
        else LoginEffect(m, conn, data, broken)
      case Timeout => Outcome(m, Attempt(conn, broken, IdleNotice), State(Closed, None, s.buffer))
      case Eof => Outcome(m, [], State(Closed, None, s.buffer))
      case Fault => Outcome(m, [], State(Closed, None, s.buffer)))
    case Active =>
      var name := s.username.value;
      match ev
      case Chunk(data) =>
        if data == "" then Closing(m, name, [], s.buffer, broken)
        else
          var d := DrainEffect(m, conn, name, s.buffer + data, broken);
          if d.fatal then Closing(d.members, name, d.out, d.rest, broken)
          else Outcome(d.members, d.out, State(Active, s.username, d.rest))
      case Timeout =>
        var (m1, first) := Farewell(m, name, broken);
        var (m2, second) := Farewell(m1, name, broken);
        Outcome(m2, Attempt(conn, broken, IdleNotice) + first + second, State(Closed, s.username, s.buffer))
      case Eof => Closing(m, name, [], s.buffer, broken)
      case Fault => Closing(m, name, [], s.buffer, broken)
  }

  /** The session of one connection: the locals of `handle_client`. */
  class Handler {
    const conn: ConnId
    var phase: Phase
    var username: Option<string>
    var buffer: string

    function Value(): State
      reads this
    {
      State(phase, username, buffer)
    }

    constructor (conn: ConnId)
      ensures this.conn == conn && Value() == Start()
    {
      this.conn := conn;
      phase := AwaitingLogin;
      username := None;
      buffer := "";
    }

    /** The WHO loop: `for user in clients`, each send guarded. */
    method ListUsers(reg: Clients, broken: set<ConnId>) returns (out: seq<Send>)
      ensures out == WhoReplies(reg.names, conn, broken)
    {
      var names := reg.names;
      out := [];
      var i := 0;
      while i < |names|
        invariant 0 <= i <= |names|
        invariant out == WhoReplies(names[..i], conn, broken)
      {
        assert names[..i + 1][..i] == names[..i];
        out := out + Attempt(conn, broken, UserLine(names[i]));
        i := i + 1;
      }
      assert names[..i] == names;
    }

    /** The body of the line loop for one stripped, non-empty line. */
    method HandleLine(reg: Clients, line: string, broken: set<ConnId>) returns (out: seq<Send>, fatal: bool)
      requires reg.Valid() && username.Some?
      modifies reg
      ensures reg.Valid()
      ensures LineEffect(old(reg.Value()), conn, username.value, line, broken)
        == LineResult(reg.Value(), out, fatal)
    {
      var name := username.value;
      var cmd := Parse(line);
      match cmd
      case Who =>
        out := ListUsers(reg, broken);
        fatal := false;
      case Dm(target, text) =>
        if target in reg.conns {
          var tc := reg.conns[target];
          if tc in broken {
            out := Attempt(conn, broken, SendFailed);
            fatal := conn in broken;
          } else {
            out := [Send(tc, Frame(DmLine(name, text)))];
            if conn in broken {
              fatal := true;
            } else {
              out := out + [Send(conn, Frame(DmLine(target, text)))];
              fatal := false;
            }
          }
        } else {
          out := Attempt(conn, broken, UserNotFound(target));
          fatal := conn in broken;
        }
      case BadDm =>
        out := Attempt(conn, broken, InvalidDmFormat);
        fatal := conn in broken;
      case Ping =>
        out := Attempt(conn, broken, Pong);
        fatal := false;
      case Msg(text) =>
        out := reg.Broadcast(MsgLine(name, text), None, broken);
        fatal := false;
      case BareMsg =>
        out := [];
        fatal := false;
      case Unknown =>
        out := Attempt(conn, broken, UnknownCommand);
        fatal := conn in broken;
    }

    /** `buffer += data`, then the inner `while "\n" in buffer` loop. */
    method Receive(reg: Clients, data: string, broken: set<ConnId>) returns (out: seq<Send>, fatal: bool)
      requires reg.Valid() && username.Some?
      modifies this`buffer, reg
      ensures reg.Valid()
      ensures DrainEffect(old(reg.Value()), conn, username.value, old(buffer) + data, broken)
        == Drained(reg.Value(), out, fatal, buffer)
    {
      ghost var m0 := reg.Value();
      ghost var b0 := buffer + data;
      var name := username.value;
      buffer := buffer + data;
      out, fatal := [], false;
      while '\n' in buffer
        invariant reg.Valid()
        invariant var d := DrainEffect(reg.Value(), conn, name, buffer, broken);
          DrainEffect(m0, conn, name, b0, broken) == Drained(d.members, out + d.out, d.fatal, d.rest)
        decreases |buffer|
      {
        var o, f := NextLine(reg, broken);
        ghost var d := DrainEffect(reg.Value(), conn, name, buffer, broken);
        AppendAssoc(out, o, d.out);
        out := out + o;
        if f {
          fatal := true;
          break;
        }
      }
    }

    /** One turn of the line loop: cut the buffer at its first newline and
        dispatch the stripped line unless it is empty. */
    method NextLine(reg: Clients, broken: set<ConnId>) returns (out: seq<Send>, fatal: bool)
      requires reg.Valid() && username.Some? && '\n' in buffer
      modifies this`buffer, reg
      ensures reg.Valid() && |buffer| < |old(buffer)|
      ensures var d := DrainEffect(reg.Value(), conn, username.value, buffer, broken);
        DrainEffect(old(reg.Value()), conn, username.value, old(buffer), broken)
          == if fatal then Drained(reg.Value(), out, true, buffer)
             else Drained(d.members, out + d.out, d.fatal, d.rest)
    {
      ghost var m0 := reg.Value();
      ghost var b0 := buffer;
      var parts := Split1(buffer, '\n');
      var line := Strip(parts[0]);
      buffer := parts[1];
      if line == "" {
        out, fatal := [], false;
        assert DrainEffect(m0, conn, username.value, b0, broken)
          == DrainEffect(m0, conn, username.value, buffer, broken);
      } else {
        out, fatal := HandleLine(reg, line, broken);
        ghost var d := DrainEffect(reg.Value(), conn, username.value, buffer, broken);
        assert DrainEffect(m0, conn, username.value, b0, broken)
          == if fatal then Drained(reg.Value(), out, true, buffer)
             else Drained(d.members, out + d.out, d.fatal, d.rest);
      }
    }

    /** The `finally` block (and the one in the timeout handler) when
      `username` is set. */
    method Cleanup(reg: Clients, name: string, broken: set<ConnId>) returns (out: seq<Send>)
      requires reg.Valid()
      modifies reg
      ensures reg.Valid()
      ensures Farewell(old(reg.Value()), name, broken) == (reg.Value(), out)
    {
      reg.Discard(name);
      out := reg.Broadcast(Departed(name), None, broken);
    }

    /** The login phase on the first non-empty chunk. */
    method Login(reg: Clients, data: string, broken: set<ConnId>) returns (out: seq<Send>)
      requires reg.Valid() && Value() == Start()
      modifies this, reg
      ensures reg.Valid()
      ensures LoginEffect(old(reg.Value()), conn, data, broken) == Outcome(reg.Value(), out, Value())
    {
      var line := Strip(data);
      if !StartsWith(line, "LOGIN ") {
        assert ParseLogin(data) == NotLogin;
        out := Attempt(conn, broken, InvalidLogin);
        phase := Closed;
        return;
      }
      var parts := Split1(line, ' ');
      LoginNeverBlank(data);
      if |parts| != 2 || Strip(parts[1]) == "" {
        // server.py replies ERR invalid-username here; the branch is dead.
        assert false;
      }
      var name := Strip(parts[1]);
      assert ParseLogin(data) == Name(name);
      assert LoginEffect(reg.Value(), conn, data, broken) == AdmitEffect(reg.Value(), conn, name, broken);
      out := Admit(reg, name, broken);
    }

    /** From `username = requested` to the end of the login phase. */
    method Admit(reg: Clients, name: string, broken: set<ConnId>) returns (out: seq<Send>)
      requires reg.Valid() && Value() == Start()
      modifies this, reg
      ensures reg.Valid()
      ensures AdmitEffect(old(reg.Value()), conn, name, broken) == Outcome(reg.Value(), out, Value())
    {
      username := Some(name);
      if ' ' in name || name in reg.conns {
        var said := Attempt(conn, broken, if ' ' in name then InvalidUsername else UsernameTaken);
        var notices := Cleanup(reg, name, broken);
        out := said + notices;
        phase := Closed;
        return;
      }
      reg.Add(name, conn);
      if conn in broken {
        out := Cleanup(reg, name, broken);
        phase := Closed;
        return;
      }
      var joined := reg.Broadcast(Joined(name), Some(name), broken);
      out := [Send(conn, Frame(OkReply))] + joined;
      phase := Active;
    }

    /** One step of `handle_client` on the next event of its connection. */
    method Step(reg: Clients, ev: Event, broken: set<ConnId>) returns (out: seq<Send>)
      requires reg.Valid() && Consistent(Value())
      modifies this, reg
      ensures reg.Valid() && Consistent(Value())
      ensures StepEffect(old(reg.Value()), conn, old(Value()), ev, broken) == Outcome(reg.Value(), out, Value())
    {
      if phase == Closed {
        out := [];
      } else if phase == AwaitingLogin {
        if ev.Chunk? && ev.data != "" {
          out := Login(reg, ev.data, broken);
        } else {
          out := if ev.Timeout? then Attempt(conn, broken, IdleNotice) else [];
          phase := Closed;
        }
      } else {
        var name := username.value;
        if ev.Chunk? && ev.data != "" {
          var fatal;
          out, fatal := Receive(reg, ev.data, broken);
          if fatal {
            var notices := Cleanup(reg, name, broken);
            out := out + notices;
            phase := Closed;
          }
        } else if ev.Timeout? {
          var notice := Attempt(conn, broken, IdleNotice);
          var first := Cleanup(reg, name, broken);
          var second := Cleanup(reg, name, broken);
          out := notice + first + second;
          phase := Closed;
        } else {
          out := Cleanup(reg, name, broken);
          phase := Closed;
        }
      }
    }
  }
}
