/** What one session step promises, stated on the effect functions of
    Session: the login outcomes, the command replies, the line
    reassembly, and the cleanup on the way out. */
module Properties {
  import opened Text
  import opened Protocol
  import opened Registry
  import opened Session

  // ---------------------------------------------------------------------
  // Cleanup
  // ---------------------------------------------------------------------

  /** `del clients[name]` when it is a key: exactly that key goes. */
  lemma UnregisterRemovesOne(m: Members, name: string)
    requires Wf(m)
    ensures Unregister(m, name).conns == m.conns - {name}
  {
    if name !in m.conns {
      assert m.conns - {name} == m.conns;
    }
  }

  /** Deleting the key that was added last gives back the old order. */
  lemma {:induction false} WithoutAppended(s: seq<string>, x: string)
    requires x !in s
    ensures Without(s + [x], x) == s
  {
    if s != [] {
      assert (s + [x])[1..] == s[1..] + [x];
      WithoutAppended(s[1..], x);
    }
  }

  /** The cleanup for a username: that key is gone whoever held it, every
      other member whose connection works stays with its connection and
      hears `INFO <name> disconnected`, and nothing else is sent. */
  lemma FarewellAnnouncesDeparture(m: Members, name: string, broken: set<ConnId>)
    requires Wf(m)
    ensures var (m1, out) := Farewell(m, name, broken);
      && name !in m1.conns
      && (forall n :: n in m1.conns <==> n in m.conns && n != name && m.conns[n] !in broken)
      && (forall n :: n in m1.conns ==> m1.conns[n] == m.conns[n])
      && (forall n :: n in m.conns && n != name && m.conns[n] !in broken ==>
            Send(m.conns[n], Frame(Departed(name))) in out)
      && (forall s :: s in out ==> s.frame == Frame(Departed(name)) && s.to !in broken)
      && out == Fanout(Unregister(m, name), Frame(Departed(name)), None, broken)
  {
    var m0 := Unregister(m, name);
    UnregisterRemovesOne(m, name);
    BroadcastDropsExactlyFailed(m0, None, broken);
    FanoutReachesEveryWorkingMember(m0, Frame(Departed(name)), None, broken);
  }

  /** A broadcast over a registry in which no connection is broken removes
      nobody. */
  lemma BroadcastKeepsWorkingRegistry(m: Members, exclude: Option<string>, broken: set<ConnId>)
    requires Wf(m)
    requires forall n :: n in m.conns ==> m.conns[n] !in broken
    ensures AfterBroadcast(m, exclude, broken) == m
  {
    PickExactly(m.names, m.conns, exclude, broken, true);
  }

  /** The cleanup is idempotent on the registry: running it again for the
      same name, with the same connections failing, removes nothing more,
      and it announces the departure again to every member that is left. */
  lemma FarewellTwice(m: Members, name: string, broken: set<ConnId>)
    requires Wf(m)
    ensures var (m1, first) := Farewell(m, name, broken);
      var (m2, second) := Farewell(m1, name, broken);
      && m2 == m1
      && forall n :: n in m1.conns ==>
           && Send(m1.conns[n], Frame(Departed(name))) in first
           && Send(m1.conns[n], Frame(Departed(name))) in second
  {
    var (m1, first) := Farewell(m, name, broken);
    FarewellAnnouncesDeparture(m, name, broken);
    FarewellAnnouncesDeparture(m1, name, broken);
    assert Unregister(m1, name) == m1;
    BroadcastKeepsWorkingRegistry(m1, None, broken);
  }

  /** An idle timeout of a logged-in session: the inactivity notice is
      attempted first, then the cleanup runs twice, so every member left
      hears the departure twice and the name is gone. */
  lemma TimeoutCleansUpTwice(m: Members, conn: ConnId, s: State, broken: set<ConnId>)
    requires Wf(m) && Consistent(s) && s.phase == Active
    ensures var o := StepEffect(m, conn, s, Timeout, broken);
      var (m1, first) := Farewell(m, s.username.value, broken);
      && o.state == State(Closed, s.username, s.buffer)
      && o.members == m1
      && s.username.value !in o.members.conns
      && o.out == Attempt(conn, broken, IdleNotice) + first + Farewell(m1, s.username.value, broken).1
      && forall n :: n in o.members.conns ==>
           && Send(o.members.conns[n], Frame(Departed(s.username.value))) in first
           && Send(o.members.conns[n], Frame(Departed(s.username.value))) in Farewell(m1, s.username.value, broken).1
  {
    FarewellTwice(m, s.username.value, broken);
  }

  /** EOF, an empty chunk or a failing recv of a logged-in session run the
      cleanup once and nothing else. */
  lemma ExitCleansUpOnce(m: Members, conn: ConnId, s: State, ev: Event, broken: set<ConnId>)
    requires Wf(m) && Consistent(s) && s.phase == Active
    requires ev == Eof || ev == Fault || ev == Chunk("")
    ensures var o := StepEffect(m, conn, s, ev, broken);
      o == Outcome(Farewell(m, s.username.value, broken).0, Farewell(m, s.username.value, broken).1,
                   State(Closed, s.username, s.buffer))
  {
  }

  // ---------------------------------------------------------------------
  // Login
  // ---------------------------------------------------------------------

  /** The name a login line asks for: the stripped text after the prefix. */
  function Requested(data: string): string
    requires StartsWith(Strip(data), "LOGIN ")
  {
    Strip(Strip(data)[6..])
  }

  /** A login line hands the stripped text after "LOGIN " to the
      admission, and that text is never empty. */
  lemma LoginIsAdmit(m: Members, conn: ConnId, data: string, broken: set<ConnId>)
    requires Wf(m) && StartsWith(Strip(data), "LOGIN ")
    ensures Requested(data) != ""
    ensures LoginEffect(m, conn, data, broken) == AdmitEffect(m, conn, Requested(data), broken)
  {
    LoginNeverBlank(data);
    assert ParseLogin(data) == Name(Requested(data));
  }

  /** Login succeeds exactly when the stripped chunk starts with "LOGIN ",
      the requested name holds no space and is not a key yet, and the OK
      can be written. */
  lemma LoginSucceedsIff(m: Members, conn: ConnId, data: string, broken: set<ConnId>)
    requires Wf(m)
    ensures LoginEffect(m, conn, data, broken).state.phase == Active <==>
      && StartsWith(Strip(data), "LOGIN ")
      && ' ' !in Requested(data)
      && Requested(data) !in m.conns
      && conn !in broken
  {
    if StartsWith(Strip(data), "LOGIN ") {
      LoginIsAdmit(m, conn, data, broken);
    } else {
      LoginRefused(m, conn, data, broken);
    }
  }

  /** A successful admission: the session is active under the name, the
      name is registered to this connection, OK is the first frame, and
      everyone else whose connection works hears the join notice; the
      members whose connection fails on it are dropped. */
  lemma AdmitAccepted(m: Members, conn: ConnId, name: string, broken: set<ConnId>)
    requires Wf(m)
    requires ' ' !in name && name !in m.conns && conn !in broken
    ensures var o := AdmitEffect(m, conn, name, broken);
      && o.state == State(Active, Some(name), "")
      && name in o.members.conns && o.members.conns[name] == conn
      && (forall n :: n in m.conns ==> (n in o.members.conns <==> m.conns[n] !in broken))
      && (forall n :: n in o.members.conns && n != name ==> n in m.conns && o.members.conns[n] == m.conns[n])
      && |o.out| >= 1 && o.out[0] == Send(conn, Frame(OkReply))
      && (forall n :: n in m.conns && m.conns[n] !in broken ==>
            Send(m.conns[n], Frame(Joined(name))) in o.out[1..])
      && (forall s :: s in o.out[1..] ==> s.frame == Frame(Joined(name)) && s.to !in broken)
  {
    var m1 := Register(m, name, conn);
    BroadcastDropsExactlyFailed(m1, Some(name), broken);
    FanoutReachesEveryWorkingMember(m1, Frame(Joined(name)), Some(name), broken);
    var o := AdmitEffect(m, conn, name, broken);
    assert o.out[1..] == Fanout(m1, Frame(Joined(name)), Some(name), broken);
  }

  /** A chunk that is not a login line gets ERR invalid-login and closes
      the connection before a username is assigned: nothing else is sent
      and the registry does not change. */
  lemma LoginRefused(m: Members, conn: ConnId, data: string, broken: set<ConnId>)
    requires Wf(m) && !StartsWith(Strip(data), "LOGIN ")
    ensures LoginEffect(m, conn, data, broken)
      == Outcome(m, Attempt(conn, broken, InvalidLogin), State(Closed, None, ""))
  {
    LoginNeverBlank(data);
  }

  /** A name with a space gets ERR invalid-username, a taken name ERR
      username-taken; either way the username is already set, so the
      cleanup runs for it: the name is no longer a key (a taken name's
      holder loses its entry) and the others hear that it disconnected. */
  lemma AdmitRejected(m: Members, conn: ConnId, name: string, broken: set<ConnId>)
    requires Wf(m)
    requires ' ' in name || name in m.conns
    ensures var o := AdmitEffect(m, conn, name, broken);
      var reply := if ' ' in name then InvalidUsername else UsernameTaken;
      && o.state == State(Closed, Some(name), "")
      && o.members == Farewell(m, name, broken).0
      && name !in o.members.conns
      && o.out == Attempt(conn, broken, reply) + Farewell(m, name, broken).1
  {
    FarewellAnnouncesDeparture(m, name, broken);
  }

  /** The OK reply cannot be written: the name was registered, and the
      cleanup takes it out again and announces a departure; the registry
      ends as if the name had never been added. */
  lemma AdmitOkFails(m: Members, conn: ConnId, name: string, broken: set<ConnId>)
    requires Wf(m)
    requires ' ' !in name && name !in m.conns && conn in broken
    ensures var o := AdmitEffect(m, conn, name, broken);
      && o.state == State(Closed, Some(name), "")
      && o.members == Farewell(m, name, broken).0
      && (forall n :: n in o.members.conns <==> n in m.conns && m.conns[n] !in broken)
      && o.out == Farewell(m, name, broken).1
  {
    var m1 := Register(m, name, conn);
    WithoutAppended(m.names, name);
    assert m1.conns - {name} == m.conns;
    assert Unregister(m1, name) == m == Unregister(m, name);
    FarewellAnnouncesDeparture(m, name, broken);
  }

  /** A session that ends before a username is assigned leaves the
      registry as it was and writes to nobody but its own connection.
      That is every first event but a chunk whose stripped text starts
      with "LOGIN ". */
  lemma NoUsernameNoSideEffects(m: Members, conn: ConnId, s: State, ev: Event, broken: set<ConnId>)
    requires Wf(m) && Consistent(s) && s.phase == AwaitingLogin
    ensures var o := StepEffect(m, conn, s, ev, broken);
      && (o.state.username == None <==> !(ev.Chunk? && StartsWith(Strip(ev.data), "LOGIN ")))
      && (o.state.username == None ==>
            o.members == m && forall x :: x in o.out ==> x.to == conn)
  {
    if ev.Chunk? && ev.data != "" {
      assert StepEffect(m, conn, s, ev, broken) == LoginEffect(m, conn, ev.data, broken);
      LoginLeavesOthersAlone(m, conn, ev.data, broken);
    } else if ev.Chunk? {
      assert Strip(ev.data) == "";
    }
  }

  /** The login chunk's part of the above. */
  lemma LoginLeavesOthersAlone(m: Members, conn: ConnId, data: string, broken: set<ConnId>)
    requires Wf(m)
    ensures var o := LoginEffect(m, conn, data, broken);
      && (o.state.username == None <==> !StartsWith(Strip(data), "LOGIN "))
      && (o.state.username == None ==>
            o.members == m && forall x :: x in o.out ==> x.to == conn)
  {
    if StartsWith(Strip(data), "LOGIN ") {
      LoginIsAdmit(m, conn, data, broken);
    } else {
      LoginRefused(m, conn, data, broken);
    }
  }

  // ---------------------------------------------------------------------
  // Commands
  // ---------------------------------------------------------------------

  /** The first space-separated token of a line, the one `upper()` is
      applied to. */
  function Head(line: string): string {
    Split1(line, ' ')[0]
  }

  /** The WHO replies: one `USER <name>` per name, in order, unless the
      connection is broken. */
  lemma {:induction false} WhoRepliesAt(names: seq<string>, conn: ConnId, broken: set<ConnId>)
    ensures conn in broken ==> WhoReplies(names, conn, broken) == []
    ensures conn !in broken ==>
      && |WhoReplies(names, conn, broken)| == |names|
      && forall k :: 0 <= k < |names| ==> WhoReplies(names, conn, broken)[k] == Send(conn, Frame(UserLine(names[k])))
  {
    if names != [] {
      WhoRepliesAt(names[..|names| - 1], conn, broken);
    }
  }

  /** WHO, in any letter case and with anything after it, lists every key
      in dictionary order (the caller's own name included) and changes
      nothing; a failing send is swallowed. */
  lemma WhoListsEveryName(m: Members, conn: ConnId, name: string, line: string, broken: set<ConnId>)
    requires Wf(m) && UpperEquals(Head(line), "WHO")
    ensures var r := LineEffect(m, conn, name, line, broken);
      && r.members == m && !r.fatal
      && (conn in broken ==> r.out == [])
      && (conn !in broken ==>
            && |r.out| == |m.names|
            && (forall k :: 0 <= k < |m.names| ==> r.out[k] == Send(conn, Frame(UserLine(m.names[k]))))
            && forall n :: n in m.conns ==> Send(conn, Frame(UserLine(n))) in r.out)
  {
    ParseClassifies(line);
    WhoRepliesAt(m.names, conn, broken);
    var r := LineEffect(m, conn, name, line, broken);
    if conn !in broken {
      forall n | n in m.conns ensures Send(conn, Frame(UserLine(n))) in r.out {
        var k :| 0 <= k < |m.names| && m.names[k] == n;
        assert r.out[k] == Send(conn, Frame(UserLine(n)));
      }
    }
  }

  /** PING, in any letter case, gets exactly PONG, and a failing send is
      swallowed. */
  lemma PingGetsPong(m: Members, conn: ConnId, name: string, line: string, broken: set<ConnId>)
    requires Wf(m) && UpperEquals(Head(line), "PING")
    ensures LineEffect(m, conn, name, line, broken) == LineResult(m, Attempt(conn, broken, Pong), false)
  {
    ParseClassifies(line);
  }

  /** Any other first token gets ERR unknown-command, which raises only
      when it cannot be written; the registry does not change. */
  lemma UnknownCommandReplied(m: Members, conn: ConnId, name: string, line: string, broken: set<ConnId>)
    requires Wf(m)
    requires !UpperEquals(Head(line), "WHO") && !UpperEquals(Head(line), "DM")
    requires !UpperEquals(Head(line), "PING") && !UpperEquals(Head(line), "MSG")
    ensures LineEffect(m, conn, name, line, broken)
      == LineResult(m, Attempt(conn, broken, UnknownCommand), conn in broken)
  {
    ParseClassifies(line);
  }

  /** DM in any letter case. Without both a target and a text after it,
      the reply is ERR invalid-dm-format. A registered target whose
      connection works gets `DM <sender> <text>` and the sender gets
      `DM <target> <text>`; when the target's send fails the sender gets
      ERR send-failed; an unknown target gets only ERR user-not-found
      back. No case changes the registry, and only a failing send to the
      sender itself raises. */
  lemma DmOutcomes(m: Members, conn: ConnId, name: string, line: string, broken: set<ConnId>)
    requires Wf(m) && UpperEquals(Head(line), "DM")
    ensures var r := LineEffect(m, conn, name, line, broken);
      var c := Parse(line);
      && r.members == m
      && (c.Dm? || c == BadDm)
      && (c == BadDm <==> ' ' !in line || ' ' !in Split1(line, ' ')[1])
      && (c == BadDm ==> r.out == Attempt(conn, broken, InvalidDmFormat) && r.fatal == (conn in broken))
      && (c.Dm? && c.target !in m.conns ==>
            r.out == Attempt(conn, broken, UserNotFound(c.target)) && r.fatal == (conn in broken))
      && (c.Dm? && c.target in m.conns && m.conns[c.target] in broken ==>
            r.out == Attempt(conn, broken, SendFailed) && r.fatal == (conn in broken))
      && (c.Dm? && c.target in m.conns && m.conns[c.target] !in broken ==>
            && r.out[0] == Send(m.conns[c.target], Frame(DmLine(name, c.text)))
            && r.fatal == (conn in broken)
            && (conn in broken ==> |r.out| == 1)
            && (conn !in broken ==> r.out == [r.out[0], Send(conn, Frame(DmLine(c.target, c.text)))]))
  {
    ParseClassifies(line);
  }

  /** MSG in any letter case: with text, `MSG <sender> <text>` goes to
      every registered member whose connection works, the sender included,
      and the members whose send fails are dropped; a bare MSG does
      nothing. Neither raises. */
  lemma MsgReachesEveryone(m: Members, conn: ConnId, name: string, line: string, broken: set<ConnId>)
    requires Wf(m) && UpperEquals(Head(line), "MSG")
    ensures var r := LineEffect(m, conn, name, line, broken);
      && !r.fatal
      && (UpperEquals(line, "MSG") ==> r == LineResult(m, [], false))
      && (!UpperEquals(line, "MSG") ==>
            && |line| >= 4
            && r.members == AfterBroadcast(m, None, broken)
            && (forall n :: n in m.conns && m.conns[n] !in broken ==>
                  Send(m.conns[n], Frame(MsgLine(name, line[4..]))) in r.out)
            && (name in m.conns && m.conns[name] !in broken ==>
                  Send(m.conns[name], Frame(MsgLine(name, line[4..]))) in r.out)
            && (forall s :: s in r.out ==> s.frame == Frame(MsgLine(name, line[4..])))
            && r.out == Fanout(m, Frame(MsgLine(name, line[4..])), None, broken))
  {
    ParseClassifies(line);
    if !UpperEquals(line, "MSG") {
      ParseMsgShape(line);
      var text := Parse(line).text;
      assert line[4..] == text;
      FanoutReachesEveryWorkingMember(m, Frame(MsgLine(name, text)), None, broken);
    }
  }

  /** What any line can do: raise only when a send to its own connection
      fails, change the registry only through MSG, and never add an
      entry or change one. */
  lemma LineEffectBounds(m: Members, conn: ConnId, name: string, line: string, broken: set<ConnId>)
    requires Wf(m)
    ensures var r := LineEffect(m, conn, name, line, broken);
      && (r.fatal ==> conn in broken)
      && (!Parse(line).Msg? ==> r.members == m)
      && Within(r.members.conns, m.conns)
  {
    if Parse(line).Msg? {
      BroadcastDropsExactlyFailed(m, None, broken);
    }
  }

  // ---------------------------------------------------------------------
  // Line reassembly
  // ---------------------------------------------------------------------

  /** Lines written one after the other, each followed by "\n". */
  function JoinLines(lines: seq<string>): string {
    if lines == [] then "" else lines[0] + "\n" + JoinLines(lines[1..])
  }

  /** The reference for the line loop: the already separated lines are
      stripped and, when not empty, dispatched in order until one raises;
      the rest of the input stays buffered. */
  function RunLines(m: Members, conn: ConnId, name: string, lines: seq<string>, tail: string,
                    broken: set<ConnId>): Drained
    requires Wf(m)
    decreases |lines|
  {
    if lines == [] then Drained(m, [], false, tail)
    else
      var line := Strip(lines[0]);
      if line == "" then RunLines(m, conn, name, lines[1..], tail, broken)
      else
        var r := LineEffect(m, conn, name, line, broken);
        if r.fatal then Drained(r.members, r.out, true, JoinLines(lines[1..]) + tail)
        else
          var d := RunLines(r.members, conn, name, lines[1..], tail, broken);
          Drained(d.members, r.out + d.out, d.fatal, d.rest)
  }

  /** The line loop over a buffer made of complete lines and a partial one
      processes exactly those lines, in arrival order, each stripped, the
      empty ones skipped; unless a line raises, the partial line is left in
      the buffer. */
  lemma {:induction false} DrainIsLineByLine(m: Members, conn: ConnId, name: string, lines: seq<string>,
                                             tail: string, broken: set<ConnId>)
    requires Wf(m)
    requires forall i :: 0 <= i < |lines| ==> '\n' !in lines[i]
    requires '\n' !in tail
    ensures DrainEffect(m, conn, name, JoinLines(lines) + tail, broken) == RunLines(m, conn, name, lines, tail, broken)
    ensures !RunLines(m, conn, name, lines, tail, broken).fatal ==> RunLines(m, conn, name, lines, tail, broken).rest == tail
    decreases |lines|
  {
    if lines == [] {
      assert JoinLines(lines) + tail == tail;
    } else {
      var rest := JoinLines(lines[1..]) + tail;
      assert JoinLines(lines) + tail == lines[0] + ['\n'] + rest;
      Split1Of(lines[0], '\n', rest);
      var line := Strip(lines[0]);
      if line == "" {
        DrainIsLineByLine(m, conn, name, lines[1..], tail, broken);
      } else {
        var r := LineEffect(m, conn, name, line, broken);
        if !r.fatal {
          DrainIsLineByLine(r.members, conn, name, lines[1..], tail, broken);
        }
      }
    }
  }

  /** Where the input is cut into chunks does not matter to the line loop:
      running it over a + b is running it over a and then over what a left
      in the buffer followed by b, unless a line of a raised. */
  lemma {:induction false} DrainAcrossChunks(m: Members, conn: ConnId, name: string, a: string, b: string,
                                             broken: set<ConnId>)
    requires Wf(m)
    ensures var d1 := DrainEffect(m, conn, name, a, broken);
      && (d1.fatal ==> DrainEffect(m, conn, name, a + b, broken) == Drained(d1.members, d1.out, true, d1.rest + b))
      && (!d1.fatal ==>
            var d2 := DrainEffect(d1.members, conn, name, d1.rest + b, broken);
            DrainEffect(m, conn, name, a + b, broken) == Drained(d2.members, d1.out + d2.out, d2.fatal, d2.rest))
    decreases |a|
  {
    var parts := Split1(a, '\n');
    if |parts| == 2 {
      var h, a' := parts[0], parts[1];
      assert a + b == h + ['\n'] + (a' + b);
      Split1Of(h, '\n', a' + b);
      var line := Strip(h);
      if line == "" {
        DrainAcrossChunks(m, conn, name, a', b, broken);
      } else {
        var r := LineEffect(m, conn, name, line, broken);
        if !r.fatal {
          DrainAcrossChunks(r.members, conn, name, a', b, broken);
          var d1' := DrainEffect(r.members, conn, name, a', broken);
          if !d1'.fatal {
            var d2 := DrainEffect(d1'.members, conn, name, d1'.rest + b, broken);
            AppendAssoc(r.out, d1'.out, d2.out);
          }
        }
      }
    } else {
      assert [] + DrainEffect(m, conn, name, a + b, broken).out == DrainEffect(m, conn, name, a + b, broken).out;
    }
  }

  /** The same for whole steps of a logged-in session: two chunks in a row
      deliver what their concatenation delivers and leave the same
      registry, and the same session unless the first one ended it. */
  lemma ChunkBoundariesDoNotMatter(m: Members, conn: ConnId, s: State, a: string, b: string,
                                   broken: set<ConnId>)
    requires Wf(m) && Consistent(s) && s.phase == Active && a != "" && b != ""
    ensures var o1 := StepEffect(m, conn, s, Chunk(a), broken);
      var o2 := StepEffect(o1.members, conn, o1.state, Chunk(b), broken);
      var o := StepEffect(m, conn, s, Chunk(a + b), broken);
      && o.members == o2.members
      && o.out == o1.out + o2.out
      && (o1.state.phase == Active ==> o.state == o2.state)
  {
    var name := s.username.value;
    assert s.buffer + (a + b) == (s.buffer + a) + b;
    DrainAcrossChunks(m, conn, name, s.buffer + a, b, broken);
    var d1 := DrainEffect(m, conn, name, s.buffer + a, broken);
    var o1 := StepEffect(m, conn, s, Chunk(a), broken);
    if d1.fatal {
      assert o1 == Closing(d1.members, name, d1.out, d1.rest, broken);
      assert o1.out + [] == o1.out;
    } else {
      assert o1 == Outcome(d1.members, d1.out, State(Active, s.username, d1.rest));
      var d2 := DrainEffect(d1.members, conn, name, d1.rest + b, broken);
      if d2.fatal {
        AppendAssoc(d1.out, d2.out, Farewell(d2.members, name, broken).1);
      }
    }
  }

  /** `strip` leaves alone a text that starts and ends with a character
      that is not whitespace, whatever lies in between. */
  lemma StripTrimmed(t: string)
    requires t != [] && !IsSpace(t[0]) && !IsSpace(t[|t| - 1])
    ensures Strip(t) == t
  {
    assert LStrip(t) == t;
    assert RStrip(t) == t;
  }

  /** A login line whose name part starts and ends with a character that
      is not whitespace asks for exactly that text, newlines, tabs and
      spaces inside it included. */
  lemma LoginAsksForWholeRest(name: string)
    requires name != [] && !IsSpace(name[0]) && !IsSpace(name[|name| - 1])
    ensures ParseLogin("LOGIN " + name) == Name(name)
  {
    var data := "LOGIN " + name;
    StripTrimmed(data);
    assert data[..6] == "LOGIN ";
    assert data == "LOGIN" + [' '] + name;
    Split1Of("LOGIN", ' ', name);
    StripTrimmed(name);
  }

  /** The login phase does not split on "\n": the whole first chunk is the
      login line, so a chunk carrying a LOGIN and a command asks for a name
      made of both (`LOGIN bob\nWHO` asks for `bob\nWHO`). */
  lemma LoginChunkNotSplit(user: string, command: string)
    requires user != [] && !IsSpace(user[0])
    requires command != [] && !IsSpace(command[|command| - 1])
    ensures ParseLogin("LOGIN " + user + "\n" + command) == Name(user + "\n" + command)
  {
    var name := user + "\n" + command;
    assert name[0] == user[0] && name[|name| - 1] == command[|command| - 1];
    LoginAsksForWholeRest(name);
    AppendAssoc("LOGIN ", user, "\n");
    AppendAssoc("LOGIN ", user + "\n", command);
  }
}
