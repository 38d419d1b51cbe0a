/** The wire protocol of the chat server: the commands a logged-in client
    sends, how one received line is tokenised into a command, how the login
    line is taken apart, and the frames the server writes back. */
module Protocol {
  import opened Text

  datatype Option<+T> = None | Some(value: T)

  /** An opaque handle for one accepted connection. */
  type ConnId = nat

  /** One frame written to one connection: `frame` includes its "\n". */
  datatype Send = Send(to: ConnId, frame: string)

  /** text + "\n": every frame the server writes ends with a newline. */
  function Frame(text: string): (f: string)
    ensures |f| == |text| + 1 && f[..|text|] == text && f[|text|] == '\n'
  {
    text + "\n"
  }

  // The fixed replies and notices.
  const OkReply := "OK"
  const InvalidLogin := "ERR invalid-login"
  const InvalidUsername := "ERR invalid-username"
  const UsernameTaken := "ERR username-taken"
  const InvalidDmFormat := "ERR invalid-dm-format"
  const SendFailed := "ERR send-failed"
  const UnknownCommand := "ERR unknown-command"
  const Pong := "PONG"
  const IdleNotice := "INFO You have been disconnected due to inactivity"

  function UserNotFound(target: string): string { "ERR user-not-found " + target }
  function UserLine(name: string): string { "USER " + name }
  function DmLine(peer: string, text: string): string { "DM " + peer + " " + text }
  function MsgLine(sender: string, text: string): string { "MSG " + sender + " " + text }
  function Joined(name: string): string { "INFO " + name + " joined" }
  function Departed(name: string): string { "INFO " + name + " disconnected" }

  /** What one stripped, non-empty line of a logged-in session asks for.
      BadDm is a DM without both a target and a text; BareMsg is a MSG
      without text; Unknown is any other first token. */
  datatype Command =
    | Who
    | Dm(target: string, text: string)
    | BadDm
    | Ping
    | Msg(text: string)
    | BareMsg
    | Unknown

  /** The tokenising of one line: split once on the first space, compare
      the upper-cased first token with the command names, and for DM split
      the rest once more. Only ' ' separates tokens; other whitespace stays
      part of a token. */
  function Parse(line: string): Command
  {
    var parts := Split1(line, ' ');
    var cmd := parts[0];
    if UpperEquals(cmd, "WHO") then Who
    else if UpperEquals(cmd, "DM") then
      if |parts| < 2 then BadDm
      else
        var dm := Split1(parts[1], ' ');
        if |dm| < 2 then BadDm else Dm(dm[0], dm[1])
    else if UpperEquals(cmd, "PING") then Ping
    else if UpperEquals(cmd, "MSG") then
      if |parts| < 2 then BareMsg else Msg(parts[1])
    else Unknown
  }

  /** A token matches at most one command name, and a token that matches
      one holds no space. */
  lemma KeywordsExclusive(tok: string)
    ensures UpperEquals(tok, "WHO") ==> !UpperEquals(tok, "MSG")
    ensures UpperEquals(tok, "MSG") ==> ' ' !in tok
  {
    if UpperEquals(tok, "WHO") {
      assert UpperIs(tok[0], 'W');
    }
    if UpperEquals(tok, "MSG") {
      assert UpperIs(tok[0], 'M') && UpperIs(tok[1], 'S') && UpperIs(tok[2], 'G');
    }
  }

  /** Command names are compared after upper-casing, so their case does
      not matter, while the rest of the line is kept as written. */
  lemma CommandsIgnoreCase()
    ensures Parse("who") == Who && Parse("Ping") == Ping && Parse("mSg Hi") == Msg("Hi")
  {
    LowerWho();
    MixedPing();
    MixedMsg();
  }

  lemma LowerWho()
    ensures Parse("who") == Who
  {
    assert Split1("who", ' ') == ["who"];
    assert UpperEquals("who", "WHO");
  }

  lemma MixedPing()
    ensures Parse("Ping") == Ping
  {
    assert Split1("Ping", ' ') == ["Ping"];
    assert UpperEquals("Ping", "PING");
    assert !UpperEquals("Ping", "WHO") && !UpperEquals("Ping", "DM");
  }

  lemma MixedMsg()
    ensures Parse("mSg Hi") == Msg("Hi")
  {
    assert "mSg Hi" == "mSg" + [' '] + "Hi";
    Split1Of("mSg", ' ', "Hi");
    assert UpperEquals("mSg", "MSG");
    assert !UpperEquals("mSg", "WHO") && !UpperEquals("mSg", "DM") && !UpperEquals("mSg", "PING");
  }

  /** Which command a line is, in terms of its first space-separated token:
      the first token decides, compared after upper-casing, and a token
      that is none of WHO, DM, PING and MSG is an unknown command. */
  lemma ParseClassifies(line: string)
    ensures var tok := Split1(line, ' ')[0];
      && (Parse(line) == Who <==> UpperEquals(tok, "WHO"))
      && (Parse(line) == Ping <==> UpperEquals(tok, "PING"))
      && ((Parse(line).Dm? || Parse(line) == BadDm) <==> UpperEquals(tok, "DM"))
      && ((Parse(line).Msg? || Parse(line) == BareMsg) <==> UpperEquals(tok, "MSG"))
      && (Parse(line) == Unknown <==>
            !UpperEquals(tok, "WHO") && !UpperEquals(tok, "DM")
            && !UpperEquals(tok, "PING") && !UpperEquals(tok, "MSG"))
    ensures Parse(line) == BareMsg <==> UpperEquals(line, "MSG")
  {
    var parts := Split1(line, ' ');
    KeywordsExclusive(parts[0]);
    KeywordsExclusive(line);
  }

  /** A DM line is the DM keyword, a space, a target without spaces, a
      space and the text, which is kept verbatim. */
  lemma ParseDmShape(line: string)
    requires Parse(line).Dm?
    ensures var c := Parse(line);
      && ' ' !in c.target && |line| >= 2 && UpperEquals(line[..2], "DM")
      && line == line[..2] + " " + c.target + " " + c.text
  {
    var parts := Split1(line, ' ');
    var dm := Split1(parts[1], ' ');
    assert |parts[0]| == 2;
    assert line == parts[0] + [' '] + (dm[0] + [' '] + dm[1]);
    assert line[..2] == parts[0];
  }

  /** A MSG line is the MSG keyword, a space and the text, verbatim. */
  lemma ParseMsgShape(line: string)
    requires Parse(line).Msg?
    ensures var c := Parse(line);
      && |line| >= 3 && UpperEquals(line[..3], "MSG") && line == line[..3] + " " + c.text
  {
    var parts := Split1(line, ' ');
    assert |parts[0]| == 3;
    assert line == parts[0] + [' '] + parts[1];
    assert line[..3] == parts[0];
  }

  /** The commands the terminal client puts on the wire: WHO, a DM whose
      target holds no space (the client ends it at the first space), and
      MSG for any other text. */
  predicate Sendable(c: Command) {
    match c
    case Who => true
    case Dm(target, _) => ' ' !in target
    case Msg(_) => true
    case _ => false
  }

  /** The line a client writes for a command (without its "\n"). */
  function Render(c: Command): string
    requires Sendable(c)
  {
    match c
    case Who => "WHO"
    case Dm(target, text) => "DM " + target + " " + text
    case Msg(text) => "MSG " + text
  }

  /** Tokenising gives back every command a client can write. */
  lemma ParseRender(c: Command)
    requires Sendable(c)
    ensures Parse(Render(c)) == c
  {
    match c
    case Who =>
    case Dm(target, text) => ParseRenderDm(target, text);
    case Msg(text) => ParseRenderMsg(text);
  }

  lemma ParseRenderDm(target: string, text: string)
    requires ' ' !in target
    ensures Parse("DM " + target + " " + text) == Dm(target, text)
  {
    var rest := target + " " + text;
    var line := "DM " + target + " " + text;
    assert line == "DM" + [' '] + rest;
    Split1Of("DM", ' ', rest);
    assert rest == target + [' '] + text;
    Split1Of(target, ' ', text);
    assert UpperEquals("DM", "DM");
  }

  lemma ParseRenderMsg(text: string)
    ensures Parse("MSG " + text) == Msg(text)
  {
    assert "MSG " + text == "MSG" + [' '] + text;
    Split1Of("MSG", ' ', text);
    assert UpperEquals("MSG", "MSG");
    KeywordsExclusive("MSG");
  }

  /** What the server makes of a command a client wrote. The server strips
      the line before tokenising it, so the trailing whitespace of a text is
      lost, and a text of whitespace only arrives as a DM without text or
      as a bare MSG. */
  function Received(c: Command): Command
    requires Sendable(c)
  {
    match c
    case Who => Who
    case Dm(target, text) => if AllSpace(text) then BadDm else Dm(target, RStrip(text))
    case Msg(text) => if AllSpace(text) then BareMsg else Msg(RStrip(text))
    case _ => c
  }

  /** The stripped line the server dispatches for a command a client wrote
      is parsed as `Received` says. */
  lemma ServerReadsRender(c: Command)
    requires Sendable(c)
    ensures Parse(Strip(Render(c))) == Received(c)
  {
    match c
    case Who =>
      StripWho();
    case Dm(target, text) =>
      assert Render(c) == "DM " + target + " " + text;
      ServerReadsDm(target, text);
    case Msg(text) =>
      assert Render(c) == "MSG " + text;
      ServerReadsMsg(text);
  }

  lemma StripWho()
    ensures Parse(Strip("WHO")) == Who
  {
    LStripKeeps("WHO");
    assert Strip("WHO") == "WHO";
    assert Split1("WHO", ' ') == ["WHO"];
    assert UpperEquals("WHO", "WHO");
  }

  lemma ServerReadsDm(target: string, text: string)
    requires ' ' !in target
    ensures Parse(Strip("DM " + target + " " + text))
            == if AllSpace(text) then BadDm else Dm(target, RStrip(text))
  {
    if AllSpace(text) {
      StripBlankDm(target, text);
    } else {
      StripFullDm(target, text);
    }
  }

  lemma StripFullDm(target: string, text: string)
    requires ' ' !in target && !AllSpace(text)
    ensures Parse(Strip("DM " + target + " " + text)) == Dm(target, RStrip(text))
  {
    StripAfter("DM " + target + " ", text);
    ParseRenderDm(target, RStrip(text));
  }

  lemma ServerReadsMsg(text: string)
    ensures Parse(Strip("MSG " + text)) == if AllSpace(text) then BareMsg else Msg(RStrip(text))
  {
    if AllSpace(text) {
      StripBlankMsg(text);
    } else {
      StripFullMsg(text);
    }
  }

  lemma StripBlankMsg(text: string)
    requires AllSpace(text)
    ensures Parse(Strip("MSG " + text)) == BareMsg
  {
    StripBlankTail("MSG ", text);
    KeywordAlone("MSG");
    assert Strip("MSG " + text) == "MSG";
    ParseBareMsg();
  }

  lemma StripFullMsg(text: string)
    requires !AllSpace(text)
    ensures Parse(Strip("MSG " + text)) == Msg(RStrip(text))
  {
    StripAfter("MSG ", text);
    ParseRenderMsg(RStrip(text));
  }

  /** A DM whose text is all whitespace strips to `DM` or `DM <target>`
      and is refused as malformed. */
  lemma StripBlankDm(target: string, text: string)
    requires ' ' !in target && AllSpace(text)
    ensures Parse(Strip("DM " + target + " " + text)) == BadDm
  {
    DmBlankTail(target, text);
    RStripAppend("DM ", target);
    if AllSpace(target) {
      ParseDmSpace();
    } else {
      ParseDmStripped(target);
    }
  }

  lemma DmBlankTail(target: string, text: string)
    requires AllSpace(text)
    ensures Strip("DM " + target + " " + text) == RStrip("DM " + target)
  {
    var head := "DM " + target;
    assert "DM " + target + " " + text == head + (" " + text);
    assert AllSpace(" " + text) by { AllSpaceAppend(" ", text); }
    StripBlankTail(head, " " + text);
  }

  lemma ParseDmStripped(target: string)
    requires ' ' !in target
    ensures Parse("DM " + RStrip(target)) == BadDm
  {
    var rt := RStrip(target);
    assert ' ' !in rt by { assert rt == target[..|rt|]; }
    ParseDmWithoutText(rt);
  }

  /** A keyword followed by one space rstrips to the keyword. */
  lemma KeywordAlone(kw: string)
    requires kw != [] && !IsSpace(kw[|kw| - 1])
    ensures RStrip(kw + " ") == kw
  {
    var s := kw + " ";
    assert s[|s| - 1] == ' ';
    assert s[..|s| - 1] == kw;
  }

  lemma ParseDmSpace()
    ensures Parse(RStrip("DM ")) == BadDm
  {
    KeywordAlone("DM");
    assert "DM " == "DM" + " ";
    ParseBareDm();
  }

  lemma ParseBareDm()
    ensures Parse("DM") == BadDm
  {
    assert Split1("DM", ' ') == ["DM"];
    assert UpperEquals("DM", "DM");
  }

  lemma ParseBareMsg()
    ensures Parse("MSG") == BareMsg
  {
    assert Split1("MSG", ' ') == ["MSG"];
    assert UpperEquals("MSG", "MSG");
  }

  /** `DM <target>` without a text is malformed. */
  lemma ParseDmWithoutText(target: string)
    requires ' ' !in target
    ensures Parse("DM " + target) == BadDm
  {
    assert "DM " + target == "DM" + [' '] + target;
    Split1Of("DM", ' ', target);
    assert UpperEquals("DM", "DM");
  }

  /** A command whose text ends in a non-whitespace character reaches the
      server unchanged. */
  lemma TrimmedCommandsArrive(c: Command)
    requires Sendable(c)
    requires c.Dm? || c.Msg? ==> c.text != [] && !IsSpace(c.text[|c.text| - 1])
    ensures Parse(Strip(Render(c))) == c
  {
    match c
    case Who =>
      StripWho();
    case Dm(target, text) =>
      assert Render(c) == "DM " + target + " " + text;
      RStripKeeps(text);
      StripFullDm(target, text);
    case Msg(text) =>
      assert Render(c) == "MSG " + text;
      RStripKeeps(text);
      StripFullMsg(text);
  }

  /** The first received chunk of a connection, taken apart as a login:
      NotLogin when its stripped text does not start with "LOGIN " (a
      case-sensitive test), Blank when nothing but whitespace follows, and
      otherwise the requested name, stripped. */
  datatype LoginRequest = NotLogin | Blank | Name(name: string)

  function ParseLogin(data: string): LoginRequest
  {
    var line := Strip(data);
    if !StartsWith(line, "LOGIN ") then NotLogin
    else
      var parts := Split1(line, ' ');
      if |parts| != 2 || Strip(parts[1]) == "" then Blank
      else Name(Strip(parts[1]))
  }

  /** The Blank outcome cannot happen: a stripped line that starts with
      "LOGIN " does not end in a space, so something other than whitespace
      follows the prefix. A requested name is never empty, and it is the
      stripped text after "LOGIN ". */
  lemma LoginNeverBlank(data: string)
    ensures ParseLogin(data) != Blank
    ensures ParseLogin(data).Name? ==> && ParseLogin(data).name != ""
                                       && ParseLogin(data).name == Strip(Strip(data)[6..])
    ensures ParseLogin(data) == NotLogin <==> !StartsWith(Strip(data), "LOGIN ")
  {
    var line := Strip(data);
    if StartsWith(line, "LOGIN ") {
      assert line[5] == ' ';
      assert |line| != 6;
      var rest := line[6..];
      assert line == "LOGIN" + [' '] + rest;
      Split1Of("LOGIN", ' ', rest);
      assert Split1(line, ' ') == ["LOGIN", rest];
      assert rest[|rest| - 1] == line[|line| - 1];
      assert Strip(rest) != "";
    }
  }
}
