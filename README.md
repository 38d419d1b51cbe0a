# A verified model of a line-oriented TCP chat server

The server keeps a registry `clients` that maps each username to its
connection. One handler runs per connection and goes through three phases:

- **Login.** The first chunk received must be `LOGIN <name>`. The name must
  hold no space and must not already be registered. On success the server
  answers `OK` and announces `INFO <name> joined` to everyone else.
- **Active.** Received data is buffered and split into `\n`-terminated lines.
  Each stripped, non-empty line is dispatched to one of `WHO`, `DM`, `PING`,
  `MSG` or the unknown-command reply.
- **Exit.** On end of input, error or idle timeout, the handler unregisters its
  name and broadcasts `INFO <name> disconnected`.

`broadcast` writes a frame to every registered member except an optional
excluded name. It then deletes every member whose write failed.

The model is a sequential state machine. Each event one session handles
is one atomic step: a received chunk, end of input, an idle timeout or a
fault. The step includes every block the server runs under `clients_lock`
while handling that event. Sockets become two things:

- **Connection ids.** Each connection is a number, `ConnId`.
- **A failure oracle.** Every step takes a set `broken` of connection ids whose
  writes fail during that step.

A step's output is the sequence of `Send(to, frame)` that were actually
delivered. A write to the session's own connection that is not inside a
`try` raises. The model calls that step fatal: it leads to the generic
`except` path and then to the `finally` cleanup.

## Files

- **`text.dfy` (module `Text`).** Python's `str.strip()` (the `isspace`
  set), `startswith`, `split(sep, 1)`, and how `upper()` compares a token
  with a command name.
- **`protocol.dfy` (module `Protocol`).** Reply frames, the parse of one
  command line into a `Command`, and the parse of the login chunk. It also
  has the client's rendering of commands (`client.py:66-75`). Two proofs go
  with it. The tokeniser inverts the rendering. The server strips each line
  before tokenising it, so the command it reads back is `Received(c)`: the
  command itself, except that trailing whitespace of a text is lost, and a
  text of whitespace only arrives as a malformed DM or a bare MSG.
- **`registry.dfy` (module `Registry`).** The registry as a value. `Members`
  keeps the names in dict insertion order, plus the name→connection map. It
  also has `broadcast` as specification functions, and the class `Clients`.
  `Clients` has the two loops of `broadcast`, a send loop and a deletion
  loop, proved against those functions.
- **`session.dfy` (module `Session`).** The per-connection state (`phase`,
  `username`, `buffer`) and the effect of every event as pure functions. It
  also has the class `Handler`, whose methods update the session and the
  registry in place. `Receive` holds the `while "\n" in buffer` loop. Each
  method is proved equal to its effect function.
- **`properties.dfy` (module `Properties`).** The behaviour the server
  promises, stated and proved about the effect functions: login, commands,
  reassembly and cleanup.
- **`server.dfy` (module `Server`).** All sessions together with the
  registry, and an invariant kept by every step of every session. The
  invariant: each registered name belongs to an active session logged in
  under that name. This module also proves that a second login under a
  registered name evicts the holder.

## Behaviour modelled as the code has it

Where a description of the protocol and the code differ, the model follows
`server.py`:

- **`MSG` reaches its sender.** `broadcast` is called without `exclude`
  (`server.py:169`), so the sender receives its own message
  (`Properties.MsgReachesEveryone`).
- **A duplicate login evicts the holder.** `username` is assigned before the
  duplicate check (`server.py:74`), so the `finally` cleanup also runs for a
  rejected name. On a duplicate, the cleanup deletes the holder's entry and
  announces the holder's name as disconnected. The holder's session stays
  active without an entry, and a later login can take the name again
  (`Server.DuplicateLoginEvictsHolder`, `Server.NameTakenTwice`).
- **An idle timeout cleans up twice.** The cleanup runs once in the
  `socket.timeout` handler and again in `finally`
  (`Properties.TimeoutCleansUpTwice`).
- **A timeout before login still sends the notice.** The inactivity notice is
  also attempted on a timeout during login. No username is set then, so
  nothing else happens.
- **The invalid-username check at `server.py:69-72` is unreachable.** After the
  strip at `:59`, a line starting with `LOGIN ` always has a non-empty rest
  (`Protocol.LoginNeverBlank`). `Session.Handler.Login` proves that branch
  dead.
- **The login chunk is not split into lines.** The whole stripped first chunk
  is the login line (`Properties.LoginChunkNotSplit`). The `LOGIN ` prefix is
  case-sensitive, while later commands are compared through `upper()`.
- **Trailing whitespace of a text is lost.** Each line is stripped before
  it is tokenised (`server.py:112`). So `MSG hi  ` arrives as the text `hi`,
  and a `MSG` or `DM` whose text is only whitespace arrives as a bare `MSG`
  (ignored) or a malformed `DM` (`Protocol.ServerReadsRender`).
- **A login can also fail on the `OK` write.** If the `OK` reply cannot be
  written, the login fails after all. The name was already registered, so the
  cleanup removes it and announces a departure (`Properties.AdmitOkFails`).

## Model

| member | source | states |
|---|---|---|
| Text.Strip | server.py:59 | exactly the whitespace at the ends goes: the result is a slice of the input with only whitespace before and after it, it neither starts nor ends with whitespace, and it is empty exactly when the input is all whitespace |
| Text.LStrip | server.py:59 | the result is a suffix of the input, everything before it is whitespace, it does not start with whitespace, and it is empty exactly when the input is all whitespace |
| Text.RStrip | server.py:59 | the result is a prefix of the input, everything after it is whitespace, it does not end with whitespace, and it is empty exactly when the input is all whitespace |
| Text.LStripExactly | server.py:59 | whitespace followed by a text that does not start with whitespace lstrips to that text |
| Text.RStripExactly | server.py:59 | a text that does not end with whitespace, followed by whitespace, rstrips to that text |
| Text.StripExactly | server.py:59 | whitespace, a text that neither starts nor ends with whitespace, and whitespace again strip to that text |
| Text.LStripKeeps | server.py:112 | a text that starts with non-whitespace is not changed by `lstrip`, so `strip` is `rstrip` on it |
| Text.RStripKeeps | server.py:112 | a text that ends with non-whitespace is not changed by `rstrip` and is not all whitespace |
| Text.RStripAppend | server.py:112 | `rstrip` of `p + text` is `rstrip` of `p` when `text` is all whitespace, and otherwise `p` followed by `rstrip` of `text` |
| Text.StripBlankTail | server.py:112 | a text that starts with non-whitespace and ends in a whitespace run strips to `rstrip` of what precedes the run |
| Text.StripAfter | server.py:112 | a text that starts with non-whitespace keeps that start and has the rest rstripped, when the rest is not all whitespace |
| Text.AllSpaceAppend | server.py:112 | two whitespace runs together are a whitespace run |
| Text.IndexOf | server.py:110 | the first position of the character, or the length when it does not occur: no earlier occurrence, and the found position holds it |
| Text.IsSpace | server.py:59 | the characters `str.isspace` accepts, the set `strip` removes; `Text.Strip` and the lemmas above state what removing them means |
| Text.StartsWith | server.py:62 | `startswith`: the prefix is the start of the text; `Protocol.LoginNeverBlank` relies on it |
| Text.UpperIs | server.py:119 | the characters whose `upper()` is a given upper-case ASCII letter: the letter, its lower-case form, and U+0131 and U+017F; stated by its definition, which `Protocol.ParseClassifies` uses for every line |
| Text.UpperEquals | server.py:119-122 | `tok.upper() == kw`: equal length, and each character upper-cases to the keyword's letter, by its definition with `Text.UpperIs`; for every line, `Protocol.ParseClassifies` shows this comparison alone picks the branch, and `Protocol.KeywordsExclusive` proves the command names exclusive |
| Text.Split1 | server.py:111 | `split(sep, 1)`: one part iff `sep` does not occur; otherwise the input is the first part, `sep`, and the rest, and the first part holds no `sep` |
| Text.Split1Of | server.py:118 | splitting at the first separator recovers the head and the tail |
| Protocol.Frame | server.py:30 | a frame is the message followed by one `\n` |
| Protocol.OkReply | server.py:92 | the login acknowledgement `OK` |
| Protocol.InvalidLogin | server.py:63 | the reply `ERR invalid-login` |
| Protocol.InvalidUsername | server.py:78 | the reply `ERR invalid-username` (also written at `:70`, which is dead) |
| Protocol.UsernameTaken | server.py:85 | the reply `ERR username-taken` |
| Protocol.InvalidDmFormat | server.py:133 | the reply `ERR invalid-dm-format`, for both format errors (`:133`, `:138`) |
| Protocol.SendFailed | server.py:152 | the reply `ERR send-failed` |
| Protocol.UnknownCommand | server.py:174 | the reply `ERR unknown-command` |
| Protocol.Pong | server.py:159 | the reply `PONG` |
| Protocol.IdleNotice | server.py:180 | the inactivity notice `INFO You have been disconnected due to inactivity` |
| Protocol.UserNotFound | server.py:154 | the reply `ERR user-not-found <target>` |
| Protocol.UserLine | server.py:126 | the WHO line `USER <name>` |
| Protocol.DmLine | server.py:147-149 | `DM <peer> <text>`: to the target with the sender as peer, and the echo to the sender with the target as peer |
| Protocol.MsgLine | server.py:169 | the broadcast `MSG <sender> <text>` |
| Protocol.Joined | server.py:96 | the join notice `INFO <name> joined` |
| Protocol.Departed | server.py:200 | the departure notice `INFO <name> disconnected`, also sent by the timeout handler at `:188` |
| Protocol.Sendable | client.py:64-75 | the commands the client can write: WHO, a DM whose target holds no space, and MSG with any text; every `Render` lemma requires it |
| Protocol.Parse | server.py:117-174 | the tokenising of one line; `Protocol.ParseClassifies`, `Protocol.ParseDmShape`, `Protocol.ParseMsgShape` and `Protocol.ParseRender` characterise it |
| Protocol.Render | client.py:66-75 | the line the client writes; `Protocol.ParseRender` proves the tokeniser inverts it |
| Protocol.Received | server.py:111-112 | what survives the server's strip of a rendered command; `Protocol.ServerReadsRender` connects it with `Parse` |
| Protocol.ParseLogin | server.py:59-74 | the parse of the first chunk; `Protocol.LoginNeverBlank` proves its blank outcome impossible and fixes the name |
| Protocol.KeywordsExclusive | server.py:119-122 | a token that upper-cases to `WHO` is not `MSG`, and an upper-cased `MSG` token holds no space |
| Protocol.ParseClassifies | server.py:118-174 | which branch a line takes is decided by its first token upper-cased, in both directions; a bare `MSG` is exactly the line that upper-cases to `MSG` |
| Protocol.ParseDmShape | server.py:136-142 | a well-formed DM line is `DM`, a space, a space-free target, a space and the text |
| Protocol.ParseMsgShape | server.py:164-168 | a MSG line with text is `MSG`, a space and that text |
| Protocol.CommandsIgnoreCase | server.py:119-122 | `who`, `Ping` and `mSg Hi` are WHO, PING and `MSG Hi`: the command name is compared after upper-casing, the text stays as written |
| Protocol.LowerWho | server.py:119-122 | `who` is WHO |
| Protocol.MixedPing | server.py:157 | `Ping` is PING |
| Protocol.MixedMsg | server.py:164-168 | `mSg Hi` is MSG with the text `Hi` |
| Protocol.ParseRender | client.py:66-75 | the tokeniser inverts the client's rendering: every command the client can write tokenises back to itself, before any stripping |
| Protocol.ParseRenderDm | client.py:70-73 | `DM <target> <text>` with a space-free target parses to that DM |
| Protocol.ParseRenderMsg | client.py:75 | `MSG <text>` parses to that MSG |
| Protocol.ServerReadsRender | server.py:111-112 | the stripped line the server dispatches for a command the client wrote parses to `Received` of it: the same command with its text rstripped, or a malformed DM or bare MSG when the text is all whitespace |
| Protocol.ServerReadsDm | server.py:136-142 | the stripped `DM <target> <text>` is `DM` with the target and the rstripped text, or malformed when the text is all whitespace |
| Protocol.ServerReadsMsg | server.py:164-168 | the stripped `MSG <text>` is `MSG` with the rstripped text, or a bare MSG when the text is all whitespace |
| Protocol.StripFullDm | server.py:136-142 | a DM whose text is not all whitespace arrives with that text rstripped |
| Protocol.StripBlankDm | server.py:136-139 | a DM whose text is all whitespace strips to `DM` or `DM <target>` and is malformed |
| Protocol.StripFullMsg | server.py:164-168 | a MSG whose text is not all whitespace arrives with that text rstripped |
| Protocol.StripBlankMsg | server.py:164-166 | a MSG whose text is all whitespace strips to `MSG` and is ignored as a bare MSG |
| Protocol.StripWho | client.py:69 | the client's `WHO` line reaches the server as WHO |
| Protocol.ParseBareDm | server.py:132-133 | `DM` alone is malformed |
| Protocol.ParseBareMsg | server.py:165-166 | `MSG` alone is a bare MSG |
| Protocol.ParseDmWithoutText | server.py:136-138 | `DM <target>` without a text is malformed |
| Protocol.TrimmedCommandsArrive | client.py:66-75 | a command whose text ends with a non-whitespace character reaches the server exactly as the client wrote it |
| Protocol.LoginNeverBlank | server.py:59-74 | a stripped chunk starting with `LOGIN ` always yields a non-empty name, the stripped rest; the chunk is refused iff it does not start with `LOGIN ` |
| Registry.Without | server.py:37 | deleting a name keeps exactly the other names and keeps them distinct |
| Registry.WithoutAbsent | server.py:36-37 | deleting a name that is not there leaves the order unchanged |
| Registry.WithoutAt | server.py:37 | deleting the name at place i closes the gap and keeps the others in their order |
| Registry.Unregister | server.py:197-199 | deleting a key, present or not, keeps the registry well formed |
| Registry.Register | server.py:89 | inserting a new key maps it to the connection and appends it to the iteration order |
| Registry.UnregisterAll | server.py:35-37 | deleting a list of names keeps the registry well formed |
| Registry.UnregisterAllRemoves | server.py:35-37 | after deleting a list of names, exactly the unlisted keys remain, with their connections |
| Registry.Pick | server.py:26-32 | the names chosen from the registry are keys of it |
| Registry.PickExactly | server.py:26-32 | the names written to (or that failed) are exactly the non-excluded keys whose connection works (or fails), without repeats |
| Registry.DeliveriesAt | server.py:30 | one send per listed name, in order, to that name's connection |
| Registry.Deliveries | server.py:30 | one frame per listed name, in order; `Registry.DeliveriesAt` states it index by index |
| Registry.Sends | server.py:26-32 | the send loop's output in its own shape, one guarded send per name; `Registry.SendsAreDeliveries` proves it equals the deliveries to the picked recipients |
| Registry.Recipients | server.py:26-30 | the members a broadcast reaches; `Registry.PickExactly` and `Registry.FanoutReachesEveryWorkingMember` characterise them |
| Registry.Failed | server.py:31-32 | the members whose send fails; `Registry.PickExactly` characterises them |
| Registry.Fanout | server.py:24-32 | the frames a broadcast delivers; `Registry.FanoutReachesEveryWorkingMember` characterises them and `Registry.Clients.Broadcast` computes them in place |
| Registry.AfterBroadcast | server.py:34-37 | the registry a broadcast leaves; `Registry.BroadcastDropsExactlyFailed` characterises it and `Registry.Clients.Broadcast` computes it in place |
| Registry.SendsAreDeliveries | server.py:26-32 | the send loop delivers to the working non-excluded names, in registry order |
| Registry.FanoutReachesEveryWorkingMember | server.py:20-32 | every non-excluded member whose connection works gets the frame exactly once, in order, and a failure does not stop the rest; nothing else is sent |
| Registry.BroadcastDropsExactlyFailed | server.py:24-37 | afterwards the registry is the old one minus exactly the failed recipients, connections unchanged; the excluded name is never removed |
| Registry.Clients.constructor | server.py:11 | the registry starts empty |
| Registry.Clients.Discard | server.py:197-199 | deletes the key if present, in place |
| Registry.Clients.Add | server.py:89 | inserts a new key in place |
| Registry.Clients.SendToAll | server.py:24-32 | the send loop returns the delivered frames and the list of failed names, as the specification functions say |
| Registry.Clients.Broadcast | server.py:20-37 | the output is the fan-out, and the registry afterwards has the failed recipients removed |
| Session.Attempt | server.py:179-182 | one guarded `sendall`: at most one send, none exactly when the connection is broken, and any send is the frame to that connection |
| Session.WhoReplies | server.py:124-128 | the WHO loop's replies; `Properties.WhoRepliesAt` and `Properties.WhoListsEveryName` characterise them |
| Session.Start | server.py:47-48 | a fresh connection's locals: awaiting login, `username = None`, `buffer = ""` |
| Session.LineEffect | server.py:117-174 | dispatching one line keeps the registry well formed |
| Session.BroadcastWithin | server.py:34-37 | a broadcast only removes entries |
| Session.DrainEffect | server.py:110-115 | the line loop keeps the registry well formed |
| Session.Farewell | server.py:195-200 | the exit cleanup keeps the registry well formed |
| Session.Closing | server.py:193-200 | closing a logged-in session keeps the registry well formed |
| Session.LoginEffect | server.py:52-96 | the first chunk always leaves the login phase, keeping the registry well formed |
| Session.AdmitEffect | server.py:74-96 | admission leaves the login phase with the requested name as username |
| Session.StepEffect | server.py:50-205 | every event keeps the registry well formed and the session consistent |
| Session.Handler.constructor | server.py:47-48 | a new session has no username and an empty buffer |
| Session.Handler.ListUsers | server.py:122-128 | the WHO loop sends one `USER` line per key |
| Session.Handler.HandleLine | server.py:117-174 | the in-place dispatch of one line has the effect `LineEffect` gives |
| Session.Handler.Receive | server.py:107-115 | appending a chunk and running the line loop has the effect `DrainEffect` gives; the unfinished rest is the new buffer |
| Session.Handler.NextLine | server.py:110-115 | one turn of the line loop consumes one line and shortens the buffer |
| Session.Handler.Cleanup | server.py:195-200 | the in-place cleanup has the effect `Farewell` gives |
| Session.Handler.Login | server.py:53-74 | the in-place login has the effect `LoginEffect` gives; the blank-name branch is dead |
| Session.Handler.Admit | server.py:74-96 | the in-place admission has the effect `AdmitEffect` gives |
| Session.Handler.Step | server.py:50-205 | every event handled in place has the effect `StepEffect` gives and keeps the session consistent |
| Properties.UnregisterRemovesOne | server.py:197-199 | deleting a name removes exactly that key |
| Properties.WithoutAppended | server.py:89 | deleting the last inserted name restores the iteration order |
| Properties.FarewellAnnouncesDeparture | server.py:195-200 | after cleanup the name is gone, so is every member whose notice failed, and every other working member hears `INFO <name> disconnected`; the output is exactly the fan-out over the registry without the name |
| Properties.BroadcastKeepsWorkingRegistry | server.py:34-37 | when no write fails, a broadcast leaves the registry unchanged |
| Properties.FarewellTwice | server.py:184-200 | a second cleanup leaves the registry as the first left it, and every remaining member hears the departure twice |
| Properties.TimeoutCleansUpTwice | server.py:176-200 | an idle timeout attempts the inactivity notice, then runs the cleanup twice; the name ends unregistered |
| Properties.ExitCleansUpOnce | server.py:104-105 | end of input or an error in the active phase runs the cleanup once |
| Properties.LoginIsAdmit | server.py:59-74 | a chunk starting with `LOGIN ` admits the stripped rest, which is never empty |
| Properties.Requested | server.py:74 | the name a login asks for, `parts[1].strip()` of the stripped chunk; `Properties.LoginIsAdmit` proves it never empty |
| Properties.LoginSucceedsIff | server.py:59-96 | login succeeds iff the chunk starts with `LOGIN `, the name has no space and is not a key, and the `OK` can be written |
| Properties.AdmitAccepted | server.py:83-96 | on success the name maps to this connection, `OK` comes first, and every working member hears the join notice |
| Properties.LoginRefused | server.py:59-65 | a chunk that is not a login gets `ERR invalid-login` and closes; the registry does not change |
| Properties.AdmitRejected | server.py:77-87 | a name with a space gets `ERR invalid-username`; a taken name gets `ERR username-taken`, and the cleanup deletes the key |
| Properties.AdmitOkFails | server.py:89-92 | when the `OK` cannot be written, the name is removed again and the departure announced |
| Properties.NoUsernameNoSideEffects | server.py:53-65 | a session that ends before a username is set changes nothing in the registry and writes only to its own connection |
| Properties.LoginLeavesOthersAlone | server.py:59-65 | the first chunk sets no username exactly when it does not start with `LOGIN `, and then it changes nothing in the registry and writes only to its own connection |
| Properties.WhoRepliesAt | server.py:124-128 | the WHO loop's replies are one line per name, in order |
| Properties.Head | server.py:118-119 | `parts[0]`, the first space-separated token that `upper()` is applied to; the commands' lemmas select their branch by it |
| Properties.WhoListsEveryName | server.py:122-128 | WHO lists every key, the caller included, in order, and leaves the registry unchanged |
| Properties.PingGetsPong | server.py:157-161 | PING gets exactly `PONG`, and a failed write is ignored |
| Properties.UnknownCommandReplied | server.py:173-174 | any other first token gets `ERR unknown-command` |
| Properties.DmOutcomes | server.py:131-154 | DM: a bad format, an unknown target, a failed delivery and success each give their replies, and the registry never changes |
| Properties.MsgReachesEveryone | server.py:164-170 | MSG broadcasts `MSG <sender> <text>` to every working member, the sender included, and its output is exactly that fan-out; a bare MSG does nothing |
| Properties.LineEffectBounds | server.py:117-174 | a line raises only when the caller's connection is broken, only MSG changes the registry, and it only removes entries |
| Properties.DrainIsLineByLine | server.py:107-115 | the line loop equals dispatching the stripped, non-empty complete lines in order; the trailing partial line stays buffered |
| Properties.JoinLines | server.py:110-111 | lines written one after the other, each ended by `\n`; the input that `Properties.DrainIsLineByLine` takes apart |
| Properties.RunLines | server.py:110-115 | the reference for the line loop, dispatching separated lines in order; `Properties.DrainIsLineByLine` proves the loop equal to it |
| Properties.DrainAcrossChunks | server.py:107-115 | running the line loop on `a + b` equals running it on `a` and then on the rest plus `b` |
| Properties.ChunkBoundariesDoNotMatter | server.py:101-115 | receiving `a` then `b` has the same effect as receiving `a + b` |
| Properties.StripTrimmed | server.py:74 | stripping an already trimmed string leaves it unchanged |
| Properties.LoginAsksForWholeRest | server.py:59-74 | `LOGIN <name>` with a trimmed name asks for exactly that name |
| Properties.LoginChunkNotSplit | server.py:53-59 | a first chunk carrying a login line and a command asks for a name made of both |
| Server.DrainWithin | server.py:110-115 | the line loop only removes registry entries |
| Server.Inv | server.py:40-205 | every registered name belongs to an active session logged in as that name; `Server.BootInv`, `Server.AcceptKeepsInv` and `Server.DeliverKeepsInv` prove it invariant |
| Server.Boot | server.py:11 | the server before its first connection; `Server.BootInv` |
| Server.Accept | server.py:47-48 | a new connection gets a fresh session; `Server.AcceptKeepsInv` |
| Server.Deliver | server.py:40-205 | one event of one session, applied to the whole server; `Server.DeliverKeepsInv` and `Server.OnlyOwnSessionChanges` characterise it |
| Server.StepShape | server.py:50-205 | only a login adds an entry, its own valid name for its own connection; an active session stays active under its name; an active session that ends leaves its name unregistered |
| Server.LoginShape | server.py:52-96 | the login step adds at most its own valid name |
| Server.ActiveShape | server.py:101-200 | an active session removes entries only, and its name is gone once it ends |
| Server.LoginStep | server.py:53-74 | a chunk reaching a session that awaits login is admission of the requested name |
| Server.BootInv | server.py:11 | the empty server satisfies the invariant |
| Server.AcceptKeepsInv | server.py:47-48 | accepting a connection keeps the invariant |
| Server.DeliverKeepsInv | server.py:40-205 | every step of every session keeps the invariant: each registered name belongs to an active session logged in as that name |
| Server.RegisteredConnectionsDistinct | server.py:89 | two registered names never share a connection |
| Server.JoinerDoesNotHearOwnJoin | server.py:92-96 | on login, `OK` goes to the joiner and the join notice goes only to others |
| Server.AdmitSkipsJoiner | server.py:92-96 | when no registered name uses the joiner's connection, the join notice never reaches it |
| Server.DuplicateLoginEvictsHolder | server.py:84-87 | a duplicate login is refused, yet its cleanup deletes the holder's entry while the holder's session stays active under the name |
| Server.LoginTaken | server.py:84-87 | a taken name closes the session, removes the name and announces it |
| Server.NameTakenTwice | server.py:83-96 | after an eviction the name can be taken again, leaving two active sessions with one username |
| Server.OnlyOwnSessionChanges | server.py:40-49 | a step changes no other session |
| Server.LoginAccepted | server.py:89-96 | a valid free name whose `OK` can be written makes the session active under it |

## Left out

- `main` (`server.py:208-261`) is not modelled: port parsing, bind, listen, accept, thread start and shutdown are I/O and lifecycle.
- Threads and `clients_lock`: a whole event of one session is one atomic step, so interleavings between the separately locked blocks of one event are not modelled. For example, another session's login can run between the timeout handler's cleanup (`server.py:184-188`) and the `finally` cleanup (`server.py:195-200`). If it took the same name, the second cleanup deletes the newcomer's entry. `Properties.FarewellTwice` and `Properties.TimeoutCleansUpTwice` hold only for this coarser step.
- Timers: `settimeout` and `socket.timeout` become the `Timeout` event, and the 30 s and 3600 s values are not modelled.
- Bytes: `recv(1024)`, UTF-8 `encode`/`decode` and the chunk size are not modelled; chunks are strings, and a decode error is the `Fault` event. A `recv` boundary inside a multi-byte UTF-8 character makes `decode()` raise (`server.py:107`), so `Properties.ChunkBoundariesDoNotMatter` holds at the level of strings only.
- `print` logging and `conn.close()` are not modelled, since they do not change the registry or the output.
- Send failures: one set of broken connections holds for a whole step, so a connection cannot fail on one write and succeed on a later write in the same step.
- A `socket.timeout` raised by a `sendall` rather than by `recv` is not modelled; a failing own write is treated as the generic exception path.
- `str.upper()` is modelled only as the comparison of a token with an upper-case keyword, which is the only use the server makes of it.
- client.py's terminal UI (`input`, the receiver thread, the `/quit` and `/who` commands) is not modelled; only its command rendering is.
