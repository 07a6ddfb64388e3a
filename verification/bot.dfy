/** The chat bot's event handlers: who may talk to it, how a message is
    routed, and how a conversation message is bound to a backend session
    (resumed in a thread that already has one, started otherwise) before
    its turn is streamed back into the chat. */
module Bot {
  import opened Wrappers
  import opened Strings
  import opened ChatModel
  import opened GlobalConfig
  import opened Reconciler
  import Rpc
  import Json
  import StreamProperties

  /** An incoming chat message, as far as the handlers read it. */
  datatype Message = Message(
    fromBot: bool,
    authorId: string,
    content: string,
    inThread: bool,
    channelId: string,
    handle: Handle)

  /** An empty allow-list setting lets everybody in. */
  predicate Permitted(allowedUserId: string, userId: string) {
    allowedUserId == "" || userId == allowedUserId
  }

  /** What the message handler does with a message. */
  datatype Route =
    | Ignored                          // from a bot, or blank
    | Blocked                          // from a user the setting does not allow
    | ModelsPanel                      // `/models…` or `!models`
    | ModeSwitch(arg: Option<string>)  // `/mode <word>`
    | Converse                         // anything else that is not blank

  /** Lines 55-91: the gates, then the commands, then the conversation. */
  function RouteOf(m: Message, allowedUserId: string): Route {
    if m.fromBot then Ignored
    else if !Permitted(allowedUserId, m.authorId) then Blocked
    else if StartsWith(m.content, "/models") || m.content == "!models" then ModelsPanel
    else if StartsWith(m.content, "/mode ") then ModeSwitch(ModeArg(m.content))
    else if Trim(m.content) != "" then Converse
    else Ignored
  }

  /** Only a permitted human reaches a command or the conversation; a
      message reaches the conversation exactly when it is none of the
      commands and not blank. */
  lemma RoutingGates(m: Message, allowedUserId: string)
    ensures var r := RouteOf(m, allowedUserId);
      && (m.fromBot ==> r == Ignored)
      && (!m.fromBot && !Permitted(allowedUserId, m.authorId) ==> r == Blocked)
      && (r != Ignored && r != Blocked ==> !m.fromBot && Permitted(allowedUserId, m.authorId))
      && (r == Converse <==>
            && !m.fromBot && Permitted(allowedUserId, m.authorId)
            && !StartsWith(m.content, "/models") && m.content != "!models"
            && !StartsWith(m.content, "/mode ") && !IsBlank(m.content))
  {
    TrimBlank(m.content);
  }

  /** `/mode …` is never taken for `/models`: the two commands differ at
      their sixth character. */
  lemma ModeIsNotModels(m: Message, allowedUserId: string)
    requires !m.fromBot && Permitted(allowedUserId, m.authorId)
    requires StartsWith(m.content, "/mode ")
    ensures RouteOf(m, allowedUserId) == ModeSwitch(ModeArg(m.content))
  {
    assert m.content[5] == ' ';
    assert !StartsWith(m.content, "/models") by {
      assert "/models"[5] == 'l';
    }
    assert m.content != "!models" by {
      assert m.content[0] == '/';
    }
  }

  // ---------------------------------------------------------------------
  // The thread of a new task

  /** Lines 254-255: "Task: " and the first 30 characters, line breaks
      turned into spaces; a name shorter than 7 characters is replaced. */
  function ThreadName(text: string): string {
    var cut := if |text| <= 30 then text else text[..30];
    var name := "Task: " + ReplaceChar(cut, '\n', ' ');
    if |name| < 7 then "Task: Processing..." else name
  }

  /** The name of a task thread starts with "Task: ", has no line break and
      at most 36 characters; for a non-empty text it holds the text's first
      30 characters (line breaks as spaces), and only the empty text gets the
      fallback name. */
  lemma ThreadNameShape(text: string)
    ensures StartsWith(ThreadName(text), "Task: ")
    ensures '\n' !in ThreadName(text)
    ensures 7 <= |ThreadName(text)| <= 36
    ensures text != [] ==>
              var n := if |text| <= 30 then |text| else 30;
              ThreadName(text)[6..] == ReplaceChar(text[..n], '\n', ' ')
    ensures text == [] ==> ThreadName(text) == "Task: Processing..."
  {
    var cut := if |text| <= 30 then text else text[..30];
    var body := ReplaceChar(cut, '\n', ' ');
    var name := "Task: " + body;
    assert forall k :: 0 <= k < |body| ==> body[k] != '\n';
    assert forall k :: 6 <= k < |name| ==> name[k] == body[k - 6];
    assert "Task: Processing..."[18] == '.';
    if text != [] {
      assert text[..|cut|] == cut;
      assert name[6..] == body;
    }
  }

  // ---------------------------------------------------------------------
  // Session binding

  /** The map from thread ids to session ids after a conversation message,
      the session the turn uses (none when it could not be started), and
      whether a new session was requested. */
  datatype Binding = Binding(bindings: map<string, string>, cascadeId: Option<string>, startCalled: bool)

  /** `map.get(id) || null` is truthy: the thread has a usable session. */
  predicate Bound(m: map<string, string>, threadId: string) {
    threadId in m && m[threadId] != ""
  }

  /** Lines 233-271: a thread with a session resumes it; a thread without
      one, and every plain-channel message, requests a new session (whose
      outcome is `started`) and binds it to the thread (the new thread
      `newThreadId` for a channel message). A failed request binds nothing. */
  function Bind(m: map<string, string>, inThread: bool, channelId: string,
                started: Result<string, Rpc.RpcError>, newThreadId: string): Binding
  {
    if inThread && Bound(m, channelId) then Binding(m, Some(m[channelId]), false)
    else match started
      case Failure(_) => Binding(m, None, true)
      case Success(id) => Binding(m[(if inThread then channelId else newThreadId) := id], Some(id), true)
  }

  /** A thread with a session reuses it and requests no new one. */
  lemma BindResumes(m: map<string, string>, channelId: string, started: Result<string, Rpc.RpcError>, newThreadId: string)
    requires Bound(m, channelId)
    ensures Bind(m, true, channelId, started, newThreadId) == Binding(m, Some(m[channelId]), false)
  {
  }

  /** Otherwise exactly one session is requested; if it starts, the thread
      (the new one for a channel message) is bound to it, and if it fails,
      the map is as before and there is no session for the turn. Either way
      no other thread's binding changes. */
  lemma BindStarts(m: map<string, string>, inThread: bool, channelId: string,
                   started: Result<string, Rpc.RpcError>, newThreadId: string)
    requires !(inThread && Bound(m, channelId))
    ensures var b := Bind(m, inThread, channelId, started, newThreadId);
      var target := if inThread then channelId else newThreadId;
      && b.startCalled
      && (started.Success? ==> b.cascadeId == Some(started.value) && target in b.bindings
                               && b.bindings[target] == started.value)
      && (started.Failure? ==> b.cascadeId == None && b.bindings == m)
      && (forall t :: t != target ==> (t in b.bindings <==> t in m))
      && (forall t :: t != target && t in m ==> b.bindings[t] == m[t])
  {
  }

  /** A started session is remembered: the next message in the thread it
      was bound to resumes it without requesting another. */
  lemma BoundThreadResumes(m: map<string, string>, inThread: bool, channelId: string, id: string,
                           newThreadId: string, next: Result<string, Rpc.RpcError>, nextThreadId: string)
    requires !(inThread && Bound(m, channelId)) && id != ""
    ensures var b := Bind(m, inThread, channelId, Success(id), newThreadId);
      var thread := if inThread then channelId else newThreadId;
      Bind(b.bindings, true, thread, next, nextThreadId) == Binding(b.bindings, Some(id), false)
  {
    BindStarts(m, inThread, channelId, Success(id), newThreadId);
  }

  // ---------------------------------------------------------------------
  // One conversation turn

  const STARTING_REPLY := "🧵 Starting isolated task environment in thread..."
  const ERROR_PREFIX := "❌ Error communicating with IDE: "
  const NOT_INITIALIZED_TEXT := "Antigravity Client is not initialized."

  /** The first tracking message of a turn. */
  function Thinking(modelDisplay: string, mode: string): string {
    "🤔 Thinking... (`" + modelDisplay + "` / `" + mode + "`)"
  }

  /** The `message` of an error that ends a turn. The texts of the
      run-time type errors the loop can raise on a malformed reply come from
      the script engine and are an input (`engineText`). */
  function ErrorText(e: Rpc.RpcError, engineText: string): (r: string)
    ensures e.NotInitialized? ==> r == NOT_INITIALIZED_TEXT
    ensures e.Transport? ==> r == e.message
    ensures e.Http? ==> var p := Rpc.ParseHttpMessage(r);
                        p.Some? && p.value.0 == e.status && p.value.1 == e.body
  {
    match e
    case NotInitialized => NOT_INITIALIZED_TEXT
    case Transport(message) => message
    case Http(status, body) =>
      Rpc.HttpMessageRoundTrip(status, body);
      Rpc.HttpMessage(status, body)
    case _ => engineText
  }

  /** What the backend and the chat service do during one turn: the outcome
      of a session request if one is made, the id of the thread a channel
      message opens, the outcome of forwarding the message, the clock at
      loop entry, the replies to the polls and their clock and edit failures, which files
      exist, the engine's error text, and whether the error edit goes
      through. */
  datatype Backend = Backend(
    started: Result<string, Rpc.RpcError>,
    newThreadId: string,
    sent: Outcome<Rpc.RpcError>,
    start: int,
    replies: seq<Result<Json.Json, Rpc.RpcError>>,
    clock: (nat, nat) -> int,
    failures: (nat, nat) -> set<nat>,
    fileExists: string -> bool,
    engineText: string,
    errorEditOk: bool)

  /** The map and the chat after a turn, and the first tracking message
      (none when no session could be started). */
  datatype TurnOut = TurnOut(bindings: map<string, string>, c: ChatState, initial: Option<Handle>)

  /** The tracking message: a reply in a thread; in a channel, a reply that
      announces the thread and then a message posted in the new thread. */
  function Announce(c: ChatState, m: Message, cfg: Config): (ChatState, Handle) {
    var thinking := Thinking(cfg.display, cfg.mode);
    if m.inThread then Replied(c, m.handle, thinking)
    else
      var (c1, _) := Replied(c, m.handle, STARTING_REPLY);
      Posted(c1, thinking)
  }

  /** Lines 233-279 for a conversation message: bind, announce, forward,
      stream; a failed forward or poll turns the tracking message into the
      error. A failed session request escapes the handler and changes
      nothing. */
  function Turn(bindings: map<string, string>, c: ChatState, m: Message, cfg: Config, b: Backend): TurnOut {
    var bd := Bind(bindings, m.inThread, m.channelId, b.started, b.newThreadId);
    if bd.cascadeId.None? then TurnOut(bindings, c, None)
    else
      var (c1, initial) := Announce(c, m, cfg);
      match b.sent
      case Fail(e) =>
        TurnOut(bd.bindings, Edited(c1, initial, ERROR_PREFIX + ErrorText(e, b.engineText), b.errorEditOk), Some(initial))
      case Pass =>
        var env := Env(bd.cascadeId.value, cfg.display, cfg.mode, b.fileExists);
        var r := Run(Entry([initial], b.start), c1, Rpc.Polls(b.replies), 0, b.clock, b.failures, env);
        var c2 := if r.error.Some? then Edited(r.c, initial, ERROR_PREFIX + ErrorText(r.error.value, b.engineText), b.errorEditOk)
                  else r.c;
        TurnOut(bd.bindings, c2, Some(initial))
  }

  /** The tracking message is new, and it is a reply to the user's message
      in a thread; in a channel it follows the announcement reply. */
  lemma AnnounceEffect(c: ChatState, m: Message, cfg: Config)
    requires Valid(c) && m.handle in c.content
    ensures var (c1, h) := Announce(c, m, cfg);
      && Valid(c1) && h !in c.content && h in c1.content
      && c1.content[h] == Thinking(cfg.display, cfg.mode)
      && (m.inThread ==> h in c1.replyTo && c1.replyTo[h] == m.handle)
      && (forall g :: g in c.content ==> g in c1.content && c1.content[g] == c.content[g])
      && c1.panels == c.panels
  {
    if !m.inThread {
      var (ca, a) := Replied(c, m.handle, STARTING_REPLY);
      var (cb, h) := Posted(ca, Thinking(cfg.display, cfg.mode));
      assert h !in ca.content;
    }
  }

  /** A turn whose session could not be started leaves the map and the chat
      as they were. */
  lemma FailedStartChangesNothing(bindings: map<string, string>, c: ChatState, m: Message, cfg: Config, b: Backend)
    requires !(m.inThread && Bound(bindings, m.channelId)) && b.started.Failure?
    ensures Turn(bindings, c, m, cfg, b) == TurnOut(bindings, c, None)
  {
  }

  /** A turn whose message cannot be forwarded shows the error in its
      tracking message (when that edit goes through) and streams nothing. */
  lemma FailedSendShowsError(bindings: map<string, string>, c: ChatState, m: Message, cfg: Config, b: Backend)
    requires Valid(c) && m.handle in c.content
    requires (m.inThread && Bound(bindings, m.channelId)) || b.started.Success?
    requires b.sent.Fail? && b.errorEditOk
    ensures var t := Turn(bindings, c, m, cfg, b);
      && t.initial.Some? && t.initial.value !in c.content && t.initial.value in t.c.content
      && t.c.content[t.initial.value] == ERROR_PREFIX + ErrorText(b.sent.error, b.engineText)
      && t.c.panels == c.panels
  {
    AnnounceEffect(c, m, cfg);
  }

  /** A forwarded turn keeps the chat well formed: its tracking message is
      new and is still there when the turn ends, whether the loop finished
      or its error was edited in, and the map follows `Bind`. */
  lemma ForwardedTurnKeepsChat(bindings: map<string, string>, c: ChatState, m: Message, cfg: Config, b: Backend)
    requires Valid(c) && m.handle in c.content
    requires (m.inThread && Bound(bindings, m.channelId)) || b.started.Success?
    requires b.sent.Pass?
    ensures var t := Turn(bindings, c, m, cfg, b);
      && t.bindings == Bind(bindings, m.inThread, m.channelId, b.started, b.newThreadId).bindings
      && Valid(t.c) && t.initial.Some?
      && t.initial.value !in c.content && t.initial.value in t.c.content
  {
    ForwardedTurnStreams(bindings, c, m, cfg, b);
    AnnounceEffect(c, m, cfg);
    var bd := Bind(bindings, m.inThread, m.channelId, b.started, b.newThreadId);
    var (c1, initial) := Announce(c, m, cfg);
    StreamKeepsTracking(initial, c1, Rpc.Polls(b.replies), b.start, b.clock, b.failures,
                        Env(bd.cascadeId.value, cfg.display, cfg.mode, b.fileExists));
  }

  /** The loop keeps the chat well formed and never loses the message it
      started from. */
  lemma StreamKeepsTracking(h: Handle, c: ChatState, polls: seq<Result<seq<Rpc.Step>, Rpc.RpcError>>, start: int,
                            clock: (nat, nat) -> int, failures: (nat, nat) -> set<nat>, env: Env)
    requires Valid(c) && h in c.content
    ensures var r := Run(Entry([h], start), c, polls, 0, clock, failures, env);
      Valid(r.c) && h in r.c.content
  {
    var s := Entry([h], start);
    assert Tracked(s.messages, c);
    StreamProperties.RunAppendOnly(s, c, polls, 0, clock, failures, env);
    var r := Run(s, c, polls, 0, clock, failures, env);
    assert r.s.messages[0] == r.s.messages[..1][0] == h;
  }

  /** A forwarded message is streamed by the loop into a chain that starts
      with the tracking message, in the session the binding chose. */
  lemma ForwardedTurnStreams(bindings: map<string, string>, c: ChatState, m: Message, cfg: Config, b: Backend)
    requires (m.inThread && Bound(bindings, m.channelId)) || b.started.Success?
    requires b.sent.Pass?
    ensures var bd := Bind(bindings, m.inThread, m.channelId, b.started, b.newThreadId);
      var (c1, initial) := Announce(c, m, cfg);
      var r := Run(Entry([initial], b.start), c1, Rpc.Polls(b.replies), 0, b.clock, b.failures,
                   Env(bd.cascadeId.value, cfg.display, cfg.mode, b.fileExists));
      var t := Turn(bindings, c, m, cfg, b);
      && bd.cascadeId.Some?
      && t.bindings == bd.bindings && t.initial == Some(initial)
      && (r.error.None? ==> t.c == r.c)
      && (r.error.Some? ==> t.c == Edited(r.c, initial, ERROR_PREFIX + ErrorText(r.error.value, b.engineText), b.errorEditOk))
  {
  }

  // ---------------------------------------------------------------------
  // The bot object

  class DiscordBot {
    const allowedUserId: string
    var threadCascadeMap: map<string, string>

    constructor (allowedUserId: string)
      ensures this.allowedUserId == allowedUserId && threadCascadeMap == map[]
    {
      this.allowedUserId := allowedUserId;
      threadCascadeMap := map[];
    }

    /** The first part of `handleUserMessage`: find or start the session,
        remember it, and send the tracking message. Returns the session
        (none when it could not be started), the tracking message and the
        name of the thread a channel message opens. */
    method OpenTurn(chat: Chat, global: GlobalState, m: Message, b: Backend)
      returns (cascadeId: Option<string>, initialMsg: Handle, threadName: Option<string>)
      modifies this, chat
      ensures var bd := Bind(old(threadCascadeMap), m.inThread, m.channelId, b.started, b.newThreadId);
        threadCascadeMap == bd.bindings && cascadeId == bd.cascadeId
      ensures cascadeId.None? ==> chat.State() == old(chat.State())
      ensures cascadeId.Some? ==> (chat.State(), initialMsg) == Announce(old(chat.State()), m, global.State())
      ensures threadName.Some? <==> !m.inThread && b.started.Success?
      ensures threadName.Some? ==> threadName.value == ThreadName(m.content)
    {
      threadName := None;
      cascadeId := None;
      initialMsg := 0;
      if m.inThread {
        var bound := if m.channelId in threadCascadeMap then threadCascadeMap[m.channelId] else "";
        if bound == "" {
          if b.started.Failure? {
            return;
          }
          cascadeId := Some(b.started.value);
          threadCascadeMap := threadCascadeMap[m.channelId := b.started.value];
        } else {
          cascadeId := Some(bound);
        }
        initialMsg := chat.Reply(m.handle, Thinking(global.display, global.mode));
      } else {
        if b.started.Failure? {
          return;
        }
        cascadeId := Some(b.started.value);
        threadName := Some(ThreadName(m.content));
        var announcement := chat.Reply(m.handle, STARTING_REPLY);
        threadCascadeMap := threadCascadeMap[b.newThreadId := b.started.value];
        initialMsg := chat.Post(Thinking(global.display, global.mode));
      }
    }

    /** `handleUserMessage` for a message routed to the conversation.
        Returns the name of the thread a channel message opens. */
    method HandleUserMessage(chat: Chat, global: GlobalState, m: Message, b: Backend)
      returns (threadName: Option<string>)
      modifies this, chat
      ensures var t := Turn(old(threadCascadeMap), old(chat.State()), m, global.State(), b);
        threadCascadeMap == t.bindings && chat.State() == t.c
      ensures threadName.Some? <==> !m.inThread && b.started.Success?
      ensures threadName.Some? ==> threadName.value == ThreadName(m.content)
    {
      var cascadeId, initialMsg;
      cascadeId, initialMsg, threadName := OpenTurn(chat, global, m, b);
      if cascadeId.None? {
        return;
      }
      if b.sent.Fail? {
        chat.Edit(initialMsg, ERROR_PREFIX + ErrorText(b.sent.error, b.engineText), b.errorEditOk);
        return;
      }
      var env := Env(cascadeId.value, global.display, global.mode, b.fileExists);
      var final, error := PollStepsAndStream(chat, [initialMsg], b.start, Rpc.Polls(b.replies), b.clock, b.failures, env);
      if error.Some? {
        chat.Edit(initialMsg, ERROR_PREFIX + ErrorText(error.value, b.engineText), b.errorEditOk);
      }
    }

    /** The message handler. A panel request returns the panel's rows; a mode
        command applies the command and replies with its text. */
    method OnMessage(chat: Chat, global: GlobalState, m: Message, b: Backend)
      returns (panel: Option<seq<seq<Button>>>)
      modifies this, chat, global
      ensures var r := RouteOf(m, allowedUserId);
        && (r == Ignored || r == Blocked ==>
              threadCascadeMap == old(threadCascadeMap) && chat.State() == old(chat.State())
              && global.State() == old(global.State()) && panel.None?)
        && (r == ModelsPanel ==>
              threadCascadeMap == old(threadCascadeMap) && chat.State() == old(chat.State())
              && global.State() == old(global.State()) && panel == Some(Rows(Buttons(global.model))))
        && (r.ModeSwitch? ==>
              var (cfg, reply) := ModeCommand(old(global.State()), WordOf(r.arg));
              threadCascadeMap == old(threadCascadeMap) && global.State() == cfg
              && chat.State() == Replied(old(chat.State()), m.handle, ReplyText(reply)).0 && panel.None?)
        && (r == Converse ==>
              var t := Turn(old(threadCascadeMap), old(chat.State()), m, global.State(), b);
              threadCascadeMap == t.bindings && chat.State() == t.c
              && global.State() == old(global.State()) && panel.None?)
    {
      panel := None;
      var r := RouteOf(m, allowedUserId);
      if r == Ignored || r == Blocked {
        return;
      }
      if r == ModelsPanel {
        var rows := global.SelectionRows();
        panel := Some(rows);
      } else if r.ModeSwitch? {
        SwitchMode(chat, global, m.handle, r.arg);
      } else {
        var name := HandleUserMessage(chat, global, m, b);
      }
    }

    /** Lines 66-85: apply the `/mode` command and reply with its text. */
    method SwitchMode(chat: Chat, global: GlobalState, handle: Handle, arg: Option<string>)
      modifies chat, global
      ensures var (cfg, reply) := ModeCommand(old(global.State()), WordOf(arg));
        global.State() == cfg && chat.State() == Replied(old(chat.State()), handle, ReplyText(reply)).0
    {
      var reply := global.SetMode(arg);
      var h := chat.Reply(handle, reply);
    }

    /** Lines 94-118: a permitted user's button press goes to the model
        button handler; anyone else's changes nothing. */
    method OnButton(global: GlobalState, userId: string, customId: string)
      modifies global
      ensures Permitted(allowedUserId, userId) ==> global.State() == ButtonPress(old(global.State()), customId)
      ensures !Permitted(allowedUserId, userId) ==> global.State() == old(global.State())
    {
      if !Permitted(allowedUserId, userId) {
        return;
      }
      global.SelectModel(customId);
    }
  }
}
