/** The turn-streaming loop: it polls the session's full step list, and for
    every planner response it decides whether to show it, extracts the
    reply, splits it into chunks, grows the chain of chat messages and edits
    them, flipping a two-state activity indicator while the turn runs. On a
    finished response it also raises one review panel per existing file the
    response names.

    Time is an input: `start` is the clock at loop entry and `clock(i, j)`
    the clock when step `j` of poll `i` is examined. `failures(i, j)` holds
    the chunk indices whose edit the chat refuses at that step. */
module Reconciler {
  import opened Wrappers
  import opened Strings
  import opened Directives
  import opened Chunking
  import opened ChatModel
  import Rpc

  /** Minimum interval between two shown updates while the turn runs. */
  const RATE_LIMIT_MS := 1500

  /** The activity indicator appended to the last chunk. */
  datatype Indicator = Blue | Green

  function Flip(i: Indicator): (r: Indicator)
    ensures r != i
  {
    if i == Blue then Green else Blue
  }

  function Suffix(i: Indicator): string {
    if i == Blue then " 🔵" else " 🟢"
  }

  /** The loop's own variables. */
  datatype Loop = Loop(
    isDone: bool,
    lastReportedText: string,
    lastEditTime: int,
    indicator: Indicator,
    messages: seq<Handle>)

  /** The variables at loop entry, with the message chain the caller passes. */
  function Entry(messages: seq<Handle>, start: int): Loop {
    Loop(false, "", start, Blue, messages)
  }

  /** What the loop reads besides the snapshots, fixed for one turn. */
  datatype Env = Env(cascadeId: string, modelDisplay: string, mode: string, fileExists: string -> bool)

  /** The message chain of a turn in a well-formed chat: non-empty, every
      handle a message of the chat, handles in increasing (sending) order. */
  ghost predicate Tracked(messages: seq<Handle>, c: ChatState) {
    && Valid(c)
    && |messages| >= 1
    && (forall k :: 0 <= k < |messages| ==> messages[k] in c.content)
    && (forall k, l :: 0 <= k < l < |messages| ==> messages[k] < messages[l])
  }

  function Last(messages: seq<Handle>): Handle
    requires |messages| >= 1
  {
    messages[|messages| - 1]
  }

  // ---------------------------------------------------------------------
  // Review panels

  /** One panel per file that exists, in the order the files are named,
      each a reply to `parent`. */
  function PanelsFor(parent: Handle, files: seq<string>, env: Env): (r: seq<Panel>)
    ensures |r| <= |files|
    ensures forall k :: 0 <= k < |r| ==>
              r[k].parent == parent && env.fileExists(r[k].file)
              && r[k].approveId == "review_yes_" + env.cascadeId
              && r[k].rejectId == "review_no_" + env.cascadeId
    decreases |files|
  {
    if files == [] then []
    else
      var f := files[|files| - 1];
      PanelsFor(parent, files[..|files| - 1], env)
        + if env.fileExists(f) then [ReviewPanel(parent, f, env.cascadeId)] else []
  }

  /** Every file named and present gets a panel; a missing file gets none. */
  lemma {:induction false} PanelsForExactlyExisting(parent: Handle, files: seq<string>, env: Env)
    ensures forall f :: f in files && env.fileExists(f) ==>
              ReviewPanel(parent, f, env.cascadeId) in PanelsFor(parent, files, env)
    ensures forall f :: !env.fileExists(f) ==>
              forall k :: 0 <= k < |PanelsFor(parent, files, env)| ==> PanelsFor(parent, files, env)[k].file != f
    decreases |files|
  {
    if files != [] {
      var init := files[..|files| - 1];
      PanelsForExactlyExisting(parent, init, env);
      assert files == init + [files[|files| - 1]];
    }
  }

  /** The panels for a response made of markers and gaps holding no
      marker head are the panels for exactly its markers, in order, when all
      files exist. */
  lemma PanelsForDocument(parent: Handle, gaps: seq<string>, files: seq<string>, env: Env)
    requires |gaps| == |files| + 1
    requires forall k :: 0 <= k < |gaps| ==> Absent(gaps[k], REVIEW_HEAD)
    requires forall k :: 0 <= k < |files| ==> ValidPath(files[k]) && env.fileExists(files[k])
    ensures PanelsFor(parent, ReviewPaths(Document(gaps, files)), env)
            == seq(|files|, k requires 0 <= k < |files| => ReviewPanel(parent, files[k], env.cascadeId))
  {
    ReviewPathsOfDocument(gaps, files);
    AllExistingPanels(parent, files, env);
  }

  lemma {:induction false} AllExistingPanels(parent: Handle, files: seq<string>, env: Env)
    requires forall k :: 0 <= k < |files| ==> env.fileExists(files[k])
    ensures PanelsFor(parent, files, env)
            == seq(|files|, k requires 0 <= k < |files| => ReviewPanel(parent, files[k], env.cascadeId))
    decreases |files|
  {
    if files != [] {
      AllExistingPanels(parent, files[..|files| - 1], env);
    }
  }

  /** The scan of lines 300-329: one panel per match of the marker, in text
      order, sent as a reply to the last message of the chain when the
      named file exists. */
  method RaiseReviewPanels(chat: Chat, parent: Handle, responseText: string, env: Env)
    modifies chat
    ensures chat.State() == old(chat.State()).(panels := old(chat.panels) + PanelsFor(parent, ReviewPaths(responseText), env))
  {
    var files := ReviewPaths(responseText);
    var k := 0;
    while k < |files|
      invariant k <= |files|
      invariant chat.content == old(chat.content) && chat.replyTo == old(chat.replyTo) && chat.next == old(chat.next)
      invariant chat.panels == old(chat.panels) + PanelsFor(parent, files[..k], env)
    {
      PanelsForNext(parent, files, k, env);
      if env.fileExists(files[k]) {
        var p := ReviewPanel(parent, files[k], env.cascadeId);
        AppendAssoc(old(chat.panels), PanelsFor(parent, files[..k], env), [p]);
        chat.SendPanel(p);
      }
      k := k + 1;
    }
    assert files[..k] == files;
  }

  /** The scan's step: the panels for one more file. */
  lemma PanelsForNext(parent: Handle, files: seq<string>, k: nat, env: Env)
    requires k < |files|
    ensures PanelsFor(parent, files[..k + 1], env) == PanelsFor(parent, files[..k], env)
              + if env.fileExists(files[k]) then [ReviewPanel(parent, files[k], env.cascadeId)] else []
  {
    assert files[..k + 1][..k] == files[..k];
  }

  // ---------------------------------------------------------------------
  // Rendering one response

  /** `while (messages.length < chunks.length)`: each new message is a
      reply to the previous last one. */
  function Grow(c: ChatState, messages: seq<Handle>, count: nat): (r: (ChatState, seq<Handle>))
    requires |messages| >= 1
    ensures |r.1| == if |messages| >= count then |messages| else count
    decreases count - |messages|
  {
    if |messages| >= count then (c, messages)
    else
      var (c1, h) := Replied(c, Last(messages), "...");
      Grow(c1, messages + [h], count)
  }

  /** The text of chunk `k` as sent: the last chunk carries the indicator
      while the turn runs. */
  function Shown(chunks: seq<string>, k: nat, isDone: bool, ind: Indicator): string
    requires k < |chunks|
  {
    if k == |chunks| - 1 && !isDone then chunks[k] + Suffix(ind) else chunks[k]
  }

  /** The edits of chunks `k..` into the messages with the same index. */
  function EditFrom(c: ChatState, messages: seq<Handle>, chunks: seq<string>, isDone: bool,
                    ind: Indicator, failed: set<nat>, k: nat): ChatState
    requires |chunks| <= |messages| && k <= |chunks|
    decreases |chunks| - k
  {
    if k == |chunks| then c
    else EditFrom(Edited(c, messages[k], Shown(chunks, k, isDone, ind), k !in failed),
                  messages, chunks, isDone, ind, failed, k + 1)
  }

  /** What one shown update leaves behind. */
  datatype Rendered = Rendered(c: ChatState, messages: seq<Handle>, indicator: Indicator)

  /** Lines 340-391: the display text, its chunks, the grown chain, and the
      edits; the indicator flips once per update while the turn runs. */
  function Render(c: ChatState, messages: seq<Handle>, isDone: bool, ind: Indicator,
                  responseText: string, failed: set<nat>, env: Env): (r: Rendered)
    requires |messages| >= 1
    ensures |r.messages| >= |messages|
    ensures r.indicator == if isDone then ind else Flip(ind)
  {
    var chunks := Chunks(DisplayText(responseText, isDone, env.modelDisplay, env.mode));
    var (c1, ms) := Grow(c, messages, |chunks|);
    var ind1 := if isDone then ind else Flip(ind);
    Rendered(EditFrom(c1, ms, chunks, isDone, ind1, failed, 0), ms, ind1)
  }

  /** The rendering as the source writes it: the chunk loop, the growth
      loop, and the edit loop that flips the indicator at the last chunk. */
  method RenderResponse(chat: Chat, messages: seq<Handle>, isDone: bool, indicator: Indicator,
                        responseText: string, failed: set<nat>, env: Env)
    returns (ms: seq<Handle>, ind: Indicator)
    requires |messages| >= 1
    modifies chat
    ensures Rendered(chat.State(), ms, ind) == Render(old(chat.State()), messages, isDone, indicator, responseText, failed, env)
  {
    var fullText := DisplayText(responseText, isDone, env.modelDisplay, env.mode);
    var chunks := SplitChunks(fullText);
    ms := messages;
    while |ms| < |chunks|
      invariant |ms| >= 1
      invariant Grow(chat.State(), ms, |chunks|) == Grow(old(chat.State()), messages, |chunks|)
      decreases |chunks| - |ms|
    {
      var h := chat.Reply(ms[|ms| - 1], "...");
      ms := ms + [h];
    }
    ghost var grown := chat.State();
    ghost var final := if isDone then indicator else Flip(indicator);
    ind := indicator;
    for i := 0 to |chunks|
      invariant ind == if i == |chunks| then final else indicator
      invariant EditFrom(chat.State(), ms, chunks, isDone, final, failed, i)
                == EditFrom(grown, ms, chunks, isDone, final, failed, 0)
    {
      var disp := chunks[i];
      if i == |chunks| - 1 && !isDone {
        ind := Flip(ind);
        disp := disp + Suffix(ind);
      }
      chat.Edit(ms[i], disp, i !in failed);
    }
  }

  // ---------------------------------------------------------------------
  // One step, one snapshot, the whole loop

  /** The loop's variables and the chat after one step, and whether the
      rate limit left the snapshot. */
  datatype StepOut = StepOut(s: Loop, c: ChatState, broke: bool)

  /** Lines 292-392 for one step of a snapshot. */
  function ProcessStep(s: Loop, c: ChatState, step: Rpc.Step, now: int, failed: set<nat>, env: Env): (r: StepOut)
    requires |s.messages| >= 1
    ensures |r.s.messages| >= |s.messages|
  {
    if step.kind != Rpc.PLANNER_RESPONSE then StepOut(s, c, false)
    else
      var finished := step.status == Rpc.STATUS_DONE;
      var s1 := if finished then s.(isDone := true) else s;
      var c1 := if finished then c.(panels := c.panels + PanelsFor(Last(s.messages), ReviewPaths(step.text), env)) else c;
      if step.text != s1.lastReportedText || s1.isDone then
        var s2 := s1.(lastReportedText := step.text);
        if !s2.isDone && now - s2.lastEditTime < RATE_LIMIT_MS then StepOut(s2, c1, true)
        else
          var o := Render(c1, s2.messages, s2.isDone, s2.indicator, step.text, failed, env);
          StepOut(s2.(lastEditTime := now, indicator := o.indicator, messages := o.messages), o.c, false)
      else StepOut(s1, c1, false)
  }

  /** The body of `for (const step of steps)`; `broke` is the rate limit's
      `break`. */
  method HandleStep(chat: Chat, isDone: bool, lastReportedText: string, lastEditTime: int,
                    indicator: Indicator, messages: seq<Handle>,
                    step: Rpc.Step, now: int, failed: set<nat>, env: Env)
    returns (isDone': bool, lastReportedText': string, lastEditTime': int,
             indicator': Indicator, messages': seq<Handle>, broke: bool)
    requires |messages| >= 1
    modifies chat
    ensures StepOut(Loop(isDone', lastReportedText', lastEditTime', indicator', messages'), chat.State(), broke)
            == ProcessStep(Loop(isDone, lastReportedText, lastEditTime, indicator, messages), old(chat.State()), step, now, failed, env)
  {
    isDone', lastReportedText', lastEditTime', indicator', messages', broke :=
      isDone, lastReportedText, lastEditTime, indicator, messages, false;
    if step.kind == Rpc.PLANNER_RESPONSE {
      if step.status == Rpc.STATUS_DONE {
        isDone' := true;
        RaiseReviewPanels(chat, messages[|messages| - 1], step.text, env);
      }
      if step.text != lastReportedText || isDone' {
        lastReportedText' := step.text;
        if !isDone' && now - lastEditTime < RATE_LIMIT_MS {
          broke := true;
          return;
        }
        lastEditTime' := now;
        messages', indicator' := RenderResponse(chat, messages, isDone', indicator, step.text, failed, env);
      }
    }
  }

  /** The steps `j..` of poll `i`, left early when the rate limit breaks. */
  function Snapshot(s: Loop, c: ChatState, steps: seq<Rpc.Step>, i: nat, j: nat,
                    clock: (nat, nat) -> int, failures: (nat, nat) -> set<nat>, env: Env): (r: (Loop, ChatState))
    requires |s.messages| >= 1
    ensures |r.0.messages| >= |s.messages|
    decreases |steps| - j
  {
    if j >= |steps| then (s, c)
    else
      var o := ProcessStep(s, c, steps[j], clock(i, j), failures(i, j), env);
      if o.broke then (o.s, o.c)
      else Snapshot(o.s, o.c, steps, i, j + 1, clock, failures, env)
  }

  /** How the loop ended: finished, out of modelled polls, or with the
      failure of a poll, which propagates to the caller. */
  datatype RunOut = RunOut(s: Loop, c: ChatState, error: Option<Rpc.RpcError>)

  /** `while (!isDone)` over the polls `i..`. */
  function Run(s: Loop, c: ChatState, polls: seq<Result<seq<Rpc.Step>, Rpc.RpcError>>, i: nat,
               clock: (nat, nat) -> int, failures: (nat, nat) -> set<nat>, env: Env): (r: RunOut)
    requires |s.messages| >= 1
    ensures |r.s.messages| >= |s.messages|
    decreases |polls| - i
  {
    if s.isDone || i >= |polls| then RunOut(s, c, None)
    else match polls[i]
      case Failure(e) => RunOut(s, c, Some(e))
      case Success(steps) =>
        var (s1, c1) := Snapshot(s, c, steps, i, 0, clock, failures, env);
        Run(s1, c1, polls, i + 1, clock, failures, env)
  }

  /** `pollStepsAndStream`: the loop over the polls `polls` of the session,
      with the chain `messages` that starts with the caller's message. */
  method PollStepsAndStream(chat: Chat, messages: seq<Handle>, start: int,
                            polls: seq<Result<seq<Rpc.Step>, Rpc.RpcError>>,
                            clock: (nat, nat) -> int, failures: (nat, nat) -> set<nat>, env: Env)
    returns (final: Loop, error: Option<Rpc.RpcError>)
    requires |messages| >= 1
    modifies chat
    ensures RunOut(final, chat.State(), error) == Run(Entry(messages, start), old(chat.State()), polls, 0, clock, failures, env)
  {
    var isDone := false;
    var lastReportedText := "";
    var lastEditTime := start;
    var indicator := Blue;
    var ms := messages;
    error := None;
    var i := 0;
    while !isDone && i < |polls|
      invariant |ms| >= 1
      invariant Run(Loop(isDone, lastReportedText, lastEditTime, indicator, ms), chat.State(), polls, i, clock, failures, env)
                == Run(Entry(messages, start), old(chat.State()), polls, 0, clock, failures, env)
      decreases |polls| - i
    {
      if polls[i].Failure? {
        error := Some(polls[i].error);
        break;
      }
      var steps := polls[i].value;
      ghost var atPoll := (Loop(isDone, lastReportedText, lastEditTime, indicator, ms), chat.State());
      var j := 0;
      while j < |steps|
        invariant |ms| >= 1
        invariant Snapshot(Loop(isDone, lastReportedText, lastEditTime, indicator, ms), chat.State(), steps, i, j, clock, failures, env)
                  == Snapshot(atPoll.0, atPoll.1, steps, i, 0, clock, failures, env)
        decreases |steps| - j
      {
        var broke;
        isDone, lastReportedText, lastEditTime, indicator, ms, broke :=
          HandleStep(chat, isDone, lastReportedText, lastEditTime, indicator, ms, steps[j], clock(i, j), failures(i, j), env);
        if broke {
          break;
        }
        j := j + 1;
      }
      i := i + 1;
    }
    final := Loop(isDone, lastReportedText, lastEditTime, indicator, ms);
  }
}
