/** What the turn-streaming loop guarantees: the message chain only grows,
    each shown update puts exactly the display text into the chain, updates
    are gated by change and by the rate limit, a finished response always
    flushes and raises its review panels, and the loop ends at the first
    finished response. */
module StreamProperties {
  import opened Wrappers
  import opened Directives
  import opened Chunking
  import opened ChatModel
  import opened Reconciler
  import Rpc

  // ---------------------------------------------------------------------
  // Growth of the message chain

  /** Growing appends fresh messages, each a "..." reply to the one before
      it, and changes no existing message. */
  lemma GrowAppends(c: ChatState, ms: seq<Handle>, count: nat)
    requires Tracked(ms, c)
    ensures var g := Grow(c, ms, count);
      && Tracked(g.1, g.0)
      && g.1[..|ms|] == ms
      && (forall k :: |ms| <= k < |g.1| ==>
            g.1[k] !in c.content && g.1[k] in g.0.content && g.0.content[g.1[k]] == "..."
            && g.1[k] in g.0.replyTo && g.0.replyTo[g.1[k]] == g.1[k - 1])
      && (forall h :: h in c.content ==> h in g.0.content && g.0.content[h] == c.content[h])
      && (forall h :: h in c.replyTo ==> h in g.0.replyTo && g.0.replyTo[h] == c.replyTo[h])
      && g.0.panels == c.panels
  {
    GrowNew(c, ms, count);
    GrowKeeps(c, ms, count);
  }

  /** The messages growth adds. */
  lemma {:induction false} GrowNew(c: ChatState, ms: seq<Handle>, count: nat)
    requires Tracked(ms, c)
    ensures var g := Grow(c, ms, count);
      && Tracked(g.1, g.0)
      && g.1[..|ms|] == ms
      && (forall k :: |ms| <= k < |g.1| ==>
            g.1[k] !in c.content && g.1[k] in g.0.content && g.0.content[g.1[k]] == "..."
            && g.1[k] in g.0.replyTo && g.0.replyTo[g.1[k]] == g.1[k - 1])
    decreases count - |ms|
  {
    if |ms| < count {
      var (c1, h) := Replied(c, Last(ms), "...");
      var ms1 := ms + [h];
      GrowStep(c, ms);
      GrowNew(c1, ms1, count);
      GrowKeeps(c1, ms1, count);
      var g := Grow(c1, ms1, count);
      assert g == Grow(c, ms, count);
      assert g.1[..|ms|] == ms by {
        assert g.1[..|ms1|] == ms1;
        assert g.1[..|ms|] == ms1[..|ms|];
      }
      forall k | |ms| <= k < |g.1|
        ensures g.1[k] !in c.content && g.1[k] in g.0.content && g.0.content[g.1[k]] == "..."
                && g.1[k] in g.0.replyTo && g.0.replyTo[g.1[k]] == g.1[k - 1]
      {
        if k == |ms| {
          assert g.1[..|ms1|] == ms1;
          assert g.1[k] == h && g.1[k - 1] == Last(ms);
        } else {
          assert g.1[k] !in c1.content;
        }
      }
    }
  }

  /** Growth changes no existing message, reply link or panel. */
  lemma {:induction false} GrowKeeps(c: ChatState, ms: seq<Handle>, count: nat)
    requires Tracked(ms, c)
    ensures var g := Grow(c, ms, count);
      && (forall h :: h in c.content ==> h in g.0.content && g.0.content[h] == c.content[h])
      && (forall h :: h in c.replyTo ==> h in g.0.replyTo && g.0.replyTo[h] == c.replyTo[h])
      && g.0.panels == c.panels
    decreases count - |ms|
  {
    if |ms| < count {
      var (c1, h) := Replied(c, Last(ms), "...");
      GrowStep(c, ms);
      GrowKeeps(c1, ms + [h], count);
    }
  }

  /** One reply of the growth loop: the chain stays tracked, the new
      message is new, and nothing else changes. */
  lemma GrowStep(c: ChatState, ms: seq<Handle>)
    requires Tracked(ms, c)
    ensures var (c1, h) := Replied(c, Last(ms), "...");
      && Tracked(ms + [h], c1)
      && h !in c.content
      && c1.content == c.content[h := "..."]
      && c1.replyTo == c.replyTo[h := Last(ms)]
      && c1.panels == c.panels
  {
    assert Last(ms) in c.content;
    var (c1, h) := Replied(c, Last(ms), "...");
    var ms1 := ms + [h];
    forall k | 0 <= k < |ms1| ensures ms1[k] in c1.content {
      if k < |ms| { assert ms1[k] == ms[k]; }
    }
    forall k, l | 0 <= k < l < |ms1| ensures ms1[k] < ms1[l] {
      if l < |ms| { assert ms1[k] == ms[k] && ms1[l] == ms[l]; }
      else { assert ms1[k] == ms[k] && ms[k] in c.content; }
    }
  }

  // ---------------------------------------------------------------------
  // The edits of one update

  /** The edits touch message contents only, and not the set of messages. */
  lemma {:induction false} EditFromKeys(c: ChatState, ms: seq<Handle>, chunks: seq<string>, isDone: bool,
                                        ind: Indicator, failed: set<nat>, k: nat)
    requires |chunks| <= |ms| && k <= |chunks|
    ensures var r := EditFrom(c, ms, chunks, isDone, ind, failed, k);
      r.content.Keys == c.content.Keys && r.replyTo == c.replyTo && r.panels == c.panels && r.next == c.next
    decreases |chunks| - k
  {
    if k < |chunks| {
      EditFromKeys(Edited(c, ms[k], Shown(chunks, k, isDone, ind), k !in failed), ms, chunks, isDone, ind, failed, k + 1);
    }
  }

  /** A message that carries none of the chunks `k..` keeps its text. */
  lemma {:induction false} EditFromOthers(c: ChatState, ms: seq<Handle>, chunks: seq<string>, isDone: bool,
                                          ind: Indicator, failed: set<nat>, k: nat, h: Handle)
    requires |chunks| <= |ms| && k <= |chunks|
    requires h in c.content && h !in ms[k..|chunks|]
    ensures h in EditFrom(c, ms, chunks, isDone, ind, failed, k).content
    ensures EditFrom(c, ms, chunks, isDone, ind, failed, k).content[h] == c.content[h]
    decreases |chunks| - k
  {
    if k < |chunks| {
      assert ms[k..|chunks|] == [ms[k]] + ms[k + 1..|chunks|];
      EditFromOthers(Edited(c, ms[k], Shown(chunks, k, isDone, ind), k !in failed), ms, chunks, isDone, ind, failed, k + 1, h);
    }
  }

  /** Handles that strictly increase along the chain. */
  ghost predicate Increasing(ms: seq<Handle>) {
    forall k, l :: 0 <= k < l < |ms| ==> ms[k] < ms[l]
  }

  /** The edit of chunk `l`, one of the chunks `k..`, puts that chunk, as
      shown, into the message with its index, unless that edit fails; the
      later edits touch other messages. */
  lemma {:induction false} EditFromAt(c: ChatState, ms: seq<Handle>, chunks: seq<string>, isDone: bool,
                                      ind: Indicator, failed: set<nat>, k: nat, l: nat)
    requires |chunks| <= |ms| && k <= l < |chunks| && Increasing(ms) && ms[l] in c.content
    ensures ms[l] in EditFrom(c, ms, chunks, isDone, ind, failed, k).content
    ensures EditFrom(c, ms, chunks, isDone, ind, failed, k).content[ms[l]]
            == if l in failed then c.content[ms[l]] else Shown(chunks, l, isDone, ind)
    decreases l - k
  {
    var c1 := Edited(c, ms[k], Shown(chunks, k, isDone, ind), k !in failed);
    assert EditFrom(c, ms, chunks, isDone, ind, failed, k) == EditFrom(c1, ms, chunks, isDone, ind, failed, k + 1);
    if k == l {
      assert ms[k] !in ms[k + 1..|chunks|] by {
        forall j | k + 1 <= j < |chunks| ensures ms[j] != ms[k] { assert ms[k] < ms[j]; }
      }
      EditFromOthers(c1, ms, chunks, isDone, ind, failed, k + 1, ms[k]);
    } else {
      assert ms[k] < ms[l];
      EditedOther(c, ms[k], Shown(chunks, k, isDone, ind), k !in failed, ms[l]);
      EditFromAt(c1, ms, chunks, isDone, ind, failed, k + 1, l);
    }
  }

  /** An edit leaves every other message as it was. */
  lemma EditedOther(c: ChatState, h: Handle, text: string, ok: bool, g: Handle)
    requires g in c.content && g != h
    ensures g in Edited(c, h, text, ok).content && Edited(c, h, text, ok).content[g] == c.content[g]
  {
  }

  /** Every chunk as sent. */
  function ShownChunks(chunks: seq<string>, isDone: bool, ind: Indicator): (r: seq<string>)
    ensures |r| == |chunks| && forall k :: 0 <= k < |chunks| ==> r[k] == Shown(chunks, k, isDone, ind)
  {
    seq(|chunks|, k requires 0 <= k < |chunks| => Shown(chunks, k, isDone, ind))
  }

  /** The texts of the first `n` messages of a chain, in order. */
  ghost function Texts(c: ChatState, ms: seq<Handle>, n: nat): (r: seq<string>)
    requires n <= |ms| && forall k :: 0 <= k < n ==> ms[k] in c.content
    ensures |r| == n && forall k :: 0 <= k < n ==> r[k] == c.content[ms[k]]
  {
    seq(n, k requires 0 <= k < n => c.content[ms[k]])
  }

  /** Laid end to end, the shown chunks are the whole text followed by the
      indicator while the turn runs. */
  lemma ConcatShown(chunks: seq<string>, isDone: bool, ind: Indicator)
    requires |chunks| >= 1
    ensures Concat(ShownChunks(chunks, isDone, ind)) == Concat(chunks) + if isDone then "" else Suffix(ind)
  {
    var n := |chunks|;
    var suf := if isDone then "" else Suffix(ind);
    var shown := ShownChunks(chunks, isDone, ind);
    var front := chunks[..n - 1];
    var last := chunks[n - 1];
    assert shown == front + [last + suf] by {
      forall k | 0 <= k < n ensures shown[k] == (front + [last + suf])[k] {
        if k < n - 1 { assert shown[k] == chunks[k] == front[k]; }
      }
    }
    SplitLast(chunks);
    ConcatAppend(front, [last + suf]);
    ConcatAppend(front, [last]);
    ConcatSingle(last + suf);
    ConcatSingle(last);
    AppendAssoc(Concat(front), last, suf);
  }

  lemma SplitLast(xs: seq<string>)
    requires |xs| >= 1
    ensures xs == xs[..|xs| - 1] + [xs[|xs| - 1]]
  {
  }

  lemma ConcatSingle(x: string)
    ensures Concat([x]) == x
  {
    assert Concat([x]) == x + Concat([]);
  }

  lemma {:induction false} ConcatAppend(a: seq<string>, b: seq<string>)
    ensures Concat(a + b) == Concat(a) + Concat(b)
    decreases |a|
  {
    if a == [] {
      assert a + b == b;
    } else {
      ConcatAppend(a[1..], b);
      assert (a + b)[0] == a[0];
      assert (a + b)[1..] == a[1..] + b;
    }
  }

  /** The chain grown to one message per chunk and the chunks edited in:
      the chain keeps its prefix; each chunk, as shown, lands in the message
      with its index unless that edit fails (then the message keeps its
      text, or "..." if it is new); messages past the last chunk keep their
      text. */
  lemma ChainEffect(c: ChatState, ms: seq<Handle>, chunks: seq<string>, isDone: bool, ind: Indicator,
                    failed: set<nat>)
    requires Tracked(ms, c)
    ensures var g := Grow(c, ms, |chunks|);
      var rc := EditFrom(g.0, g.1, chunks, isDone, ind, failed, 0);
      && Tracked(g.1, rc)
      && |g.1| >= |chunks|
      && g.1[..|ms|] == ms
      && (forall k :: 0 <= k < |chunks| && k !in failed ==>
            rc.content[g.1[k]] == Shown(chunks, k, isDone, ind))
      && (forall k :: 0 <= k < |chunks| && k in failed ==>
            rc.content[g.1[k]] == if k < |ms| then c.content[ms[k]] else "...")
      && (forall k :: |chunks| <= k < |ms| ==> rc.content[ms[k]] == c.content[ms[k]])
      && rc.panels == c.panels
  {
    var g := Grow(c, ms, |chunks|);
    GrowAppends(c, ms, |chunks|);
    EditFromKeys(g.0, g.1, chunks, isDone, ind, failed, 0);
    var rc := EditFrom(g.0, g.1, chunks, isDone, ind, failed, 0);
    assert Increasing(g.1);
    forall k | 0 <= k < |chunks|
      ensures rc.content[g.1[k]]
              == if k !in failed then Shown(chunks, k, isDone, ind)
                 else if k < |ms| then c.content[ms[k]] else "..."
    {
      EditFromAt(g.0, g.1, chunks, isDone, ind, failed, 0, k);
      if k < |ms| { assert g.1[k] == g.1[..|ms|][k] == ms[k]; }
    }
    forall k | |chunks| <= k < |ms| ensures rc.content[ms[k]] == c.content[ms[k]] {
      assert ms[k] == g.1[..|ms|][k] == g.1[k];
      assert ms[k] !in g.1[0..|chunks|] by {
        forall l | 0 <= l < |chunks| ensures g.1[l] != ms[k] { assert g.1[l] < g.1[k]; }
      }
      EditFromOthers(g.0, g.1, chunks, isDone, ind, failed, 0, ms[k]);
    }
  }

  /** One shown update: the chain grows to at least one message per chunk
      of the display text, as `ChainEffect` states, and the indicator flips
      while the turn runs. */
  lemma RenderEffect(c: ChatState, ms: seq<Handle>, isDone: bool, ind: Indicator,
                     text: string, failed: set<nat>, env: Env)
    requires Tracked(ms, c)
    ensures var chunks := Chunks(DisplayText(text, isDone, env.modelDisplay, env.mode));
      var r := Render(c, ms, isDone, ind, text, failed, env);
      && Tracked(r.messages, r.c)
      && |r.messages| >= |chunks|
      && r.messages[..|ms|] == ms
      && r.indicator == (if isDone then ind else Flip(ind))
      && (forall k :: 0 <= k < |chunks| && k !in failed ==>
            r.c.content[r.messages[k]] == Shown(chunks, k, isDone, r.indicator))
      && (forall k :: 0 <= k < |chunks| && k in failed ==>
            r.c.content[r.messages[k]] == if k < |ms| then c.content[ms[k]] else "...")
      && (forall k :: |chunks| <= k < |ms| ==> r.c.content[ms[k]] == c.content[ms[k]])
      && r.c.panels == c.panels
  {
    var chunks := Chunks(DisplayText(text, isDone, env.modelDisplay, env.mode));
    var ind1 := if isDone then ind else Flip(ind);
    ChainEffect(c, ms, chunks, isDone, ind1, failed);
    var g := Grow(c, ms, |chunks|);
    assert Render(c, ms, isDone, ind, text, failed, env)
        == Rendered(EditFrom(g.0, g.1, chunks, isDone, ind1, failed, 0), g.1, ind1);
  }

  /** When no edit fails, the chunk messages, read in order, show exactly the
      display text, followed by the indicator while the turn runs. */
  lemma RenderShowsText(c: ChatState, ms: seq<Handle>, isDone: bool, ind: Indicator, text: string, env: Env)
    requires Tracked(ms, c)
    ensures var shownText := DisplayText(text, isDone, env.modelDisplay, env.mode);
      var n := |Chunks(shownText)|;
      var r := Render(c, ms, isDone, ind, text, {}, env);
      n <= |r.messages| && Tracked(r.messages, r.c) &&
      Concat(Texts(r.c, r.messages, n)) == shownText + if isDone then "" else Suffix(r.indicator)
  {
    var shownText := DisplayText(text, isDone, env.modelDisplay, env.mode);
    var chunks := Chunks(shownText);
    var n := |chunks|;
    var r := Render(c, ms, isDone, ind, text, {}, env);
    RenderEffect(c, ms, isDone, ind, text, {}, env);
    var shown := ShownChunks(chunks, isDone, r.indicator);
    var sent := Texts(r.c, r.messages, n);
    forall k | 0 <= k < n ensures sent[k] == shown[k] {
      assert k !in {};
    }
    assert sent == shown;
    ConcatShown(chunks, isDone, r.indicator);
    ChunksConcat(shownText);
  }

  // ---------------------------------------------------------------------
  // One step

  /** A step that is not a planner response changes nothing. */
  lemma OtherStepsIgnored(s: Loop, c: ChatState, step: Rpc.Step, now: int, failed: set<nat>, env: Env)
    requires |s.messages| >= 1 && step.kind != Rpc.PLANNER_RESPONSE
    ensures ProcessStep(s, c, step, now, failed, env) == StepOut(s, c, false)
  {
  }

  /** While the turn runs, a response equal to the last reported one
      changes nothing: no edit, no panel, no new message. */
  lemma UnchangedTextSkipped(s: Loop, c: ChatState, step: Rpc.Step, now: int, failed: set<nat>, env: Env)
    requires |s.messages| >= 1 && !s.isDone
    requires step.kind == Rpc.PLANNER_RESPONSE && step.status != Rpc.STATUS_DONE
    requires step.text == s.lastReportedText
    ensures ProcessStep(s, c, step, now, failed, env) == StepOut(s, c, false)
  {
  }

  /** While the turn runs, a changed response within the rate-limit window
      of the last update is recorded as reported but not shown, and the rest
      of the snapshot is skipped. */
  lemma RateLimitedStep(s: Loop, c: ChatState, step: Rpc.Step, now: int, failed: set<nat>, env: Env)
    requires |s.messages| >= 1 && !s.isDone
    requires step.kind == Rpc.PLANNER_RESPONSE && step.status != Rpc.STATUS_DONE
    requires step.text != s.lastReportedText && now - s.lastEditTime < RATE_LIMIT_MS
    ensures ProcessStep(s, c, step, now, failed, env) == StepOut(s.(lastReportedText := step.text), c, true)
  {
  }

  /** While the turn runs, a changed response outside the window is shown:
      the update time becomes `now`, the indicator flips, and no panel is
      raised. */
  lemma ChangedStepShown(s: Loop, c: ChatState, step: Rpc.Step, now: int, failed: set<nat>, env: Env)
    requires Tracked(s.messages, c) && !s.isDone
    requires step.kind == Rpc.PLANNER_RESPONSE && step.status != Rpc.STATUS_DONE
    requires step.text != s.lastReportedText && now - s.lastEditTime >= RATE_LIMIT_MS
    ensures var r := ProcessStep(s, c, step, now, failed, env);
      && !r.broke && !r.s.isDone
      && r.s.lastReportedText == step.text && r.s.lastEditTime == now
      && r.s.indicator == Flip(s.indicator)
      && r.c == Render(c, s.messages, false, s.indicator, step.text, failed, env).c
      && r.c.panels == c.panels
  {
    RenderEffect(c, s.messages, false, s.indicator, step.text, failed, env);
  }

  /** A finished response always flushes, whatever the clock says: the turn
      is done, the update time is `now`, every chunk is shown without the
      indicator (unless its edit fails), and one panel per existing file it
      names is raised as a reply to the last message of the chain. */
  lemma DoneStepFlushes(s: Loop, c: ChatState, step: Rpc.Step, now: int, failed: set<nat>, env: Env)
    requires Tracked(s.messages, c)
    requires step.kind == Rpc.PLANNER_RESPONSE && step.status == Rpc.STATUS_DONE
    ensures var r := ProcessStep(s, c, step, now, failed, env);
      var chunks := Chunks(DisplayText(step.text, true, env.modelDisplay, env.mode));
      && !r.broke && r.s.isDone
      && r.s.lastReportedText == step.text && r.s.lastEditTime == now
      && r.s.indicator == s.indicator
      && Tracked(r.s.messages, r.c)
      && |r.s.messages| >= |chunks|
      && (forall k :: 0 <= k < |chunks| && k !in failed ==> r.c.content[r.s.messages[k]] == chunks[k])
      && r.c.panels == c.panels + PanelsFor(Last(s.messages), ReviewPaths(step.text), env)
  {
    var c1 := c.(panels := c.panels + PanelsFor(Last(s.messages), ReviewPaths(step.text), env));
    assert Tracked(s.messages, c1);
    var s2 := s.(isDone := true, lastReportedText := step.text);
    var o := Render(c1, s.messages, true, s.indicator, step.text, failed, env);
    assert ProcessStep(s, c, step, now, failed, env)
        == StepOut(s2.(lastEditTime := now, indicator := o.indicator, messages := o.messages), o.c, false);
    RenderEffect(c1, s.messages, true, s.indicator, step.text, failed, env);
    var chunks := Chunks(DisplayText(step.text, true, env.modelDisplay, env.mode));
    forall k | 0 <= k < |chunks| && k !in failed ensures o.c.content[o.messages[k]] == chunks[k] {
      assert Shown(chunks, k, true, o.indicator) == chunks[k];
    }
  }

  /** Review panels are raised only for a finished planner response. */
  lemma PanelsOnlyWhenDone(s: Loop, c: ChatState, step: Rpc.Step, now: int, failed: set<nat>, env: Env)
    requires Tracked(s.messages, c)
    requires step.kind != Rpc.PLANNER_RESPONSE || step.status != Rpc.STATUS_DONE
    ensures ProcessStep(s, c, step, now, failed, env).c.panels == c.panels
  {
    if step.kind == Rpc.PLANNER_RESPONSE && (step.text != s.lastReportedText || s.isDone)
       && (s.isDone || now - s.lastEditTime >= RATE_LIMIT_MS) {
      RenderEffect(c, s.messages, s.isDone, s.indicator, step.text, failed, env);
    }
  }

  /** Every step keeps the chain well formed and only appends to it; once
      done, the turn stays done and the rate limit no longer applies; a step
      that breaks leaves the chat as it was. */
  lemma StepPreserves(s: Loop, c: ChatState, step: Rpc.Step, now: int, failed: set<nat>, env: Env)
    requires Tracked(s.messages, c)
    ensures var r := ProcessStep(s, c, step, now, failed, env);
      && Tracked(r.s.messages, r.c)
      && r.s.messages[..|s.messages|] == s.messages
      && (s.isDone ==> r.s.isDone && !r.broke)
      && (r.broke ==> r.c == c && !r.s.isDone)
  {
    if step.kind == Rpc.PLANNER_RESPONSE {
      var finished := step.status == Rpc.STATUS_DONE;
      var c1 := if finished then c.(panels := c.panels + PanelsFor(Last(s.messages), ReviewPaths(step.text), env)) else c;
      assert Tracked(s.messages, c1);
      var isDone := s.isDone || finished;
      RenderEffect(c1, s.messages, isDone, s.indicator, step.text, failed, env);
    } else {
      assert s.messages[..|s.messages|] == s.messages;
    }
  }

  // ---------------------------------------------------------------------
  // One snapshot and the whole loop

  /** A snapshot keeps the chain well formed, only appends to it, and never
      undoes `isDone`. */
  lemma {:induction false} SnapshotPreserves(s: Loop, c: ChatState, steps: seq<Rpc.Step>, i: nat, j: nat,
                                             clock: (nat, nat) -> int, failures: (nat, nat) -> set<nat>, env: Env)
    requires Tracked(s.messages, c)
    ensures var r := Snapshot(s, c, steps, i, j, clock, failures, env);
      Tracked(r.0.messages, r.1) && r.0.messages[..|s.messages|] == s.messages && (s.isDone ==> r.0.isDone)
    decreases |steps| - j
  {
    if j < |steps| {
      var o := ProcessStep(s, c, steps[j], clock(i, j), failures(i, j), env);
      StepPreserves(s, c, steps[j], clock(i, j), failures(i, j), env);
      if !o.broke {
        SnapshotPreserves(o.s, o.c, steps, i, j + 1, clock, failures, env);
        var r := Snapshot(o.s, o.c, steps, i, j + 1, clock, failures, env);
        assert r.0.messages[..|s.messages|] == r.0.messages[..|o.s.messages|][..|s.messages|];
      }
    } else {
      assert s.messages[..|s.messages|] == s.messages;
    }
  }

  /** A snapshot whose first step is a finished planner response finishes
      the turn. */
  lemma SnapshotWithDoneFirst(s: Loop, c: ChatState, steps: seq<Rpc.Step>, i: nat,
                              clock: (nat, nat) -> int, failures: (nat, nat) -> set<nat>, env: Env)
    requires Tracked(s.messages, c)
    requires |steps| >= 1 && steps[0].kind == Rpc.PLANNER_RESPONSE && steps[0].status == Rpc.STATUS_DONE
    ensures Snapshot(s, c, steps, i, 0, clock, failures, env).0.isDone
  {
    var o := ProcessStep(s, c, steps[0], clock(i, 0), failures(i, 0), env);
    DoneStepFlushes(s, c, steps[0], clock(i, 0), failures(i, 0), env);
    StepPreserves(s, c, steps[0], clock(i, 0), failures(i, 0), env);
    SnapshotPreserves(o.s, o.c, steps, i, 1, clock, failures, env);
  }

  /** The loop keeps the chain well formed and only appends to it. */
  lemma {:induction false} RunAppendOnly(s: Loop, c: ChatState, polls: seq<Result<seq<Rpc.Step>, Rpc.RpcError>>, i: nat,
                                         clock: (nat, nat) -> int, failures: (nat, nat) -> set<nat>, env: Env)
    requires Tracked(s.messages, c)
    ensures var r := Run(s, c, polls, i, clock, failures, env);
      Tracked(r.s.messages, r.c) && r.s.messages[..|s.messages|] == s.messages
    decreases |polls| - i
  {
    if !s.isDone && i < |polls| && polls[i].Success? {
      SnapshotPreserves(s, c, polls[i].value, i, 0, clock, failures, env);
      var (s1, c1) := Snapshot(s, c, polls[i].value, i, 0, clock, failures, env);
      RunAppendOnly(s1, c1, polls, i + 1, clock, failures, env);
      var r := Run(s1, c1, polls, i + 1, clock, failures, env);
      assert r.s.messages[..|s.messages|] == r.s.messages[..|s1.messages|][..|s.messages|];
    } else {
      assert s.messages[..|s.messages|] == s.messages;
    }
  }

  /** The loop stops at the first snapshot that finishes the turn: the
      polls after it are never read. */
  lemma RunStopsAtDone(s: Loop, c: ChatState, polls: seq<Result<seq<Rpc.Step>, Rpc.RpcError>>, i: nat,
                       clock: (nat, nat) -> int, failures: (nat, nat) -> set<nat>, env: Env)
    requires |s.messages| >= 1 && !s.isDone && i < |polls| && polls[i].Success?
    requires Snapshot(s, c, polls[i].value, i, 0, clock, failures, env).0.isDone
    ensures var (s1, c1) := Snapshot(s, c, polls[i].value, i, 0, clock, failures, env);
      Run(s, c, polls, i, clock, failures, env) == RunOut(s1, c1, None)
      && Run(s, c, polls, i, clock, failures, env) == Run(s, c, polls[..i + 1], i, clock, failures, env)
  {
    assert polls[..i + 1][i] == polls[i];
  }

  /** In a resumed session the snapshot replays earlier turns: when it
      starts with an earlier finished response, the new turn ends on its
      first poll, showing that earlier response. */
  lemma ResumedSessionEndsAtFirstPoll(ms: seq<Handle>, start: int, c: ChatState,
                                      polls: seq<Result<seq<Rpc.Step>, Rpc.RpcError>>,
                                      clock: (nat, nat) -> int, failures: (nat, nat) -> set<nat>, env: Env)
    requires Tracked(ms, c)
    requires |polls| >= 1 && polls[0].Success? && |polls[0].value| >= 1
    requires polls[0].value[0].kind == Rpc.PLANNER_RESPONSE && polls[0].value[0].status == Rpc.STATUS_DONE
    ensures var (s1, c1) := Snapshot(Entry(ms, start), c, polls[0].value, 0, 0, clock, failures, env);
      Run(Entry(ms, start), c, polls, 0, clock, failures, env) == RunOut(s1, c1, None)
  {
    SnapshotWithDoneFirst(Entry(ms, start), c, polls[0].value, 0, clock, failures, env);
  }

  /** The update time starts at loop entry, so the first changed response is
      not shown when it arrives within the rate-limit window of the entry:
      the chat keeps the caller's message as it was. */
  lemma FirstResponseWithinWindowHidden(ms: seq<Handle>, start: int, c: ChatState, step: Rpc.Step,
                                        now: int, failed: set<nat>, env: Env)
    requires |ms| >= 1
    requires step.kind == Rpc.PLANNER_RESPONSE && step.status != Rpc.STATUS_DONE
    requires step.text != "" && now < start + RATE_LIMIT_MS
    ensures var r := ProcessStep(Entry(ms, start), c, step, now, failed, env);
      r.broke && r.c == c && r.s.lastReportedText == step.text && r.s.lastEditTime == start
  {
    RateLimitedStep(Entry(ms, start), c, step, now, failed, env);
  }
}
