/** The chat service as the bridge sees it: messages it can post, reply to
    and edit, identified by abstract handles, and the review panels it
    sends. The service's own behaviour is reduced to what these operations
    do to message contents; an edit may fail, and then changes nothing. */
module ChatModel {

  /** A sent message. */
  type Handle = nat

  /** An approve/reject panel sent as a reply to `parent` for one file. */
  datatype Panel = Panel(parent: Handle, file: string, approveId: string, rejectId: string)

  /** The panel raised for `file` in the session `cascadeId`: both buttons
      carry the session's id. */
  function ReviewPanel(parent: Handle, file: string, cascadeId: string): Panel {
    Panel(parent, file, "review_yes_" + cascadeId, "review_no_" + cascadeId)
  }

  /** The chat: the text of every message, the message each reply answers,
      the panels sent so far, and the next handle the service will issue. */
  datatype ChatState = ChatState(
    content: map<Handle, string>,
    replyTo: map<Handle, Handle>,
    panels: seq<Panel>,
    next: Handle)

  /** Every message was issued before `next`, and every reply answers a
      message of the chat. */
  ghost predicate Valid(c: ChatState) {
    && (forall h :: h in c.content ==> h < c.next)
    && (forall h :: h in c.replyTo ==> h in c.content && c.replyTo[h] in c.content)
  }

  /** A new message that answers no message. */
  function Posted(c: ChatState, text: string): (r: (ChatState, Handle))
    ensures r.1 !in c.content ==> r.0.content == c.content[r.1 := text]
    ensures Valid(c) ==> Valid(r.0) && r.1 !in c.content
    ensures r.0.replyTo == c.replyTo && r.0.panels == c.panels
  {
    (c.(content := c.content[c.next := text], next := c.next + 1), c.next)
  }

  /** A new message answering `parent`. */
  function Replied(c: ChatState, parent: Handle, text: string): (r: (ChatState, Handle))
    ensures Valid(c) && parent in c.content ==>
              && Valid(r.0) && r.1 !in c.content
              && r.0.content == c.content[r.1 := text]
              && r.0.replyTo == c.replyTo[r.1 := parent]
              && r.0.panels == c.panels
  {
    (c.(content := c.content[c.next := text], replyTo := c.replyTo[c.next := parent],
        next := c.next + 1), c.next)
  }

  /** An edit of message `h`: the text is replaced when the edit goes
      through (`ok`) and the message exists; nothing changes otherwise. */
  function Edited(c: ChatState, h: Handle, text: string, ok: bool): (r: ChatState)
    ensures r.content.Keys == c.content.Keys
    ensures h in c.content ==> r.content[h] == if ok then text else c.content[h]
    ensures Valid(c) ==> Valid(r)
    ensures r.replyTo == c.replyTo && r.panels == c.panels && r.next == c.next
  {
    if ok && h in c.content then c.(content := c.content[h := text]) else c
  }

  /** A panel sent. */
  function WithPanel(c: ChatState, p: Panel): (r: ChatState)
    ensures r.panels == c.panels + [p]
    ensures r.content == c.content && r.replyTo == c.replyTo && r.next == c.next
  {
    c.(panels := c.panels + [p])
  }

  /** The chat service object the bridge talks to. */
  class Chat {
    var content: map<Handle, string>
    var replyTo: map<Handle, Handle>
    var panels: seq<Panel>
    var next: Handle

    /** The chat's state as a value. */
    function State(): ChatState
      reads this
    {
      ChatState(content, replyTo, panels, next)
    }

    constructor (initial: ChatState)
      ensures State() == initial
    {
      content := initial.content;
      replyTo := initial.replyTo;
      panels := initial.panels;
      next := initial.next;
    }

    /** `channel.send(text)`. */
    method Post(text: string) returns (h: Handle)
      modifies this
      ensures (State(), h) == Posted(old(State()), text)
    {
      h := next;
      content := content[h := text];
      next := next + 1;
    }

    /** `message.reply(text)`. */
    method Reply(parent: Handle, text: string) returns (h: Handle)
      modifies this
      ensures (State(), h) == Replied(old(State()), parent, text)
    {
      h := next;
      content := content[h := text];
      replyTo := replyTo[h := parent];
      next := next + 1;
    }

    /** `message.edit(text)`; `ok` is false when the service refuses it. */
    method Edit(h: Handle, text: string, ok: bool)
      modifies this
      ensures State() == Edited(old(State()), h, text, ok)
    {
      if ok && h in content {
        content := content[h := text];
      }
    }

    /** A review panel sent as a reply. */
    method SendPanel(p: Panel)
      modifies this
      ensures State() == WithPanel(old(State()), p)
    {
      panels := panels + [p];
    }
  }
}
