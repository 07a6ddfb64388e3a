/** The bridge's global configuration: the selected model, its display name,
    the mode and the auto-approve flag; the `/mode` commands and the model
    buttons that change it, and the selection panel that shows it. */
module GlobalConfig {
  import opened Wrappers
  import opened Strings

  /** The four fields of the global configuration object. */
  datatype Config = Config(model: string, display: string, mode: string, autoApprove: bool)

  const PRO_HIGH := "Gemini 3.1 Pro (High)"
  const FLASH := "Gemini 3 Flash"
  /** The ids the table gives these two names (see `ModeModels`). */
  const PRO_HIGH_ID := "MODEL_PLACEHOLDER_M37"
  const FLASH_ID := "MODEL_PLACEHOLDER_M18"
  const UNKNOWN_MODEL := "Unknown Model"
  const MODEL_PREFIX := "model_"
  const ROW_WIDTH: nat := 5

  /** The display names and model ids, in declaration order. */
  const MODEL_MAP: seq<(string, string)> := [
    ("Gemini 3.1 Pro (High)", "MODEL_PLACEHOLDER_M37"),
    ("Gemini 3.1 Pro (Low)", "MODEL_PLACEHOLDER_M36"),
    ("Gemini 3 Pro (High)", "MODEL_GOOGLE_GEMINI_2_5_FLASH_THINKING"),
    ("Gemini 3 Pro (Low)", "MODEL_GOOGLE_GEMINI_2_5_FLASH_LITE"),
    ("Gemini 3 Flash", "MODEL_PLACEHOLDER_M18"),
    ("Claude Sonnet 4.6 (Thinking)", "MODEL_PLACEHOLDER_M35"),
    ("Claude Opus 4.6 (Thinking)", "MODEL_PLACEHOLDER_M26"),
    ("GPT-OSS 120B (Medium)", "MODEL_OPENAI_GPT_OSS_120B_MEDIUM")
  ]

  /** The configuration the bridge starts with. */
  const INITIAL := Config(PRO_HIGH_ID, PRO_HIGH, "Planning", false)

  // ---------------------------------------------------------------------
  // Lookups in the model table

  /** The index of the first entry whose id (`byId`) or display name
      equals `x`. */
  function FirstEntry(entries: seq<(string, string)>, x: string, byId: bool): (r: Option<nat>)
    ensures r.Some? ==> r.value < |entries|
                        && (if byId then entries[r.value].1 else entries[r.value].0) == x
    ensures r.Some? ==> forall j :: 0 <= j < r.value ==> (if byId then entries[j].1 else entries[j].0) != x
    ensures r.None? ==> forall j :: 0 <= j < |entries| ==> (if byId then entries[j].1 else entries[j].0) != x
  {
    if entries == [] then None
    else if (if byId then entries[0].1 else entries[0].0) == x then Some(0)
    else match FirstEntry(entries[1..], x, byId)
      case None => None
      case Some(k) => Some(k + 1)
  }

  /** `MODEL_MAP[display]`. */
  function ModelOf(display: string): Option<string> {
    match FirstEntry(MODEL_MAP, display, false)
    case None => None
    case Some(k) => Some(MODEL_MAP[k].1)
  }

  /** The button handler's search for a display name: the first entry with
      the id, or "Unknown Model". */
  function ReverseLookup(id: string): string {
    match FirstEntry(MODEL_MAP, id, true)
    case None => UNKNOWN_MODEL
    case Some(k) => MODEL_MAP[k].0
  }

  /** No two entries share a display name or an id. */
  lemma ModelMapDistinct()
    ensures forall i, j :: 0 <= i < j < |MODEL_MAP| ==> MODEL_MAP[i].0 != MODEL_MAP[j].0
    ensures forall i, j :: 0 <= i < j < |MODEL_MAP| ==> MODEL_MAP[i].1 != MODEL_MAP[j].1
  {
  }

  /** The reverse lookup finds the display name of every id in the table,
      and only ids in the table have a known name. */
  lemma ReverseLookupInverts(k: nat)
    requires k < |MODEL_MAP|
    ensures ReverseLookup(MODEL_MAP[k].1) == MODEL_MAP[k].0
    ensures ModelOf(MODEL_MAP[k].0) == Some(MODEL_MAP[k].1)
  {
    ModelMapDistinct();
  }

  /** An id the table does not hold is shown as "Unknown Model". */
  lemma UnknownIdsHaveNoName(id: string)
    requires forall k :: 0 <= k < |MODEL_MAP| ==> MODEL_MAP[k].1 != id
    ensures ReverseLookup(id) == UNKNOWN_MODEL
  {
  }

  /** The two models the mode commands select are in the table. */
  lemma ModeModels()
    ensures ModelOf(PRO_HIGH) == Some(PRO_HIGH_ID)
    ensures ModelOf(FLASH) == Some(FLASH_ID)
  {
    ReverseLookupInverts(0);
    ReverseLookupInverts(4);
  }

  // ---------------------------------------------------------------------
  // The `/mode` command

  /** `content.split(' ')[1]?.toLowerCase()`: the lower-cased second word,
      or nothing when there is none. */
  function ModeArg(content: string): (r: Option<string>)
  {
    var words := Split(content, ' ');
    if |words| < 2 then None else Some(LowerAscii(words[1]))
  }

  /** The word after `/mode ` is the argument, lower-cased, whatever
      follows it after a space. */
  lemma ModeArgOf(w: string, rest: string)
    requires ' ' !in w
    requires rest == [] || rest[0] == ' '
    ensures ModeArg("/mode " + w + rest) == Some(LowerAscii(w))
  {
    var s := "/mode " + w + rest;
    assert s[5] == ' ';
    assert FirstIndex(s, ' ') == 5;
    assert s[6..] == w + rest;
    var t := w + rest;
    assert forall k :: 0 <= k < |w| ==> t[k] == w[k];
    if rest == [] {
      assert t == w;
      assert FirstIndex(t, ' ') == |w|;
    } else {
      assert t[|w|] == ' ';
      assert FirstIndex(t, ' ') == |w|;
    }
    assert t[..|w|] == w;
    assert Split(t, ' ')[0] == w;
    assert Split(s, ' ') == [s[..5]] + Split(t, ' ');
  }

  /** The replies of the `/mode` command. */
  datatype ModeReply = SwitchedToPlanning | SwitchedToFast | AutoApproveNow(on: bool) | InvalidMode

  /** The text each reply is sent with. */
  function ReplyText(r: ModeReply): string {
    match r
    case SwitchedToPlanning => "🧠 Switched to **Planning Mode** (High Intelligence: Gemini 3.1 Pro)."
    case SwitchedToFast => "⚡ Switched to **Fast Mode** (High Speed: Gemini 3 Flash)."
    case AutoApproveNow(on) =>
      "🤖 **Auto-Approve / GitHub Deployment Mode** is now **" + (if on then "ON" else "OFF")
      + "**.\n*(When ON, the AI will be instructed to automatically run commands, create a GitHub repo, and push the final code.)*"
    case InvalidMode => "Invalid mode. Use `/mode planning`, `/mode fast`, or `/mode auto`."
  }

  /** The words the command recognizes after it is lower-cased. */
  datatype ModeWord = PlanningWord | FastWord | AutoWord | Unrecognized

  /** The `===` comparisons of lines 70, 76 and 78 on the argument. */
  function WordOf(arg: Option<string>): (w: ModeWord)
    ensures w == PlanningWord <==> arg == Some("planning")
    ensures w == FastWord <==> arg == Some("fast")
    ensures w == AutoWord <==> arg == Some("auto")
  {
    if arg == Some("planning") then PlanningWord
    else if arg == Some("fast") then FastWord
    else if arg == Some("auto") then AutoWord
    else Unrecognized
  }

  /** Lines 66-85: the new configuration and the reply to the command. */
  function ModeCommand(c: Config, w: ModeWord): (Config, ModeReply) {
    match w
    case PlanningWord => (c.(mode := "Planning", model := PRO_HIGH_ID, display := PRO_HIGH), SwitchedToPlanning)
    case FastWord => (c.(mode := "Fast", model := FLASH_ID, display := FLASH), SwitchedToFast)
    case AutoWord => (c.(autoApprove := !c.autoApprove), AutoApproveNow(!c.autoApprove))
    case Unrecognized => (c, InvalidMode)
  }

  /** Each mode argument does what the source promises (with `ModeArgOf`,
      the word after `/mode ` in any letter case): planning and fast select
      the model the table gives their display name, auto toggles the flag
      and nothing else, and anything else changes nothing. */
  lemma ModeTransitions(c: Config, arg: Option<string>)
    ensures var r := ModeCommand(c, WordOf(arg));
      && (arg == Some("planning") ==>
            r.0 == Config(r.0.model, PRO_HIGH, "Planning", c.autoApprove) && ModelOf(PRO_HIGH) == Some(r.0.model)
            && r.1 == SwitchedToPlanning)
      && (arg == Some("fast") ==>
            r.0 == Config(r.0.model, FLASH, "Fast", c.autoApprove) && ModelOf(FLASH) == Some(r.0.model)
            && r.1 == SwitchedToFast)
      && (arg == Some("auto") ==> r == (c.(autoApprove := !c.autoApprove), AutoApproveNow(!c.autoApprove)))
      && (arg.None? || arg.value !in {"planning", "fast", "auto"} ==> r == (c, InvalidMode))
  {
    ModeModels();
  }

  /** Two auto commands in a row restore the flag. */
  lemma AutoTwiceRestores(c: Config)
    ensures ModeCommand(ModeCommand(c, AutoWord).0, AutoWord).0 == c
  {
  }

  // ---------------------------------------------------------------------
  // The model buttons

  /** Lines 102-118: a button whose id starts with `model_` and names a
      non-empty id selects that id and its display name; any other button
      changes nothing. */
  function ButtonPress(c: Config, customId: string): Config {
    if !StartsWith(customId, MODEL_PREFIX) then c
    else
      var newModelId := ReplaceFirst(customId, MODEL_PREFIX, "");
      if newModelId != "" then c.(model := newModelId, display := ReverseLookup(newModelId)) else c
  }

  /** A model button selects the id after the prefix, with the name the
      table gives it; a bare `model_` changes nothing. */
  lemma ButtonPressSelects(c: Config, id: string)
    ensures id != "" ==> ButtonPress(c, MODEL_PREFIX + id) == c.(model := id, display := ReverseLookup(id))
    ensures id == "" ==> ButtonPress(c, MODEL_PREFIX + id) == c
    ensures ButtonPress(c, MODEL_PREFIX + id).mode == c.mode
    ensures ButtonPress(c, MODEL_PREFIX + id).autoApprove == c.autoApprove
  {
    var s := MODEL_PREFIX + id;
    assert StartsWith(s, MODEL_PREFIX);
    ReplacePrefix(s, MODEL_PREFIX);
    assert s[|MODEL_PREFIX|..] == id;
  }

  /** The review buttons' ids do not start with `model_`: pressing them
      changes nothing. */
  lemma ReviewButtonsIgnored(c: Config, cascadeId: string)
    ensures ButtonPress(c, "review_yes_" + cascadeId) == c
    ensures ButtonPress(c, "review_no_" + cascadeId) == c
  {
    assert ("review_yes_" + cascadeId)[0] == 'r';
    assert ("review_no_" + cascadeId)[0] == 'r';
  }

  // ---------------------------------------------------------------------
  // The selection panel

  /** One button of the panel: its custom id, its caption, and whether it is
      shown as the selected one. */
  datatype Button = Button(customId: string, caption: string, selected: bool)

  /** The button of one table entry. */
  function ButtonFor(entry: (string, string), current: string): Button {
    Button(MODEL_PREFIX + entry.1, entry.0, current == entry.1)
  }

  /** One button per entry of `entries`, in order. */
  function ButtonsOf(entries: seq<(string, string)>, current: string): (r: seq<Button>)
    ensures |r| == |entries|
    ensures forall k :: 0 <= k < |entries| ==> r[k] == ButtonFor(entries[k], current)
  {
    seq(|entries|, k requires 0 <= k < |entries| => ButtonFor(entries[k], current))
  }

  /** One button per table entry, in table order. */
  function Buttons(current: string): (r: seq<Button>)
    ensures |r| == |MODEL_MAP|
  {
    ButtonsOf(MODEL_MAP, current)
  }

  /** Rows of `ROW_WIDTH` buttons, the last one possibly shorter; no empty
      row. */
  function Rows(bs: seq<Button>): seq<seq<Button>>
    decreases |bs|
  {
    if bs == [] then [] else if |bs| <= ROW_WIDTH then [bs] else [bs[..ROW_WIDTH]] + Rows(bs[ROW_WIDTH..])
  }

  /** The rows laid end to end. */
  function Flatten(rows: seq<seq<Button>>): seq<Button> {
    if rows == [] then [] else rows[0] + Flatten(rows[1..])
  }

  /** Read row by row, the panel holds every button once, in order. */
  lemma {:induction false} RowsFlatten(bs: seq<Button>)
    ensures Flatten(Rows(bs)) == bs
    decreases |bs|
  {
    if bs != [] && |bs| > ROW_WIDTH {
      RowsFlatten(bs[ROW_WIDTH..]);
      assert Rows(bs)[1..] == Rows(bs[ROW_WIDTH..]);
      assert bs == bs[..ROW_WIDTH] + bs[ROW_WIDTH..];
    } else if bs != [] {
      assert Flatten([bs]) == bs + Flatten([]);
    }
  }

  /** Every row holds one to five buttons, and every row but the last five. */
  lemma {:induction false} RowsSizes(bs: seq<Button>)
    ensures forall k :: 0 <= k < |Rows(bs)| ==> 1 <= |Rows(bs)[k]| <= ROW_WIDTH
    ensures forall k :: 0 <= k < |Rows(bs)| - 1 ==> |Rows(bs)[k]| == ROW_WIDTH
    ensures |Rows(bs)| == (|bs| + ROW_WIDTH - 1) / ROW_WIDTH
    decreases |bs|
  {
    if |bs| > ROW_WIDTH {
      var rest := Rows(bs[ROW_WIDTH..]);
      RowsSizes(bs[ROW_WIDTH..]);
      assert Rows(bs) == [bs[..ROW_WIDTH]] + rest;
      forall k | 1 <= k < |Rows(bs)| ensures Rows(bs)[k] == rest[k - 1] { }
    }
  }

  /** Rows of a whole number of full rows followed by more buttons are the
      rows of each part. */
  lemma {:induction false} RowsAppend(a: seq<Button>, t: seq<Button>)
    requires |a| % ROW_WIDTH == 0
    ensures Rows(a + t) == Rows(a) + Rows(t)
    decreases |a|
  {
    if a == [] {
      assert a + t == t;
    } else {
      assert (a + t)[..ROW_WIDTH] == a[..ROW_WIDTH];
      assert (a + t)[ROW_WIDTH..] == a[ROW_WIDTH..] + t;
      RowsAppend(a[ROW_WIDTH..], t);
      if |a| == ROW_WIDTH {
        assert a[ROW_WIDTH..] == [];
        assert Rows(a) == [a];
        if t == [] { assert a + t == a; }
      }
    }
  }

  /** With the eight models the panel has a row of five and a row of three;
      the button of the current model, and only it, is selected. */
  lemma PanelShape(current: string)
    ensures var rows := Rows(Buttons(current));
      |rows| == 2 && |rows[0]| == 5 && |rows[1]| == 3
    ensures forall k :: 0 <= k < |MODEL_MAP| ==> (Buttons(current)[k].selected <==> MODEL_MAP[k].1 == current)
    ensures forall i, j :: 0 <= i < j < |MODEL_MAP| ==> !(Buttons(current)[i].selected && Buttons(current)[j].selected)
  {
    RowsSizes(Buttons(current));
    ModelMapDistinct();
  }

  /** Lines 163-180: the loop that builds one button per entry and starts
      a new row after every `ROW_WIDTH` buttons, then adds the unfinished
      row. */
  method PanelRows(entries: seq<(string, string)>, current: string) returns (rows: seq<seq<Button>>)
    ensures rows == Rows(ButtonsOf(entries, current))
  {
    ghost var bs := ButtonsOf(entries, current);
    ghost var start := 0;
    rows := [];
    var currentRow: seq<Button> := [];
    for i := 0 to |entries|
      invariant start <= i && i - start < ROW_WIDTH && start % ROW_WIDTH == 0
      invariant currentRow == bs[start..i]
      invariant rows == Rows(bs[..start])
    {
      var btn := ButtonFor(entries[i], current);
      currentRow := currentRow + [btn];
      assert currentRow == bs[start..i + 1];
      if |currentRow| == ROW_WIDTH {
        CloseRow(bs, start, i + 1);
        rows := rows + [currentRow];
        currentRow := [];
        start := i + 1;
      }
    }
    assert bs[..|entries|] == bs;
    if |currentRow| > 0 {
      CloseRow(bs, start, |entries|);
      rows := rows + [currentRow];
    }
  }

  /** Closing the row `bs[start..end]` after the full rows before it. */
  lemma CloseRow(bs: seq<Button>, start: nat, end: nat)
    requires start < end <= |bs| && end - start <= ROW_WIDTH && start % ROW_WIDTH == 0
    ensures Rows(bs[..end]) == Rows(bs[..start]) + [bs[start..end]]
  {
    assert bs[..end] == bs[..start] + bs[start..end];
    RowsAppend(bs[..start], bs[start..end]);
    assert Rows(bs[start..end]) == [bs[start..end]];
  }

  /** Pressing a panel button selects that entry's model under its own
      display name. */
  lemma PanelButtonSelects(c: Config, current: string, k: nat)
    requires k < |MODEL_MAP|
    ensures ButtonPress(c, Buttons(current)[k].customId) == c.(model := MODEL_MAP[k].1, display := MODEL_MAP[k].0)
  {
    ButtonPressSelects(c, MODEL_MAP[k].1);
    ReverseLookupInverts(k);
  }

  // ---------------------------------------------------------------------
  // The global configuration object

  class GlobalState {
    var model: string
    var display: string
    var mode: string
    var autoApprove: bool

    /** The object's fields as a value. */
    function State(): Config
      reads this
    {
      Config(model, display, mode, autoApprove)
    }

    constructor ()
      ensures State() == INITIAL
    {
      model := PRO_HIGH_ID;
      display := PRO_HIGH;
      mode := "Planning";
      autoApprove := false;
    }

    /** The `/mode` command's assignments and its reply. */
    method SetMode(arg: Option<string>) returns (reply: string)
      modifies this
      ensures State() == ModeCommand(old(State()), WordOf(arg)).0
      ensures reply == ReplyText(ModeCommand(old(State()), WordOf(arg)).1)
    {
      var answer: ModeReply;
      match WordOf(arg) {
      case PlanningWord =>
        mode := "Planning";
        model := PRO_HIGH_ID;
        display := PRO_HIGH;
        answer := SwitchedToPlanning;
      case FastWord =>
        mode := "Fast";
        model := FLASH_ID;
        display := FLASH;
        answer := SwitchedToFast;
      case AutoWord =>
        autoApprove := !autoApprove;
        answer := AutoApproveNow(autoApprove);
      case Unrecognized =>
        answer := InvalidMode;
      }
      reply := ReplyText(answer);
    }

    /** The model button handler's assignments. */
    method SelectModel(customId: string)
      modifies this
      ensures State() == ButtonPress(old(State()), customId)
    {
      if !StartsWith(customId, MODEL_PREFIX) {
        return;
      }
      var newModelId := ReplaceFirst(customId, MODEL_PREFIX, "");
      var displayName := ReverseLookup(newModelId);
      if newModelId != "" {
        model := newModelId;
        display := displayName;
      }
    }

    /** Lines 163-180: the buttons go into a current row, which is pushed
        when it holds five; a last, partial row is pushed after the loop. */
    method SelectionRows() returns (rows: seq<seq<Button>>)
      ensures rows == Rows(Buttons(model))
    {
      rows := PanelRows(MODEL_MAP, model);
    }
  }
}
