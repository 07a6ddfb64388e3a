/** The backend RPC client: discovery of the CSRF token and the listening
    port from command output, the guarded request with its status and body
    decoding, and the validation of the `StartCascade` and
    `GetCascadeTrajectorySteps` replies. */
module Rpc {
  import opened Wrappers
  import opened Strings
  import opened Json

  const SERVICE := "aida.v1.AidaService"
  const SESSION_LABEL := "discord-bridge-session"
  const CSRF_FLAG := "--csrf_token"
  const LOOPBACK := "127.0.0.1:"
  const PLANNER_RESPONSE := "CORTEX_STEP_TYPE_PLANNER_RESPONSE"
  const STATUS_DONE := "CORTEX_STEP_STATUS_DONE"

  /** Why a call into the backend failed. */
  datatype RpcError =
    | NotInitialized                 // port or token unset: no connection is opened
    | Transport(message: string)     // the connection reported an error
    | Http(status: nat, body: string)   // a response whose status is not 200
    | CascadeStartFailed(reply: Json)   // the reply carries no truthy cascadeId
    | NullReply                      // a property was read from a `null` reply
    | NotIterable(steps: Json)       // the steps value cannot be iterated
    | MalformedStep                  // a `null` step, or a non-string response text

  /** Why discovery failed. */
  datatype DiscoveryError =
    | ProcessQueryFailed   // the process-list command failed
    | TokenNotFound        // no `--csrf_token <token>` in its output
    | PortQueryFailed      // the netstat or process-id command failed
    | PortNotFound         // no line of the owning process names a loopback port

  /** What the network did with a request. */
  datatype Transfer =
    | ConnectionError(message: string)
    | Responded(status: nat, body: string)

  /** One request as it is put on the wire. */
  datatype Request = Request(path: string, headers: seq<(string, string)>, body: Json)

  /** One backend step, as far as the bridge reads it. */
  datatype Step = Step(kind: string, status: string, text: string)

  // ---------------------------------------------------------------------
  // Discovery: the CSRF token

  /** The capture of `/--csrf_token\s+([a-zA-Z0-9]+)/` for a match that starts
      at the first character of `s`. Both repetitions are greedy and cannot
      give characters back usefully: a space is not alphanumeric. */
  function TokenAt(s: string): (r: Option<string>)
  {
    if !StartsWith(s, CSRF_FLAG) then None
    else
      var rest := s[|CSRF_FLAG|..];
      var w := Span(rest, IsSpace);
      if w == 0 then None
      else
        var n := Span(rest[w..], IsAlnum);
        if n == 0 then None else Some(rest[w..][..n])
  }

  /** `stdout.match(/--csrf_token\s+([a-zA-Z0-9]+)/)[1]`: the capture of the
      leftmost match, or None when there is no match. */
  function FindCsrfToken(s: string): (r: Option<string>)
    ensures r.Some? ==> r.value != [] && forall k :: 0 <= k < |r.value| ==> IsAlnum(r.value[k])
    decreases |s|
  {
    if s == [] then None
    else match TokenAt(s)
      case Some(t) => Some(t)
      case None => FindCsrfToken(s[1..])
  }

  /** The token written after the flag is the one found, whatever precedes
      the flag (as long as it holds no '-') and whatever follows the token
      (as long as it does not continue the alphanumeric run). */
  lemma {:induction false} CsrfTokenFound(pre: string, gap: string, token: string, post: string)
    requires '-' !in pre
    requires gap != [] && IsBlank(gap)
    requires token != [] && forall k :: 0 <= k < |token| ==> IsAlnum(token[k])
    requires post == [] || !IsAlnum(post[0])
    ensures FindCsrfToken(pre + CSRF_FLAG + gap + token + post) == Some(token)
    decreases |pre|
  {
    var s := pre + CSRF_FLAG + gap + token + post;
    if pre == [] {
      assert s == CSRF_FLAG + gap + token + post;
      TokenAtFlag(gap, token, post);
    } else {
      assert s[0] == pre[0] != CSRF_FLAG[0];
      assert TokenAt(s) == None;
      assert s[1..] == pre[1..] + CSRF_FLAG + gap + token + post;
      CsrfTokenFound(pre[1..], gap, token, post);
    }
  }

  /** A match at the first character captures the token after the gap. */
  lemma TokenAtFlag(gap: string, token: string, post: string)
    requires gap != [] && IsBlank(gap)
    requires token != [] && forall k :: 0 <= k < |token| ==> IsAlnum(token[k])
    requires post == [] || !IsAlnum(post[0])
    ensures TokenAt(CSRF_FLAG + gap + token + post) == Some(token)
  {
    var s := CSRF_FLAG + gap + token + post;
    assert s[..|CSRF_FLAG|] == CSRF_FLAG;
    var rest := s[|CSRF_FLAG|..];
    assert rest == gap + token + post;
    assert rest[|gap|] == token[0];
    SpanIs(rest, IsSpace, |gap|);
    assert rest[|gap|..] == token + post;
    if post != [] { assert (token + post)[|token|] == post[0]; }
    SpanIs(token + post, IsAlnum, |token|);
    assert (token + post)[..|token|] == token;
  }

  /** Without the flag in the output there is no token. */
  lemma {:induction false} NoFlagNoToken(s: string)
    requires forall i: nat :: !OccursAt(s, CSRF_FLAG, i)
    ensures FindCsrfToken(s) == None
    decreases |s|
  {
    if s != [] {
      assert !OccursAt(s, CSRF_FLAG, 0);
      assert TokenAt(s) == None;
      forall i: nat ensures !OccursAt(s[1..], CSRF_FLAG, i) {
        assert !OccursAt(s, CSRF_FLAG, i + 1);
      }
      NoFlagNoToken(s[1..]);
    }
  }

  // ---------------------------------------------------------------------
  // Discovery: the listening port

  /** The capture of `/127\.0\.0\.1:(\d+)/` for a match that starts at the
      first character of `s`. */
  function AddressAt(s: string): (r: Option<string>)
  {
    if !StartsWith(s, LOOPBACK) then None
    else
      var n := Span(s[|LOOPBACK|..], IsDigit);
      if n == 0 then None else Some(s[|LOOPBACK|..][..n])
  }

  /** `line.match(/127\.0\.0\.1:(\d+)/)[1]`: the digits of the leftmost
      loopback address, or None. */
  function AddressPort(line: string): (r: Option<string>)
    ensures r.Some? ==> r.value != [] && forall k :: 0 <= k < |r.value| ==> IsDigit(r.value[k])
    decreases |line|
  {
    if line == [] then None
    else match AddressAt(line)
      case Some(p) => Some(p)
      case None => AddressPort(line[1..])
  }

  /** The three ways a netstat line is taken to belong to process `pid`. */
  predicate PidMatches(line: string, pid: string) {
    || EndsWith(line, pid)
    || Includes(line, " " + pid + " ")
    || EndsWith(line, " " + pid + "\r")
  }

  /** A line the port is taken from: not blank, owned by one of `pids`, and
      naming a loopback address with a port. */
  predicate Qualifies(line: string, pids: seq<string>) {
    && !IsBlank(line)
    && (exists p :: p in pids && PidMatches(line, p))
    && AddressPort(line).Some?
  }

  /** The port the discovery settles on: that of the first qualifying line. */
  function FirstPort(lines: seq<string>, pids: seq<string>): Option<string>
  {
    if lines == [] then None
    else if Qualifies(lines[0], pids) then AddressPort(lines[0])
    else FirstPort(lines[1..], pids)
  }

  /** `pidOut.trim().split('\n').map(p => p.trim()).filter(p => p)`. */
  function ParsePids(pidOut: string): (pids: seq<string>)
    ensures forall k :: 0 <= k < |pids| ==> pids[k] != "" && Trim(pids[k]) == pids[k]
  {
    TrimmedNonEmpty(Split(Trim(pidOut), '\n'))
  }

  /** Each piece trimmed, empty ones dropped, order kept. */
  function TrimmedNonEmpty(parts: seq<string>): (r: seq<string>)
    ensures |r| <= |parts|
    ensures forall k :: 0 <= k < |r| ==> r[k] != "" && Trim(r[k]) == r[k]
  {
    if parts == [] then []
    else
      var t := Trim(parts[0]);
      TrimIdempotent(parts[0]);
      var rest := TrimmedNonEmpty(parts[1..]);
      if t == "" then rest
      else
        var r := [t] + rest;
        assert r[0] == t;
        assert forall k :: 1 <= k < |r| ==> r[k] == rest[k - 1];
        r
  }

  /** The port of the first qualifying line is found, and there is one
      exactly when some line qualifies. */
  lemma {:induction false} FirstPortIsFirst(lines: seq<string>, pids: seq<string>)
    ensures FirstPort(lines, pids).Some? <==> exists k :: 0 <= k < |lines| && Qualifies(lines[k], pids)
    ensures FirstPort(lines, pids).Some? ==>
              exists k :: 0 <= k < |lines| && Qualifies(lines[k], pids)
                && (forall j :: 0 <= j < k ==> !Qualifies(lines[j], pids))
                && FirstPort(lines, pids) == AddressPort(lines[k])
  {
    if lines != [] && !Qualifies(lines[0], pids) {
      var rest := lines[1..];
      FirstPortIsFirst(rest, pids);
      assert forall k :: 0 <= k < |rest| ==> rest[k] == lines[k + 1];
      if FirstPort(rest, pids).Some? {
        var k :| 0 <= k < |rest| && Qualifies(rest[k], pids)
                 && (forall j :: 0 <= j < k ==> !Qualifies(rest[j], pids))
                 && FirstPort(rest, pids) == AddressPort(rest[k]);
        assert Qualifies(lines[k + 1], pids);
        assert forall j :: 0 <= j < k + 1 ==> !Qualifies(lines[j], pids) by {
          forall j | 0 <= j < k + 1 ensures !Qualifies(lines[j], pids) {
            if j > 0 { assert lines[j] == rest[j - 1]; }
          }
        }
      } else {
        forall k | 0 <= k < |lines| ensures !Qualifies(lines[k], pids) {
          if k > 0 { assert lines[k] == rest[k - 1]; }
        }
      }
    }
  }

  /** A line that does not qualify passes the search on to the next. */
  lemma FirstPortSkip(lines: seq<string>, pids: seq<string>, i: nat)
    requires i < |lines| && !Qualifies(lines[i], pids)
    ensures FirstPort(lines[i..], pids) == FirstPort(lines[i + 1..], pids)
  {
    assert lines[i..][0] == lines[i];
    assert lines[i..][1..] == lines[i + 1..];
  }

  /** A qualifying line ends the search with its port. */
  lemma FirstPortHere(lines: seq<string>, pids: seq<string>, i: nat)
    requires i < |lines| && Qualifies(lines[i], pids)
    ensures FirstPort(lines[i..], pids) == AddressPort(lines[i])
  {
    assert lines[i..][0] == lines[i];
  }

  /** The nested scan of the netstat lines against the process ids: lines in
      order, blank lines skipped, the first line that matches some pid and
      names a loopback port wins; a matching line without an address does not
      stop the scan. */
  method FindPort(lines: seq<string>, pids: seq<string>) returns (foundPort: Option<string>)
    ensures foundPort == FirstPort(lines, pids)
    ensures foundPort.Some? <==> exists k :: 0 <= k < |lines| && Qualifies(lines[k], pids)
    ensures foundPort.Some? ==> exists k :: 0 <= k < |lines| && Qualifies(lines[k], pids)
                                  && (forall j :: 0 <= j < k ==> !Qualifies(lines[j], pids))
                                  && foundPort == AddressPort(lines[k])
  {
    foundPort := None;
    var i := 0;
    while i < |lines|
      invariant 0 <= i <= |lines|
      invariant FirstPort(lines, pids) == FirstPort(lines[i..], pids)
      invariant foundPort.None?
      decreases |lines| - i
    {
      var line := lines[i];
      TrimBlank(line);
      if Trim(line) == "" {
        FirstPortSkip(lines, pids, i);
        i := i + 1;
        continue;
      }
      var j := 0;
      while j < |pids|
        invariant 0 <= j <= |pids|
        invariant foundPort.None?
        invariant forall q :: 0 <= q < j ==> !(PidMatches(line, pids[q]) && AddressPort(line).Some?)
      {
        var pid := pids[j];
        if PidMatches(line, pid) {
          var m := AddressPort(line);
          if m.Some? {
            foundPort := m;
            break;
          }
        }
        j := j + 1;
      }
      if foundPort.Some? {
        FirstPortHere(lines, pids, i);
        break;
      }
      assert !Qualifies(line, pids) by {
        forall p | p in pids && PidMatches(line, p) ensures AddressPort(line).None? {
          var q :| 0 <= q < |pids| && pids[q] == p;
        }
      }
      FirstPortSkip(lines, pids, i);
      i := i + 1;
    }
    FirstPortIsFirst(lines, pids);
  }

  // ---------------------------------------------------------------------
  // Requests and replies

  /** `!this.port || !this.csrfToken` is false: both are set and non-empty. */
  predicate Ready(port: Option<string>, token: Option<string>) {
    port.Some? && port.value != "" && token.Some? && token.value != ""
  }

  /** The request `makeRequest` puts on the wire. */
  function BuildRequest(service: string, rpcMethod: string, token: string, payload: Json): (r: Request)
    ensures r.body == payload
    ensures ("content-type", "application/json") in r.headers
    ensures ("connect-protocol-version", "1") in r.headers
    ensures ("x-cursor-csrf-token", token) in r.headers
  {
    Request("/" + service + "/" + rpcMethod,
            [(":method", "POST"), (":path", "/" + service + "/" + rpcMethod),
             ("content-type", "application/json"), ("connect-protocol-version", "1"),
             ("x-cursor-csrf-token", token)],
            payload)
  }

  /** The request path names the service and the method and nothing else:
      splitting it at '/' gives them back. */
  lemma RequestPathNamesMethod(service: string, rpcMethod: string, token: string, payload: Json)
    requires '/' !in service && '/' !in rpcMethod
    ensures Split(BuildRequest(service, rpcMethod, token, payload).path, '/') == ["", service, rpcMethod]
  {
    var parts := ["", service, rpcMethod];
    assert parts[1..] == [service, rpcMethod];
    assert Join([service, rpcMethod], '/') == service + "/" + rpcMethod;
    assert Join(parts, '/') == "" + "/" + (service + "/" + rpcMethod);
    assert "/" + service + "/" + rpcMethod == "" + "/" + (service + "/" + rpcMethod);
    SplitJoin(parts, '/');
  }

  /** The reply of a completed exchange: a non-200 status rejects with the
      status and the body; a 200 resolves to the parsed body, or to the raw
      body text when it does not parse. */
  function DecodeResponse(status: nat, body: string, parse: string -> Option<Json>): (r: Result<Json, RpcError>)
    ensures r.Failure? <==> status != 200
    ensures r.Failure? ==> r.error == Http(status, body)
    ensures r.Success? ==> r.value == (if parse(body).Some? then parse(body).value else Str(body))
  {
    if status != 200 then Failure(Http(status, body))
    else match parse(body)
      case Some(v) => Success(v)
      case None => Success(Str(body))
  }

  /** The text of an `Http` error: `HTTP <status>: <body>`. */
  function HttpMessage(status: nat, body: string): string {
    "HTTP " + NatToString(status) + ": " + body
  }

  /** Reads a status and a body back out of an error text. */
  function ParseHttpMessage(m: string): Option<(nat, string)> {
    if !StartsWith(m, "HTTP ") then None
    else
      var rest := m[5..];
      var n := Span(rest, IsDigit);
      if n == 0 || !StartsWith(rest[n..], ": ") then None
      else Some((DigitsValue(rest[..n]), rest[n + 2..]))
  }

  /** The error text carries both the status and the body, recoverably. */
  lemma HttpMessageRoundTrip(status: nat, body: string)
    ensures var r := ParseHttpMessage(HttpMessage(status, body));
            r.Some? && r.value.0 == status && r.value.1 == body
  {
    var d := NatToString(status);
    var m := HttpMessage(status, body);
    assert m == "HTTP " + (d + ": " + body);
    assert StartsWith(m, "HTTP ");
    var rest := m[5..];
    assert rest == d + ": " + body;
    assert rest[|d|] == ':';
    assert Span(rest, IsDigit) == |d|;
    assert rest[..|d|] == d;
    assert rest[|d|..] == ": " + body;
    assert rest[|d| + 2..] == body;
    NatToStringRoundTrip(status);
  }

  /** The `metadata` record every session-scoped request carries. */
  function Metadata(requestId: string): Json {
    Obj([("requestId", Str(requestId)), ("sessionId", Str(SESSION_LABEL)),
         ("requestType", Num(0.0)), ("action", Str("ACTION_CHAT"))])
  }

  /** The body of `StartCascade`. */
  function StartCascadePayload(requestId: string): Json {
    Obj([("metadata", Metadata(requestId))])
  }

  /** The body of `GetCascadeTrajectorySteps`. */
  function StepsPayload(cascadeId: string, requestId: string): Json {
    Obj([("cascadeId", Str(cascadeId)), ("metadata", Metadata(requestId))])
  }

  /** The body of `SendUserCascadeMessage`, as the client builds it from one text. */
  function SendPayload(cascadeId: string, text: string, model: string): Json {
    Obj([("cascadeId", Str(cascadeId)),
         ("cascadeConfig", Obj([("plannerConfig", Obj([("planModel", Str(model)),
                                                       ("requestedModel", Obj([("model", Str(model))]))]))])),
         ("turnConfig", Obj([])),
         ("items", Arr([Obj([("text", Str(text))])]))])
  }

  /** The session label of a payload's metadata. */
  function SessionLabel(payload: Json): Option<Json> {
    var m := Get(payload, "metadata");
    if m.Some? then Get(m.value, "sessionId") else None
  }

  /** Whatever the request id, both session-scoped requests carry the fixed
      session label and their own request id. */
  lemma PayloadsCarrySessionLabel(cascadeId: string, requestId: string)
    ensures SessionLabel(StartCascadePayload(requestId)) == Some(Str(SESSION_LABEL))
    ensures SessionLabel(StepsPayload(cascadeId, requestId)) == Some(Str(SESSION_LABEL))
    ensures Get(StepsPayload(cascadeId, requestId), "cascadeId") == Some(Str(cascadeId))
    ensures Get(Metadata(requestId), "requestId") == Some(Str(requestId))
  {
    var fields := Metadata(requestId).fields;
    assert fields[..3][..2] == fields[..2];
    assert Lookup(fields, "sessionId") == Lookup(fields[..3], "sessionId") == Lookup(fields[..2], "sessionId");
    assert Lookup(fields[..2], "requestId") == Lookup(fields[..1], "requestId");
    assert Lookup(fields, "requestId") == Lookup(fields[..2], "requestId");
    var steps := StepsPayload(cascadeId, requestId).fields;
    assert Lookup(steps, "cascadeId") == Lookup(steps[..1], "cascadeId");
  }

  /** `startCascade`'s check of the reply: a truthy `cascadeId` is the
      session id; anything else is an error (reading a property of `null`
      fails before the check). */
  function CascadeIdOf(reply: Json): (r: Result<Json, RpcError>)
    ensures r.Success? <==> reply != Null && Get(reply, "cascadeId").Some? && Truthy(Get(reply, "cascadeId").value)
    ensures r.Success? ==> Get(reply, "cascadeId") == Some(r.value)
    ensures reply == Null ==> r == Failure(NullReply)
    ensures r.Failure? && reply != Null ==> r == Failure(CascadeStartFailed(reply))
  {
    if reply == Null then Failure(NullReply)
    else
      var v := Get(reply, "cascadeId");
      if v.Some? && Truthy(v.value) then Success(v.value) else Failure(CascadeStartFailed(reply))
  }

  /** `res.steps || []`: the steps value when it is truthy, else an empty list. */
  function StepsOf(reply: Json): (r: Result<Json, RpcError>)
    ensures reply == Null <==> r.Failure?
    ensures r.Success? ==> (Truthy(r.value) && Get(reply, "steps") == Some(r.value)) || r.value == Arr([])
    ensures r.Success? && Get(reply, "steps").Some? && Truthy(Get(reply, "steps").value) ==> Get(reply, "steps") == Some(r.value)
  {
    if reply == Null then Failure(NullReply)
    else
      var v := Get(reply, "steps");
      if v.Some? && Truthy(v.value) then Success(v.value) else Success(Arr([]))
  }

  /** `step.plannerResponse?.response`: absent when the step has no
      `plannerResponse`, when that is `null`, or when it has no `response`. */
  function ResponseField(x: Json): Option<Json> {
    var p := Get(x, "plannerResponse");
    if p.None? || p.value == Null then None else Get(p.value, "response")
  }

  /** How the polling loop reads one element of the steps list: its `type`,
      its `status` and, for a planner response, `plannerResponse?.response || ''`.
      Reading `type` of a `null` element throws, and a truthy response that
      is not a string cannot be searched for tags. */
  function DecodeStep(x: Json): (r: Result<Step, RpcError>)
    ensures x == Null ==> r == Failure(MalformedStep)
    ensures r.Success? ==> r.value.kind == TextOf(Get(x, "type")) && r.value.status == TextOf(Get(x, "status"))
    ensures x != Null && TextOf(Get(x, "type")) != PLANNER_RESPONSE ==> r.Success? && r.value.text == ""
    ensures x != Null && TextOf(Get(x, "type")) == PLANNER_RESPONSE ==>
              var resp := ResponseField(x);
              && (resp.None? || !Truthy(resp.value) ==> r.Success? && r.value.text == "")
              && (resp.Some? && resp.value.Str? && resp.value.s != "" ==> r.Success? && r.value.text == resp.value.s)
              && (resp.Some? && Truthy(resp.value) && !resp.value.Str? ==> r == Failure(MalformedStep))
  {
    if x == Null then Failure(MalformedStep)
    else
      var kind := TextOf(Get(x, "type"));
      var status := TextOf(Get(x, "status"));
      if kind != PLANNER_RESPONSE then Success(Step(kind, status, ""))
      else
        var resp := ResponseField(x);
        if resp.None? || !Truthy(resp.value) then Success(Step(kind, status, ""))
        else if resp.value.Str? then Success(Step(kind, status, resp.value.s))
        else Failure(MalformedStep)
  }

  /** A planner step as the backend sends it decodes to its status and its
      response text. */
  lemma PlannerStepText(status: string, text: string)
    requires text != ""
    ensures DecodeStep(Obj([("type", Str(PLANNER_RESPONSE)), ("status", Str(status)),
                            ("plannerResponse", Obj([("response", Str(text))]))]))
            == Success(Step(PLANNER_RESPONSE, status, text))
  {
    var fields := [("type", Str(PLANNER_RESPONSE)), ("status", Str(status)),
                   ("plannerResponse", Obj([("response", Str(text))]))];
    assert fields[..2][..1] == fields[..1];
    assert Lookup(fields, "type") == Lookup(fields[..2], "type") == Lookup(fields[..1], "type");
    assert Lookup(fields, "status") == Lookup(fields[..2], "status");
  }

  /** Every element decoded by `decode`, in order; the first element that
      does not decode fails the whole list with its error. */
  function DecodeAll<X, T>(decode: X -> Result<T, RpcError>, xs: seq<X>): (r: Result<seq<T>, RpcError>)
    ensures r.Success? ==> |r.value| == |xs| && forall k :: 0 <= k < |xs| ==> decode(xs[k]) == Success(r.value[k])
    ensures r.Failure? ==> exists k :: 0 <= k < |xs| && decode(xs[k]) == Failure(r.error)
  {
    if xs == [] then Success([])
    else
      var head := decode(xs[0]);
      if head.Failure? then Failure(head.error)
      else
        var tail := DecodeAll(decode, xs[1..]);
        if tail.Failure? then
          var k :| 0 <= k < |xs[1..]| && decode(xs[1..][k]) == Failure(tail.error);
          assert xs[k + 1] == xs[1..][k];
          Failure(tail.error)
        else
          var r := [head.value] + tail.value;
          assert forall k :: 1 <= k < |xs| ==> xs[k] == xs[1..][k - 1] && r[k] == tail.value[k - 1];
          Success(r)
  }

  /** Every planner step of a snapshot decoded, in order; the first malformed
      one fails the poll. */
  function DecodeEach(xs: seq<Json>): (r: Result<seq<Step>, RpcError>)
    ensures r.Success? ==> |r.value| == |xs| && forall k :: 0 <= k < |xs| ==> DecodeStep(xs[k]) == Success(r.value[k])
    ensures r.Failure? ==> exists k :: 0 <= k < |xs| && DecodeStep(xs[k]) == Failure(r.error)
  {
    DecodeAll(DecodeStep, xs)
  }

  /** `for (const step of steps)`: an array is iterated element by element; a
      string yields characters, none of which is a planner step, so it counts
      as no steps; any other value is not iterable. */
  function DecodeSteps(v: Json): (r: Result<seq<Step>, RpcError>)
    ensures v.Arr? ==> r == DecodeEach(v.items)
    ensures v.Str? ==> r == Success([])
    ensures !v.Arr? && !v.Str? ==> r == Failure(NotIterable(v))
  {
    match v
    case Arr(xs) => DecodeEach(xs)
    case Str(_) => Success([])
    case _ => Failure(NotIterable(v))
  }

  /** One poll: the reply of `getCascadeSteps`, read as a list of steps. */
  function PollSteps(reply: Result<Json, RpcError>): (r: Result<seq<Step>, RpcError>)
    ensures reply.Failure? ==> r == Failure(reply.error)
    ensures reply == Success(Null) ==> r == Failure(NullReply)
    ensures reply.Success? && StepsOf(reply.value).Success? ==> r == DecodeSteps(StepsOf(reply.value).value)
  {
    match reply
    case Failure(e) => Failure(e)
    case Success(res) =>
      match StepsOf(res)
      case Failure(e) => Failure(e)
      case Success(v) => DecodeSteps(v)
  }

  /** The polls of a turn, one per `makeRequest` reply of its
      `getCascadeSteps` calls. */
  function Polls(replies: seq<Result<Json, RpcError>>): seq<Result<seq<Step>, RpcError>> {
    seq(|replies|, i requires 0 <= i < |replies| => PollSteps(replies[i]))
  }

  /** A reply without a `steps` member is an empty poll, not an error. */
  lemma MissingStepsIsEmptyPoll(reply: Json)
    requires reply != Null && Get(reply, "steps").None?
    ensures PollSteps(Success(reply)) == Success([])
  {
    assert StepsOf(reply) == Success(Arr([]));
  }

  // ---------------------------------------------------------------------
  // The client object

  /** The client's discovered endpoint: both fields start unset. */
  class AntigravityClient {
    var port: Option<string>
    var csrfToken: Option<string>

    constructor ()
      ensures port == None && csrfToken == None
    {
      port := None;
      csrfToken := None;
    }

    /** `initialize`: the token is taken from the process list first and is
        kept even when the port cannot be found afterwards. `processList`,
        `netstat` and `pidList` are the outputs of the three commands (None:
        the command failed). */
    method Initialize(processList: Option<string>, netstat: Option<string>, pidList: Option<string>)
      returns (r: Outcome<DiscoveryError>)
      modifies this
      ensures processList.None? ==> r == Fail(ProcessQueryFailed) && unchanged(this)
      ensures processList.Some? && FindCsrfToken(processList.value).None? ==> r == Fail(TokenNotFound) && unchanged(this)
      ensures processList.Some? && FindCsrfToken(processList.value).Some? ==>
                csrfToken == FindCsrfToken(processList.value)
                && (netstat.None? || pidList.None? ==> r == Fail(PortQueryFailed) && port == old(port))
                && (netstat.Some? && pidList.Some? ==>
                      var found := FirstPort(Split(netstat.value, '\n'), ParsePids(pidList.value));
                      (found.None? ==> r == Fail(PortNotFound) && port == old(port))
                      && (found.Some? ==> r == Pass && port == found))
    {
      if processList.None? {
        return Fail(ProcessQueryFailed);
      }
      var token := FindCsrfToken(processList.value);
      if token.None? {
        return Fail(TokenNotFound);
      }
      csrfToken := token;
      if netstat.None? || pidList.None? {
        return Fail(PortQueryFailed);
      }
      var lines := Split(netstat.value, '\n');
      var pids := ParsePids(pidList.value);
      var foundPort := FindPort(lines, pids);
      if foundPort.Some? {
        port := foundPort;
        r := Pass;
      } else {
        r := Fail(PortNotFound);
      }
    }

    /** `makeRequest`: refuses before connecting unless the client is
        initialized; otherwise sends one request and decodes its reply.
        `transfer` is what the network does with it. */
    method MakeRequest(service: string, rpcMethod: string, payload: Json, transfer: Transfer,
                       parse: string -> Option<Json>)
      returns (r: Result<Json, RpcError>, sent: Option<Request>)
      ensures !Ready(port, csrfToken) ==> r == Failure(NotInitialized) && sent == None
      ensures Ready(port, csrfToken) ==> sent == Some(BuildRequest(service, rpcMethod, csrfToken.value, payload))
      ensures Ready(port, csrfToken) && transfer.ConnectionError? ==> r == Failure(Transport(transfer.message))
      ensures Ready(port, csrfToken) && transfer.Responded? ==> r == DecodeResponse(transfer.status, transfer.body, parse)
    {
      if !Ready(port, csrfToken) {
        return Failure(NotInitialized), None;
      }
      sent := Some(BuildRequest(service, rpcMethod, csrfToken.value, payload));
      match transfer
      case ConnectionError(m) => r := Failure(Transport(m));
      case Responded(status, body) => r := DecodeResponse(status, body, parse);
    }

    /** `startCascade`: opens a session and returns the reply's `cascadeId`. */
    method StartCascade(requestId: string, transfer: Transfer, parse: string -> Option<Json>)
      returns (r: Result<Json, RpcError>, sent: Option<Request>)
      ensures Ready(port, csrfToken) <==> sent.Some?
      ensures sent.Some? ==> sent.value.path == "/" + SERVICE + "/" + "StartCascade"
                             && sent.value.body == StartCascadePayload(requestId)
      ensures !Ready(port, csrfToken) ==> r == Failure(NotInitialized)
      ensures Ready(port, csrfToken) && transfer.ConnectionError? ==> r == Failure(Transport(transfer.message))
      ensures Ready(port, csrfToken) && transfer.Responded? ==>
                r == match DecodeResponse(transfer.status, transfer.body, parse)
                     case Failure(e) => Failure(e)
                     case Success(res) => CascadeIdOf(res)
    {
      var reply;
      reply, sent := MakeRequest(SERVICE, "StartCascade", StartCascadePayload(requestId), transfer, parse);
      match reply
      case Failure(e) => r := Failure(e);
      case Success(res) => r := CascadeIdOf(res);
    }

    /** `getCascadeSteps`: one poll of the session's full step list. */
    method GetCascadeSteps(cascadeId: string, requestId: string, transfer: Transfer, parse: string -> Option<Json>)
      returns (r: Result<Json, RpcError>, sent: Option<Request>)
      ensures Ready(port, csrfToken) <==> sent.Some?
      ensures sent.Some? ==> sent.value.path == "/" + SERVICE + "/" + "GetCascadeTrajectorySteps"
                             && sent.value.body == StepsPayload(cascadeId, requestId)
      ensures !Ready(port, csrfToken) ==> r == Failure(NotInitialized)
      ensures Ready(port, csrfToken) && transfer.ConnectionError? ==> r == Failure(Transport(transfer.message))
      ensures Ready(port, csrfToken) && transfer.Responded? ==>
                r == match DecodeResponse(transfer.status, transfer.body, parse)
                     case Failure(e) => Failure(e)
                     case Success(res) => StepsOf(res)
    {
      var reply;
      reply, sent := MakeRequest(SERVICE, "GetCascadeTrajectorySteps", StepsPayload(cascadeId, requestId), transfer, parse);
      match reply
      case Failure(e) => r := Failure(e);
      case Success(res) => r := StepsOf(res);
    }

    /** `sendUserMessage`: forwards one text into the session with the model. */
    method SendUserMessage(cascadeId: string, text: string, model: string, transfer: Transfer,
                           parse: string -> Option<Json>)
      returns (r: Outcome<RpcError>, sent: Option<Request>)
      ensures Ready(port, csrfToken) <==> sent.Some?
      ensures sent.Some? ==> sent.value.path == "/" + SERVICE + "/" + "SendUserCascadeMessage"
                             && sent.value.body == SendPayload(cascadeId, text, model)
      ensures !Ready(port, csrfToken) ==> r == Fail(NotInitialized)
      ensures Ready(port, csrfToken) && transfer.ConnectionError? ==> r == Fail(Transport(transfer.message))
      ensures Ready(port, csrfToken) && transfer.Responded? && transfer.status != 200 ==>
                r == Fail(Http(transfer.status, transfer.body))
      ensures Ready(port, csrfToken) && transfer.Responded? && transfer.status == 200 ==> r == Pass
    {
      var reply;
      reply, sent := MakeRequest(SERVICE, "SendUserCascadeMessage", SendPayload(cascadeId, text, model), transfer, parse);
      r := if reply.Failure? then Fail(reply.error) else Pass;
    }
  }

  /** A fresh client whose port discovery fails keeps the token it found,
      yet every request it makes is refused as not initialized. */
  method TokenWithoutPortRefuses(processList: string, netstat: string, pidList: string,
                                 service: string, rpcMethod: string, payload: Json,
                                 transfer: Transfer, parse: string -> Option<Json>)
    returns (outcome: Outcome<DiscoveryError>, token: Option<string>, r: Result<Json, RpcError>, sent: Option<Request>)
    requires FindCsrfToken(processList).Some?
    requires FirstPort(Split(netstat, '\n'), ParsePids(pidList)).None?
    ensures outcome == Fail(PortNotFound)
    ensures token == FindCsrfToken(processList)
    ensures r == Failure(NotInitialized) && sent == None
  {
    var client := new AntigravityClient();
    outcome := client.Initialize(Some(processList), Some(netstat), Some(pidList));
    token := client.csrfToken;
    r, sent := client.MakeRequest(service, rpcMethod, payload, transfer, parse);
  }
}
