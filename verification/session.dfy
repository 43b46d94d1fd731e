/** `ShapeDiverTinySessionSdk` with its `ExceptionHandler` and `ParameterMapper`
    decorators, as pure functions over an HTTP oracle. Every call reports the
    requests it issued, so "no request is sent" is `sent == []`. */
module SessionSdk {
  import opened Wrappers
  import opened JsonValues
  import opened Failures
  import opened ResponseView

  datatype Method = Post | Put

  /** A request body: `data=` a string as given, a `json.dumps` of a value, or none. */
  datatype Body = NoBody | Text(text: string) | JsonBody(value: Json)

  datatype Request = Request(verb: Method, url: string, headers: seq<(string, string)>, body: Body)

  /** What the transport yields: a status, the body text and `response.json()`
      (None where the body is not JSON), or a raised transport error. */
  datatype Reply = Reply(status: int, text: string, json: Option<Json>) | Unreachable(message: string)

  const JsonHeaders: seq<(string, string)> := [("Content-Type", "application/json")]

  /** The code the client calls but does not define: `requests.post`/`requests.put`
      (`send`), `json.loads` (`parse`) and `str()` of a non-string value inside an
      f-string (`show`). */
  datatype Env = Env(send: Request -> Reply, parse: string -> Option<Json>, show: Json -> string)

  /** What a caller-supplied exception handler does with an error: raise one or return a value. */
  datatype Handled = Rethrow(error: Error) | Return(value: Json)

  type Handler = Error -> Handled

  /** What a parameter mapper sees of the `sdk` it is given. */
  datatype View = View(modelViewUrl: string, response: Option<Response>)

  type Mapper = (Json, View) -> Result<Json, Error>

  /** The SDK object. `handler` and `mapper` are None when the attribute was never
      set; `response` is None when the constructor failed and its handler returned None. */
  datatype Session = Session(
    modelViewUrl: string,
    handler: Option<Handler>,
    mapper: Option<Mapper>,
    response: Option<Response>)

  /** A call as its caller sees it: the value, the handler's return value in its
      place, or a raised error. */
  datatype Outcome<+T> = Returned(value: T) | HandlerReturned(fallback: Json) | Raised(error: Error)

  datatype Call<+T> = Call(outcome: Outcome<T>, sent: seq<Request>)

  /** A call before the exception handler: what the undecorated method returns or raises. */
  datatype Step<+T> = Step(result: Result<T, Error>, sent: seq<Request>)

  /** A value as an f-string renders it. */
  function Interpolate(env: Env, v: Json): (r: string)
    ensures v.JStr? ==> r == v.s
    ensures !v.JStr? ==> r == env.show(v)
  {
    if v.JStr? then v.s else env.show(v)
  }

  function TicketUrl(modelViewUrl: string, ticket: string): string {
    modelViewUrl + "/api/v2/ticket/" + ticket
  }

  function SessionUrl(modelViewUrl: string, sessionId: string, action: string): string {
    modelViewUrl + "/api/v2/session/" + sessionId + "/" + action
  }

  /** The reply was an answer with this status. */
  predicate AnsweredWith(reply: Reply, status: int) {
    reply.Reply? && reply.status == status
  }

  /** The reply was an answer with some other status. */
  predicate Rejected(reply: Reply, status: int) {
    reply.Reply? && reply.status != status
  }

  /** The tail of open/output/export: the status check, then wrapping the
      reply's decoded JSON body as a response. */
  function Accept(env: Env, reply: Reply, op: Operation, expected: int): (r: Result<Response, Error>)
    ensures r.Success? <==>
      AnsweredWith(reply, expected) && reply.json.Some? && FromValue(reply.json.value, env.parse).Success?
    ensures r.Success? ==> r == FromValue(reply.json.value, env.parse)
    ensures Rejected(reply, expected) ==> r == Failure(UnexpectedStatus(op, reply.status, reply.text))
    ensures reply.Unreachable? ==> r == Failure(ConnectionFailed(reply.message))
    ensures AnsweredWith(reply, expected) && r.Failure? ==> r.error == InvalidJson
  {
    match reply
    case Unreachable(message) => Failure(ConnectionFailed(message))
    case Reply(status, text, json) =>
      if status != expected then Failure(UnexpectedStatus(op, status, text))
      else if json.None? then Failure(InvalidJson)
      else FromValue(json.value, env.parse)
  }

  /** The `ExceptionHandler` decorator on a method: with no handler the error
      propagates; with one, the handler's value is returned or its error raised. */
  function Guard<T>(handler: Option<Handler>, r: Result<T, Error>): (o: Outcome<T>)
    ensures o.Returned? <==> r.Success?
    ensures o.Returned? ==> o.value == r.value
    ensures r.Failure? && handler.None? ==> o == Raised(r.error)
    ensures r.Failure? && handler.Some? ==>
      match handler.value(r.error)
      case Rethrow(e) => o == Raised(e)
      case Return(v) => o == HandlerReturned(v)
  {
    match r
    case Success(v) => Returned(v)
    case Failure(e) =>
      if handler.None? then Raised(e)
      else
        match handler.value(e)
        case Rethrow(e') => Raised(e')
        case Return(v) => HandlerReturned(v)
  }

  /** The `ParameterMapper` decorator: the configured mapper rewrites `paramDict`
      only when the caller passed it; otherwise the default `{}` is used as is. */
  function MappedParams(s: Session, paramDict: Option<Json>): (r: Result<Json, Error>)
    ensures paramDict.None? ==> r == Success(JObj([]))
    ensures paramDict.Some? && s.mapper.None? ==> r == Success(paramDict.value)
    ensures paramDict.Some? && s.mapper.Some? ==>
      r == s.mapper.value(paramDict.value, View(s.modelViewUrl, s.response))
  {
    match paramDict
    case None => Success(JObj([]))
    case Some(p) => if s.mapper.Some? then s.mapper.value(p, View(s.modelViewUrl, s.response)) else Success(p)
  }

  /** The POST that redeems a ticket: a string `paramDict` is sent as it is,
      any other value as JSON. */
  function TicketRequest(modelViewUrl: string, ticket: string, paramDict: Json): Request {
    Request(Post, TicketUrl(modelViewUrl, ticket), JsonHeaders,
            if paramDict.JStr? then Text(paramDict.s) else JsonBody(paramDict))
  }

  /** The body of the constructor: a given session-init response wins and is
      used without a request; otherwise a ticket is redeemed with one POST that
      must answer 201; with neither the constructor raises. */
  function InitStep(env: Env, modelViewUrl: string, ticket: Option<string>, sessionInitResponse: Json, paramDict: Json)
    : (st: Step<Response>)
    ensures sessionInitResponse != JNull ==>
      st.sent == [] && st.result == FromValue(sessionInitResponse, env.parse)
    ensures sessionInitResponse == JNull && ticket.None? ==>
      st.sent == [] && st.result == Failure(NoSessionSource)
    ensures sessionInitResponse == JNull && ticket.Some? ==>
      && |st.sent| == 1
      && st.sent[0].verb == Post
      && st.sent[0].url == modelViewUrl + "/api/v2/ticket/" + ticket.value
      && st.sent[0].headers == JsonHeaders
      && st.sent[0].body == (if paramDict.JStr? then Text(paramDict.s) else JsonBody(paramDict))
      && st.result == Accept(env, env.send(st.sent[0]), OpenSession, 201)
      && (st.result.Success? ==> AnsweredWith(env.send(st.sent[0]), 201))
      && (Rejected(env.send(st.sent[0]), 201) ==>
            st.result == Failure(UnexpectedStatus(OpenSession, env.send(st.sent[0]).status, env.send(st.sent[0]).text)))
  {
    if sessionInitResponse != JNull then
      Step(FromValue(sessionInitResponse, env.parse), [])
    else if ticket.Some? then
      var req := TicketRequest(modelViewUrl, ticket.value, paramDict);
      Step(Accept(env, env.send(req), OpenSession, 201), [req])
    else
      Step(Failure(NoSessionSource), [])
  }

  /** `ShapeDiverTinySessionSdk(...)`. Python's `None` for `sessionInitResponse` is
      `JNull`; `handler` and `mapper` are None when not passed, and the caller passes
      `JObj([])` for the default `paramDict`. The handler is consulted on failure; the
      mapper is stored but not applied. If the handler returns None the object exists
      without a `response`; if it returns anything else Python raises TypeError. */
  function Open(env: Env, modelViewUrl: string, ticket: Option<string>, sessionInitResponse: Json,
                paramDict: Json, handler: Option<Handler>, mapper: Option<Mapper>): (c: Call<Session>)
    ensures c.sent == InitStep(env, modelViewUrl, ticket, sessionInitResponse, paramDict).sent
    ensures
      var r := InitStep(env, modelViewUrl, ticket, sessionInitResponse, paramDict).result;
      && (r.Success? ==> c.outcome == Returned(Session(modelViewUrl, handler, mapper, Some(r.value))))
      && (r.Failure? && handler.None? ==> c.outcome == Raised(r.error))
      && (r.Failure? && handler.Some? ==>
            match handler.value(r.error)
            case Rethrow(e) => c.outcome == Raised(e)
            case Return(v) =>
              c.outcome == if v == JNull then Returned(Session(modelViewUrl, handler, mapper, None))
                           else Raised(InitReturnedValue))
  {
    var st := InitStep(env, modelViewUrl, ticket, sessionInitResponse, paramDict);
    var outcome :=
      match Guard(handler, st.result)
      case Returned(resp) => Returned(Session(modelViewUrl, handler, mapper, Some(resp)))
      case HandlerReturned(v) =>
        if v == JNull then Returned(Session(modelViewUrl, handler, mapper, None)) else Raised(InitReturnedValue)
      case Raised(e) => Raised(e);
    Call(outcome, st.sent)
  }

  /** The stored response's session id, as the methods read it before building a URL. */
  function CurrentSessionId(s: Session): (r: Result<Json, Error>)
    ensures s.response.None? ==> r == Failure(NoResponse)
    ensures s.response.Some? ==> r == SessionId(s.response.value)
  {
    match s.response
    case None => Failure(NoResponse)
    case Some(resp) => SessionId(resp)
  }

  /** The body of `close()`: one POST to `/close`, which must answer 200. */
  function CloseStep(env: Env, s: Session): (st: Step<()>)
    ensures CurrentSessionId(s).Failure? ==> st.sent == [] && st.result == Failure(CurrentSessionId(s).error)
    ensures CurrentSessionId(s).Success? ==>
      && |st.sent| == 1
      && st.sent[0].verb == Post
      && st.sent[0].url == s.modelViewUrl + "/api/v2/session/" + Interpolate(env, CurrentSessionId(s).value) + "/close"
      && st.sent[0].headers == []
      && st.sent[0].body == NoBody
      && (st.result.Success? <==> AnsweredWith(env.send(st.sent[0]), 200))
      && (Rejected(env.send(st.sent[0]), 200) ==>
            st.result == Failure(UnexpectedStatus(CloseSession, env.send(st.sent[0]).status, env.send(st.sent[0]).text)))
      && (env.send(st.sent[0]).Unreachable? ==> st.result == Failure(ConnectionFailed(env.send(st.sent[0]).message)))
  {
    match CurrentSessionId(s)
    case Failure(e) => Step(Failure(e), [])
    case Success(sid) =>
      var req := Request(Post, SessionUrl(s.modelViewUrl, Interpolate(env, sid), "close"), [], NoBody);
      var result :=
        match env.send(req)
        case Unreachable(message) => Failure(ConnectionFailed(message))
        case Reply(status, text, _) =>
          if status != 200 then Failure(UnexpectedStatus(CloseSession, status, text)) else Success(());
      Step(result, [req])
  }

  /** The body of `output(paramDict=...)`: the mapped parameters are PUT to `/output`,
      which must answer 200. */
  function OutputStep(env: Env, s: Session, paramDict: Option<Json>): (st: Step<Response>)
    ensures MappedParams(s, paramDict).Failure? ==>
      st.sent == [] && st.result == Failure(MappedParams(s, paramDict).error)
    ensures MappedParams(s, paramDict).Success? && CurrentSessionId(s).Failure? ==>
      st.sent == [] && st.result == Failure(CurrentSessionId(s).error)
    ensures MappedParams(s, paramDict).Success? && CurrentSessionId(s).Success? ==>
      && |st.sent| == 1
      && st.sent[0].verb == Put
      && st.sent[0].url == s.modelViewUrl + "/api/v2/session/" + Interpolate(env, CurrentSessionId(s).value) + "/output"
      && st.sent[0].headers == JsonHeaders
      && st.sent[0].body == JsonBody(MappedParams(s, paramDict).value)
      && st.result == Accept(env, env.send(st.sent[0]), ComputeOutputs, 200)
      && (st.result.Success? ==> AnsweredWith(env.send(st.sent[0]), 200))
      && (Rejected(env.send(st.sent[0]), 200) ==>
            st.result == Failure(UnexpectedStatus(ComputeOutputs, env.send(st.sent[0]).status, env.send(st.sent[0]).text)))
  {
    match MappedParams(s, paramDict)
    case Failure(e) => Step(Failure(e), [])
    case Success(params) =>
      match CurrentSessionId(s)
      case Failure(e) => Step(Failure(e), [])
      case Success(sid) =>
        var req := Request(Put, SessionUrl(s.modelViewUrl, Interpolate(env, sid), "output"), JsonHeaders, JsonBody(params));
        Step(Accept(env, env.send(req), ComputeOutputs, 200), [req])
  }

  /** The export request body: exactly two members, `exports` holding a list with
      the one export id and `parameters` holding the parameters. */
  function ExportBody(exportId: Json, params: Json): (body: Json)
    ensures body.JObj? && |body.fields| == 2
    ensures Member(body, "exports") == Success(JArr([exportId]))
    ensures Member(body, "parameters") == Success(params)
  {
    var fields := [("exports", JArr([exportId])), ("parameters", params)];
    assert Get(fields, "exports") == Some(JArr([exportId]));
    assert fields[1..][0] == ("parameters", params);
    assert Get(fields, "parameters") == Some(params);
    JObj(fields)
  }

  /** The body of `export(exportId=..., paramDict=...)`: the export request is PUT
      to `/export`, which must answer 200. */
  function ExportStep(env: Env, s: Session, exportId: Json, paramDict: Option<Json>): (st: Step<Response>)
    ensures MappedParams(s, paramDict).Failure? ==>
      st.sent == [] && st.result == Failure(MappedParams(s, paramDict).error)
    ensures MappedParams(s, paramDict).Success? && CurrentSessionId(s).Failure? ==>
      st.sent == [] && st.result == Failure(CurrentSessionId(s).error)
    ensures MappedParams(s, paramDict).Success? && CurrentSessionId(s).Success? ==>
      && |st.sent| == 1
      && st.sent[0].verb == Put
      && st.sent[0].url == s.modelViewUrl + "/api/v2/session/" + Interpolate(env, CurrentSessionId(s).value) + "/export"
      && st.sent[0].headers == JsonHeaders
      && st.sent[0].body == JsonBody(ExportBody(exportId, MappedParams(s, paramDict).value))
      && st.result == Accept(env, env.send(st.sent[0]), ComputeExport, 200)
      && (st.result.Success? ==> AnsweredWith(env.send(st.sent[0]), 200))
      && (Rejected(env.send(st.sent[0]), 200) ==>
            st.result == Failure(UnexpectedStatus(ComputeExport, env.send(st.sent[0]).status, env.send(st.sent[0]).text)))
  {
    match MappedParams(s, paramDict)
    case Failure(e) => Step(Failure(e), [])
    case Success(params) =>
      match CurrentSessionId(s)
      case Failure(e) => Step(Failure(e), [])
      case Success(sid) =>
        var req := Request(Put, SessionUrl(s.modelViewUrl, Interpolate(env, sid), "export"), JsonHeaders,
                           JsonBody(ExportBody(exportId, params)));
        Step(Accept(env, env.send(req), ComputeExport, 200), [req])
  }

  /** `close()`; the handler sees every failure of the body and sends nothing itself. */
  function Close(env: Env, s: Session): (c: Call<()>)
    ensures c.sent == CloseStep(env, s).sent
    ensures c.outcome == Guard(s.handler, CloseStep(env, s).result)
    ensures c.outcome.Returned? <==> CloseStep(env, s).result.Success?
    ensures s.handler.None? && CloseStep(env, s).result.Failure? ==> c.outcome == Raised(CloseStep(env, s).result.error)
  {
    var st := CloseStep(env, s);
    Call(Guard(s.handler, st.result), st.sent)
  }

  /** `output(paramDict=...)`; `paramDict` is None when not passed. */
  function Output(env: Env, s: Session, paramDict: Option<Json>): (c: Call<Response>)
    ensures c.sent == OutputStep(env, s, paramDict).sent
    ensures c.outcome == Guard(s.handler, OutputStep(env, s, paramDict).result)
    ensures c.outcome.Returned? <==> OutputStep(env, s, paramDict).result.Success?
    ensures c.outcome.Returned? ==> c.outcome.value == OutputStep(env, s, paramDict).result.value
    ensures s.handler.None? && OutputStep(env, s, paramDict).result.Failure? ==>
      c.outcome == Raised(OutputStep(env, s, paramDict).result.error)
  {
    var st := OutputStep(env, s, paramDict);
    Call(Guard(s.handler, st.result), st.sent)
  }

  /** `export(exportId=..., paramDict=...)`; `paramDict` is None when not passed. */
  function Export(env: Env, s: Session, exportId: Json, paramDict: Option<Json>): (c: Call<Response>)
    ensures c.sent == ExportStep(env, s, exportId, paramDict).sent
    ensures c.outcome == Guard(s.handler, ExportStep(env, s, exportId, paramDict).result)
    ensures c.outcome.Returned? <==> ExportStep(env, s, exportId, paramDict).result.Success?
    ensures c.outcome.Returned? ==> c.outcome.value == ExportStep(env, s, exportId, paramDict).result.value
    ensures s.handler.None? && ExportStep(env, s, exportId, paramDict).result.Failure? ==>
      c.outcome == Raised(ExportStep(env, s, exportId, paramDict).result.error)
  {
    var st := ExportStep(env, s, exportId, paramDict);
    Call(Guard(s.handler, st.result), st.sent)
  }

  /** A ticket opens a session holding a response exactly when the backend
      answers 201 with a document; that session's id is the document's
      `sessionId`, whether the document came as JSON or as a string to parse. */
  lemma OpenedSessionId(env: Env, modelViewUrl: string, ticket: string, paramDict: Json,
                        handler: Option<Handler>, mapper: Option<Mapper>)
    ensures
      var c := Open(env, modelViewUrl, Some(ticket), JNull, paramDict, handler, mapper);
      var reply := env.send(TicketRequest(modelViewUrl, ticket, paramDict));
      var accepted := AnsweredWith(reply, 201) && reply.json.Some? && FromValue(reply.json.value, env.parse).Success?;
      && c.sent == [TicketRequest(modelViewUrl, ticket, paramDict)]
      && (c.outcome.Returned? && c.outcome.value.response.Some? <==> accepted)
      && (accepted ==>
            && c.outcome == Returned(Session(modelViewUrl, handler, mapper, Some(FromValue(reply.json.value, env.parse).value)))
            && CurrentSessionId(c.outcome.value) == Member(FromValue(reply.json.value, env.parse).value.doc, "sessionId"))
  {
  }

  /** A 201 answer to the ticket request opens the session on the answered
      document: the JSON value itself, or the parse of a string; a string that
      does not parse is the failure the handler sees. */
  lemma OpenFromTicketReply(env: Env, modelViewUrl: string, ticket: string, paramDict: Json,
                            handler: Option<Handler>, mapper: Option<Mapper>)
    requires
      var reply := env.send(TicketRequest(modelViewUrl, ticket, paramDict));
      AnsweredWith(reply, 201) && reply.json.Some?
    ensures
      var c := Open(env, modelViewUrl, Some(ticket), JNull, paramDict, handler, mapper);
      var j := env.send(TicketRequest(modelViewUrl, ticket, paramDict)).json.value;
      && (!j.JStr? ==> c.outcome == Returned(Session(modelViewUrl, handler, mapper, Some(Response(j)))))
      && (j.JStr? && env.parse(j.s).Some? ==>
            c.outcome == Returned(Session(modelViewUrl, handler, mapper, Some(Response(env.parse(j.s).value)))))
      && (j.JStr? && env.parse(j.s).None? && handler.None? ==> c.outcome == Raised(InvalidJson))
  {
  }

  /** The answer to the output request decides what `output` returns: a 200
      answer's document, or the rejection the status raises. */
  lemma OutputFromReply(env: Env, s: Session, paramDict: Option<Json>)
    requires MappedParams(s, paramDict).Success? && CurrentSessionId(s).Success?
    ensures
      var c := Output(env, s, paramDict);
      && |c.sent| == 1
      && var reply := env.send(c.sent[0]);
         && (AnsweredWith(reply, 200) && reply.json.Some? && !reply.json.value.JStr? ==>
               c.outcome == Returned(Response(reply.json.value)))
         && (AnsweredWith(reply, 200) && reply.json.Some? && reply.json.value.JStr? && env.parse(reply.json.value.s).Some? ==>
               c.outcome == Returned(Response(env.parse(reply.json.value.s).value)))
         && (Rejected(reply, 200) ==>
               c.outcome == Guard(s.handler, Failure(UnexpectedStatus(ComputeOutputs, reply.status, reply.text))))
  {
  }

  /** The answer to the export request decides what `export` returns: a 200
      answer's document, or the rejection the status raises. */
  lemma ExportFromReply(env: Env, s: Session, exportId: Json, paramDict: Option<Json>)
    requires MappedParams(s, paramDict).Success? && CurrentSessionId(s).Success?
    ensures
      var c := Export(env, s, exportId, paramDict);
      && |c.sent| == 1
      && var reply := env.send(c.sent[0]);
         && (AnsweredWith(reply, 200) && reply.json.Some? && !reply.json.value.JStr? ==>
               c.outcome == Returned(Response(reply.json.value)))
         && (AnsweredWith(reply, 200) && reply.json.Some? && reply.json.value.JStr? && env.parse(reply.json.value.s).Some? ==>
               c.outcome == Returned(Response(env.parse(reply.json.value.s).value)))
         && (Rejected(reply, 200) ==>
               c.outcome == Guard(s.handler, Failure(UnexpectedStatus(ComputeExport, reply.status, reply.text))))
  {
  }

  /** With a handler configured, a failing `close`, `output` or `export` yields
      what the handler makes of the body's error, and sends nothing more. */
  lemma HandlerDecidesFailures(env: Env, s: Session, exportId: Json, paramDict: Option<Json>)
    requires s.handler.Some?
    ensures CloseStep(env, s).result.Failure? ==>
      var c := Close(env, s);
      c.sent == CloseStep(env, s).sent &&
      match s.handler.value(CloseStep(env, s).result.error)
      case Rethrow(e) => c.outcome == Raised(e)
      case Return(v) => c.outcome == HandlerReturned(v)
    ensures OutputStep(env, s, paramDict).result.Failure? ==>
      var c := Output(env, s, paramDict);
      c.sent == OutputStep(env, s, paramDict).sent &&
      match s.handler.value(OutputStep(env, s, paramDict).result.error)
      case Rethrow(e) => c.outcome == Raised(e)
      case Return(v) => c.outcome == HandlerReturned(v)
    ensures ExportStep(env, s, exportId, paramDict).result.Failure? ==>
      var c := Export(env, s, exportId, paramDict);
      c.sent == ExportStep(env, s, exportId, paramDict).sent &&
      match s.handler.value(ExportStep(env, s, exportId, paramDict).result.error)
      case Rethrow(e) => c.outcome == Raised(e)
      case Return(v) => c.outcome == HandlerReturned(v)
  {
  }

  predicate IsPrefix(p: string, s: string) {
    |p| <= |s| && s[..|p|] == p
  }

  /** Every request a session issues targets its own `modelViewUrl`, under
      `/api/v2/session/` and the session's id. */
  lemma SessionRequestsOnEndpoint(env: Env, s: Session, exportId: Json, params: Option<Json>)
    ensures forall req :: req in Close(env, s).sent + Output(env, s, params).sent + Export(env, s, exportId, params).sent ==>
      && CurrentSessionId(s).Success?
      && IsPrefix(s.modelViewUrl + "/api/v2/session/" + Interpolate(env, CurrentSessionId(s).value) + "/", req.url)
  {
  }

  /** A session returned by the constructor keeps the `modelViewUrl` it was opened against. */
  lemma OpenKeepsEndpoint(env: Env, modelViewUrl: string, ticket: Option<string>, init: Json,
                          paramDict: Json, handler: Option<Handler>, mapper: Option<Mapper>)
    requires Open(env, modelViewUrl, ticket, init, paramDict, handler, mapper).outcome.Returned?
    ensures Open(env, modelViewUrl, ticket, init, paramDict, handler, mapper).outcome.value.modelViewUrl == modelViewUrl
  {
  }
}
