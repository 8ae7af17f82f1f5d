/**
 * ApiController: a status-code register and the builders that wrap a payload
 * in a one-key `success` or `error` envelope whose `http_code` repeats the
 * status sent on the wire.
 */
module Api {
  import opened Wrappers
  import opened PhpArray

  // ---------------------------------------------------------------------------
  // The CODE_* table: each status number with the phrase the controller uses.

  const CodeContinue := "100 Continue"
  const CodeSwitchingProtocols := "101 Switching Protocols"
  const CodeOk := "200 OK"
  const CodeCreated := "201 Created"
  const CodeAccepted := "202 Accepted"
  const CodeNonAuthoritativeInformation := "203 Non-Authoritative Information"
  const CodeNoContent := "204 No Content"
  const CodeResetContent := "205 Reset Content"
  const CodePartialContent := "206 Partial Content"
  const CodeMultipleChoices := "300 Multiple Choice"
  const CodeMovePermanently := "301 Moved Permanently"
  const CodeFound := "302 Found"
  const CodeSeeOther := "303 See Other"
  const CodeNotModified := "304 Not Modified"
  const CodeUseProxy := "305 Use Proxy"
  const CodeTemporaryRedirect := "307 Temporary Redirect"
  const CodeBadRequest := "400 Bad Request"
  const CodeUnauthorized := "401 Unauthorized"
  const CodePaymentRequired := "402 Payment Required"
  const CodeForbidden := "403 Forbidden"
  const CodeNotFound := "404 Not Found"
  const CodeMethodNotAllowed := "405 Method Not Allowed"
  const CodeNotAcceptable := "406 Not Acceptable"
  const CodeProxyAuthenticationRequired := "407 Proxy Authentication Required"
  const CodeRequestTimeOut := "408 Request Time-out"
  const CodeConflict := "409 Conflict"
  const CodeGone := "410 Gone"
  const CodeLengthRequired := "411 Length Required"
  const CodePreconditionFailed := "412 Precondition Failed"
  const CodeRequestEntityTooLarge := "413 Request Entity Too Large"
  const CodeRequestUriTooLarge := "414 Request-URI Too Large"
  const CodeUnsupportedMediaType := "415 Unsupported Media Type"
  const CodeRequestedRangeNotSatisfiable := "416 Requested range not satisfiable"
  const CodeExpectationFailed := "417 Expectation Failed"
  const CodeUnprocessableEntity := "422 Unprocessable Entity"
  const CodeInternalServerError := "500 Internal Server Error"
  const CodeNotImplemented := "501 Not Implemented"
  const CodeBadGateway := "502 Bad Gateway"
  const CodeServiceUnavailable := "503 Service Unavailable"
  const CodeGatewayTimeOut := "504 Gateway Time-out"
  const CodeHttpVersionNotSupported := "505 HTTP Version not supported"

  const InformationalCodes: seq<(int, string)> := [(100, CodeContinue), (101, CodeSwitchingProtocols)]

  const SuccessfulCodes: seq<(int, string)> := [
    (200, CodeOk), (201, CodeCreated), (202, CodeAccepted),
    (203, CodeNonAuthoritativeInformation), (204, CodeNoContent),
    (205, CodeResetContent), (206, CodePartialContent)
  ]

  const RedirectionCodes: seq<(int, string)> := [
    (300, CodeMultipleChoices), (301, CodeMovePermanently), (302, CodeFound),
    (303, CodeSeeOther), (304, CodeNotModified), (305, CodeUseProxy),
    (307, CodeTemporaryRedirect)
  ]

  const ClientErrorCodes: seq<(int, string)> := ClientErrorCodesTo409 + ClientErrorCodesFrom410

  const ClientErrorCodesTo409: seq<(int, string)> := [
    (400, CodeBadRequest), (401, CodeUnauthorized), (402, CodePaymentRequired),
    (403, CodeForbidden), (404, CodeNotFound), (405, CodeMethodNotAllowed),
    (406, CodeNotAcceptable), (407, CodeProxyAuthenticationRequired),
    (408, CodeRequestTimeOut), (409, CodeConflict)
  ]

  const ClientErrorCodesFrom410: seq<(int, string)> := [
    (410, CodeGone), (411, CodeLengthRequired), (412, CodePreconditionFailed),
    (413, CodeRequestEntityTooLarge), (414, CodeRequestUriTooLarge),
    (415, CodeUnsupportedMediaType), (416, CodeRequestedRangeNotSatisfiable),
    (417, CodeExpectationFailed), (422, CodeUnprocessableEntity)
  ]

  const ServerErrorCodes: seq<(int, string)> := [
    (500, CodeInternalServerError), (501, CodeNotImplemented),
    (502, CodeBadGateway), (503, CodeServiceUnavailable),
    (504, CodeGatewayTimeOut), (505, CodeHttpVersionNotSupported)
  ]

  /** Every status with its `CODE_*` constant, in declaration order. */
  const CodeTable: seq<(int, string)> :=
    InformationalCodes + SuccessfulCodes + RedirectionCodes + ClientErrorCodes + ServerErrorCodes

  predicate IsDigit(ch: char) {
    '0' <= ch <= '9'
  }

  /** The number written by the three leading digits of `code`. */
  function LeadingNumber(code: string): int
    requires |code| >= 3
  {
    (code[0] as int - '0' as int) * 100 + (code[1] as int - '0' as int) * 10 + (code[2] as int - '0' as int)
  }

  /** `code` reads "<status> <phrase>". */
  predicate CodeMatches(code: string, status: int) {
    && |code| > 4
    && IsDigit(code[0]) && IsDigit(code[1]) && IsDigit(code[2]) && code[3] == ' '
    && LeadingNumber(code) == status
  }

  /** Every entry of `table` pairs a status with a phrase that begins with it. */
  ghost predicate AllMatch(table: seq<(int, string)>) {
    forall i :: 0 <= i < |table| ==> CodeMatches(table[i].1, table[i].0)
  }

  /** Two tables whose entries all match join into one whose entries all match. */
  lemma AllMatchJoin(a: seq<(int, string)>, b: seq<(int, string)>)
    requires AllMatch(a) && AllMatch(b)
    ensures AllMatch(a + b)
  {
    forall i | 0 <= i < |a + b| ensures CodeMatches((a + b)[i].1, (a + b)[i].0) {
      if i >= |a| { assert (a + b)[i] == b[i - |a|]; }
    }
  }

  /** The 1xx constants, entry by entry. */
  lemma InformationalCodesMatch()
    ensures AllMatch(InformationalCodes)
  {
    assert CodeMatches(CodeContinue, 100);
    assert CodeMatches(CodeSwitchingProtocols, 101);
  }

  /** The 2xx constants, entry by entry. */
  lemma SuccessfulCodesMatch()
    ensures AllMatch(SuccessfulCodes)
  {
    assert CodeMatches(CodeOk, 200);
    assert CodeMatches(CodeCreated, 201);
    assert CodeMatches(CodeAccepted, 202);
    assert CodeMatches(CodeNonAuthoritativeInformation, 203);
    assert CodeMatches(CodeNoContent, 204);
    assert CodeMatches(CodeResetContent, 205);
    assert CodeMatches(CodePartialContent, 206);
  }

  /** The 3xx constants, entry by entry. */
  lemma RedirectionCodesMatch()
    ensures AllMatch(RedirectionCodes)
  {
    assert CodeMatches(CodeMultipleChoices, 300);
    assert CodeMatches(CodeMovePermanently, 301);
    assert CodeMatches(CodeFound, 302);
    assert CodeMatches(CodeSeeOther, 303);
    assert CodeMatches(CodeNotModified, 304);
    assert CodeMatches(CodeUseProxy, 305);
    assert CodeMatches(CodeTemporaryRedirect, 307);
  }

  /** The 4xx constants, joined from the two halves below. */
  lemma ClientErrorCodesMatch()
    ensures AllMatch(ClientErrorCodes)
  {
    ClientErrorCodesTo409Match();
    ClientErrorCodesFrom410Match();
    AllMatchJoin(ClientErrorCodesTo409, ClientErrorCodesFrom410);
  }

  lemma ClientErrorCodesTo409Match()
    ensures AllMatch(ClientErrorCodesTo409)
  {
    assert CodeMatches(CodeBadRequest, 400);
    assert CodeMatches(CodeUnauthorized, 401);
    assert CodeMatches(CodePaymentRequired, 402);
    assert CodeMatches(CodeForbidden, 403);
    assert CodeMatches(CodeNotFound, 404);
    assert CodeMatches(CodeMethodNotAllowed, 405);
    assert CodeMatches(CodeNotAcceptable, 406);
    assert CodeMatches(CodeProxyAuthenticationRequired, 407);
    assert CodeMatches(CodeRequestTimeOut, 408);
    assert CodeMatches(CodeConflict, 409);
  }

  lemma ClientErrorCodesFrom410Match()
    ensures AllMatch(ClientErrorCodesFrom410)
  {
    assert CodeMatches(CodeGone, 410);
    assert CodeMatches(CodeLengthRequired, 411);
    assert CodeMatches(CodePreconditionFailed, 412);
    assert CodeMatches(CodeRequestEntityTooLarge, 413);
    assert CodeMatches(CodeRequestUriTooLarge, 414);
    assert CodeMatches(CodeUnsupportedMediaType, 415);
    assert CodeMatches(CodeRequestedRangeNotSatisfiable, 416);
    assert CodeMatches(CodeExpectationFailed, 417);
    assert CodeMatches(CodeUnprocessableEntity, 422);
  }

  /** The 5xx constants, entry by entry. */
  lemma ServerErrorCodesMatch()
    ensures AllMatch(ServerErrorCodes)
  {
    assert CodeMatches(CodeInternalServerError, 500);
    assert CodeMatches(CodeNotImplemented, 501);
    assert CodeMatches(CodeBadGateway, 502);
    assert CodeMatches(CodeServiceUnavailable, 503);
    assert CodeMatches(CodeGatewayTimeOut, 504);
    assert CodeMatches(CodeHttpVersionNotSupported, 505);
  }

  /** Every CODE_* string begins with its own status number. */
  lemma CodeTableConsistent()
    ensures forall i :: 0 <= i < |CodeTable| ==> CodeMatches(CodeTable[i].1, CodeTable[i].0)
  {
    InformationalCodesMatch();
    SuccessfulCodesMatch();
    RedirectionCodesMatch();
    ClientErrorCodesMatch();
    ServerErrorCodesMatch();
    AllMatchJoin(InformationalCodes, SuccessfulCodes);
    AllMatchJoin(InformationalCodes + SuccessfulCodes, RedirectionCodes);
    AllMatchJoin(InformationalCodes + SuccessfulCodes + RedirectionCodes, ClientErrorCodes);
    AllMatchJoin(InformationalCodes + SuccessfulCodes + RedirectionCodes + ClientErrorCodes, ServerErrorCodes);
  }

  // ---------------------------------------------------------------------------
  // The register and the responses.

  /** The controller's mutable state: `$statusCode`. */
  datatype Controller = Controller(statusCode: int)

  /** A freshly constructed controller. */
  const Fresh := Controller(200)

  /** What reaches the client: the transport status and the JSON body. */
  datatype Response = Response(status: int, body: Dict)

  /** A builder's effect: the register afterwards, the response, and whether a warning was raised. */
  datatype Emitted = Emitted(controller: Controller, response: Response, warned: bool)

  /** Fractal's `new Item($data, $callback)`. */
  datatype Item<!T> = Item(data: T, transformer: T -> Dict)

  /** `$fractal->createData($item)->toArray()`; `toArray` stands for the serializer. */
  function Scope<T>(item: Item<T>, toArray: Dict -> Dict): Dict {
    toArray(item.transformer(item.data))
  }

  /** `getStatusCode()`: the register is the controller's whole state. */
  function GetStatusCode(c: Controller): (s: int)
    ensures Controller(s) == c
  {
    c.statusCode
  }

  function SetStatusCode(c: Controller, status: int): (c': Controller)
    ensures GetStatusCode(c') == status
  {
    c.(statusCode := status)
  }

  /** The register holds 200 until set, and reads back whatever was set last. */
  lemma StatusRegister(c: Controller, s: int, t: int)
    ensures GetStatusCode(Fresh) == 200
    ensures GetStatusCode(SetStatusCode(SetStatusCode(c, s), t)) == t
    ensures SetStatusCode(c, GetStatusCode(c)) == c
  {
  }

  /** `respondWithArray`: the body is sent with the register as status. */
  function RespondWithArray(c: Controller, body: Dict): Response {
    Response(c.statusCode, body)
  }

  /** The fixed fields every envelope starts with, followed by `extra`. */
  function StatusBlock(code: string, status: int, extra: Dict): (r: Dict)
    ensures Keys(r) == ["code", "http_code"] + Keys(extra)
    ensures Lookup(r, "code") == Some(Str(code))
    ensures Lookup(r, "http_code") == Some(Int(status))
    ensures forall k :: k != "code" && k != "http_code" ==> Lookup(r, k) == Lookup(extra, k)
    ensures Distinct(extra) && "code" !in Keys(extra) && "http_code" !in Keys(extra) ==> Distinct(r)
  {
    var head := [("code", Str(code)), ("http_code", Int(status))];
    KeysAppend(head, extra);
    forall k
      ensures Lookup(head + extra, k) == if k in Keys(head) then Lookup(head, k) else Lookup(extra, k)
    {
      LookupAppend(head, extra, k);
    }
    head + extra
  }

  /** A one-key envelope under `key` whose `http_code` equals the transport status. */
  ghost predicate Envelope(r: Response, key: string) {
    && Keys(r.body) == [key]
    && r.body[0].1.Obj?
    && Lookup(r.body[0].1.fields, "http_code") == Some(Int(r.status))
  }

  /** The fields inside a one-key envelope (empty for any other body). */
  function Fields(r: Response): Dict {
    if |r.body| > 0 && r.body[0].1.Obj? then r.body[0].1.fields else []
  }

  /** The fixed block of an envelope followed, left-biased, by a serialized resource. */
  function Merge(code: string, status: int, extra: Dict, resource: Dict): (r: Dict)
    ensures LeftBiased(r, StatusBlock(code, status, extra), resource)
    ensures Lookup(r, "code") == Some(Str(code))
    ensures Lookup(r, "http_code") == Some(Int(status))
    ensures forall k :: k in Keys(extra) && k != "code" && k != "http_code" ==> Lookup(r, k) == Lookup(extra, k)
    ensures Distinct(extra) && "code" !in Keys(extra) && "http_code" !in Keys(extra) && Distinct(resource) ==>
      Distinct(r)
  {
    var fixed := StatusBlock(code, status, extra);
    var r := Union(fixed, resource);
    assert "code" in Keys(fixed) && "http_code" in Keys(fixed);
    forall k | k in Keys(extra)
      ensures k in Keys(fixed)
    {
    }
    r
  }

  /** `respondWithArray([key => fields])`, with no warning. */
  function Wrap(c: Controller, key: string, fields: Dict): (e: Emitted)
    ensures e.controller == c && !e.warned && e.response.status == GetStatusCode(c)
    ensures Keys(e.response.body) == [key] && e.response.body[0].1.Obj?
    ensures Fields(e.response) == fields
  {
    Emitted(c, RespondWithArray(c, [(key, Obj(fields))]), false)
  }

  /** The register and the transport status agree, and the envelope repeats them. */
  ghost predicate Sent(e: Emitted, key: string, status: int, code: string) {
    && e.controller.statusCode == status
    && e.response.status == status
    && Envelope(e.response, key)
    && Lookup(Fields(e.response), "code") == Some(Str(code))
  }

  /** An envelope holding exactly `code`, `http_code` and `name`. */
  ghost predicate Exactly(e: Emitted, name: string, v: Value) {
    && Keys(Fields(e.response)) == ["code", "http_code", name]
    && Lookup(Fields(e.response), name) == Some(v)
  }

  /** `respondWithError`: warns exactly when the register still reads 200, and builds the envelope either way. */
  function RespondWithError(c: Controller, message: string, errorCode: string): (e: Emitted)
    ensures e.warned <==> GetStatusCode(c) == 200
    ensures e.controller == c && e.response.status == GetStatusCode(c)
    ensures Envelope(e.response, "error")
    ensures Lookup(Fields(e.response), "code") == Some(Str(errorCode))
    ensures Exactly(e, "message", Str(message))
  {
    var body := [("error", Obj(StatusBlock(errorCode, c.statusCode, [("message", Str(message))])))];
    Emitted(c, RespondWithArray(c, body), c.statusCode == 200)
  }

  /**
   * The fields of a success envelope: the message; without an item exactly
   * code, http_code and message; with one, the fixed block followed,
   * left-biased, by the serialized item; and no key twice unless the
   * item's serialization repeats one.
   */
  ghost predicate SuccessFields<T>(e: Emitted, status: int, code: string, message: string,
                                   item: Option<Item<T>>, toArray: Dict -> Dict) {
    && Lookup(Fields(e.response), "message") == Some(Str(message))
    && (item.None? ==> Exactly(e, "message", Str(message)))
    && (item.Some? ==>
          LeftBiased(Fields(e.response), StatusBlock(code, status, [("message", Str(message))]),
                     Scope(item.value, toArray)))
    && ((item.Some? ==> Distinct(Scope(item.value, toArray))) ==> Distinct(Fields(e.response)))
  }

  /**
   * `respondWithSuccess`: without an item the envelope holds exactly code,
   * http_code and message; with one, the fixed block wins over the
   * serialized item's keys and the item's other keys follow.
   */
  function RespondWithSuccess<T>(c: Controller, message: string, successCode: string,
                                 item: Option<Item<T>>, toArray: Dict -> Dict): (e: Emitted)
    ensures !e.warned && e.controller == c && e.response.status == GetStatusCode(c)
    ensures Envelope(e.response, "success")
    ensures Lookup(Fields(e.response), "code") == Some(Str(successCode))
    ensures SuccessFields(e, GetStatusCode(c), successCode, message, item, toArray)
  {
    var extra := [("message", Str(message))];
    match item
    case None => Wrap(c, "success", StatusBlock(successCode, c.statusCode, extra))
    case Some(it) => Wrap(c, "success", Merge(successCode, c.statusCode, extra, Scope(it, toArray)))
  }

  // ---------------------------------------------------------------------------
  // The helpers.

  /** An error helper's result: its own status, the matching code, the message, no warning. */
  ghost predicate ErrorSent(e: Emitted, status: int, code: string, message: string) {
    && Sent(e, "error", status, code)
    && CodeMatches(code, status)
    && !e.warned
    && Exactly(e, "message", Str(message))
  }

  function ErrorBadRequest(c: Controller, message: string): (e: Emitted)
    ensures ErrorSent(e, 400, CodeBadRequest, message)
  {
    RespondWithError(SetStatusCode(c, 400), message, CodeBadRequest)
  }

  function ErrorUnauthorized(c: Controller, message: string): (e: Emitted)
    ensures ErrorSent(e, 401, CodeUnauthorized, message)
  {
    RespondWithError(SetStatusCode(c, 401), message, CodeUnauthorized)
  }

  function ErrorForbidden(c: Controller, message: string): (e: Emitted)
    ensures ErrorSent(e, 403, CodeForbidden, message)
  {
    RespondWithError(SetStatusCode(c, 403), message, CodeForbidden)
  }

  function ErrorUnprocessableEntity(c: Controller, message: string): (e: Emitted)
    ensures ErrorSent(e, 422, CodeUnprocessableEntity, message)
  {
    RespondWithError(SetStatusCode(c, 422), message, CodeUnprocessableEntity)
  }

  function ErrorInternalServerError(c: Controller, message: string): (e: Emitted)
    ensures ErrorSent(e, 500, CodeInternalServerError, message)
  {
    RespondWithError(SetStatusCode(c, 500), message, CodeInternalServerError)
  }

  /** A success helper's result, with the item merged in when there is one. */
  ghost predicate SuccessSent<T>(e: Emitted, status: int, code: string, message: string,
                                 item: Option<Item<T>>, toArray: Dict -> Dict) {
    && Sent(e, "success", status, code)
    && CodeMatches(code, status)
    && !e.warned
    && SuccessFields(e, status, code, message, item, toArray)
  }

  function SuccessCreated<T>(c: Controller, message: string, item: Option<Item<T>>,
                             toArray: Dict -> Dict): (e: Emitted)
    ensures SuccessSent(e, 201, CodeCreated, message, item, toArray)
  {
    assert CodeMatches(CodeCreated, 201) by {
      SuccessfulCodesMatch();
      assert SuccessfulCodes[1] == (201, CodeCreated);
    }
    var c' := SetStatusCode(c, 201);
    assert GetStatusCode(c') == 201;
    RespondWithSuccess(c', message, CodeCreated, item, toArray)
  }

  function SuccessUpdated<T>(c: Controller, message: string, item: Option<Item<T>>,
                             toArray: Dict -> Dict): (e: Emitted)
    ensures SuccessSent(e, 202, CodeAccepted, message, item, toArray)
  {
    assert CodeMatches(CodeAccepted, 202) by {
      SuccessfulCodesMatch();
      assert SuccessfulCodes[2] == (202, CodeAccepted);
    }
    var c' := SetStatusCode(c, 202);
    assert GetStatusCode(c') == 202;
    RespondWithSuccess(c', message, CodeAccepted, item, toArray)
  }

  function SuccessDeleted(c: Controller, message: string): (e: Emitted)
    ensures Sent(e, "success", 202, CodeAccepted) && !e.warned
    ensures Exactly(e, "message", Str(message))
  {
    RespondWithSuccess<Dict>(SetStatusCode(c, 202), message, CodeAccepted, None, d => d)
  }

  /** The fields of `successAuth`: the fixed block with redirect and token, then the serialized user. */
  function AuthFields(status: int, redirectTo: string, token: string, resource: Dict): (r: Dict)
    ensures LeftBiased(r, StatusBlock(CodeAccepted, status, [("redirectTo", Str(redirectTo)), ("token", Str(token))]),
                       resource)
    ensures Distinct(resource) ==> Distinct(r)
    ensures Lookup(r, "code") == Some(Str(CodeAccepted)) && Lookup(r, "http_code") == Some(Int(status))
    ensures Lookup(r, "redirectTo") == Some(Str(redirectTo))
    ensures Lookup(r, "token") == Some(Str(token))
  {
    var extra := [("redirectTo", Str(redirectTo)), ("token", Str(token))];
    AuthExtra(redirectTo, token);
    Merge(CodeAccepted, status, extra, resource)
  }

  /** The redirect and the token form a distinct array that leaves the fixed keys alone. */
  lemma AuthExtra(redirectTo: string, token: string)
    ensures var extra := [("redirectTo", Str(redirectTo)), ("token", Str(token))];
      && Keys(extra) == ["redirectTo", "token"]
      && Distinct(extra) && "code" !in Keys(extra) && "http_code" !in Keys(extra)
      && Lookup(extra, "redirectTo") == Some(Str(redirectTo))
      && Lookup(extra, "token") == Some(Str(token))
  {
    var extra := [("redirectTo", Str(redirectTo)), ("token", Str(token))];
    assert Keys(extra) == ["redirectTo", "token"];
    assert extra[1..] == [("token", Str(token))];
  }

  /** `successAuth`: 202 with redirect and token ahead of the serialized user. */
  function SuccessAuth<T>(c: Controller, redirectTo: string, token: string, user: Item<T>,
                          toArray: Dict -> Dict): (e: Emitted)
    ensures Sent(e, "success", 202, CodeAccepted) && !e.warned
    ensures LeftBiased(Fields(e.response),
                       StatusBlock(CodeAccepted, 202, [("redirectTo", Str(redirectTo)), ("token", Str(token))]),
                       Scope(user, toArray))
    ensures Distinct(Scope(user, toArray)) ==> Distinct(Fields(e.response))
    ensures Lookup(Fields(e.response), "redirectTo") == Some(Str(redirectTo))
    ensures Lookup(Fields(e.response), "token") == Some(Str(token))
  {
    var c' := SetStatusCode(c, 202);
    assert c'.statusCode == 202;
    Wrap(c', "success", AuthFields(c'.statusCode, redirectTo, token, Scope(user, toArray)))
  }

  /** `errorAuth`: 422 with the serialized errors after code and http_code. */
  function ErrorAuth<T>(c: Controller, errors: Item<T>, toArray: Dict -> Dict): (e: Emitted)
    ensures Sent(e, "error", 422, CodeUnprocessableEntity) && !e.warned
    ensures LeftBiased(Fields(e.response), StatusBlock(CodeUnprocessableEntity, 422, []),
                       Scope(errors, toArray))
    ensures Distinct(Scope(errors, toArray)) ==> Distinct(Fields(e.response))
  {
    var c' := SetStatusCode(c, 422);
    Wrap(c', "error", Merge(CodeUnprocessableEntity, c'.statusCode, [], Scope(errors, toArray)))
  }

  /** `successLogout`: 202 holding exactly code, http_code and redirectTo. */
  function SuccessLogout(c: Controller, redirectTo: string): (e: Emitted)
    ensures Sent(e, "success", 202, CodeAccepted) && !e.warned
    ensures Exactly(e, "redirectTo", Str(redirectTo))
  {
    var c' := SetStatusCode(c, 202);
    var success := StatusBlock(CodeAccepted, c'.statusCode, [("redirectTo", Str(redirectTo))]);
    Wrap(c', "success", success)
  }

  /** `successPassword`: 202 with the serialized successes after code and http_code. */
  function SuccessPassword<T>(c: Controller, successes: Item<T>, toArray: Dict -> Dict): (e: Emitted)
    ensures Sent(e, "success", 202, CodeAccepted) && !e.warned
    ensures LeftBiased(Fields(e.response), StatusBlock(CodeAccepted, 202, []),
                       Scope(successes, toArray))
    ensures Distinct(Scope(successes, toArray)) ==> Distinct(Fields(e.response))
  {
    var c' := SetStatusCode(c, 202);
    Wrap(c', "success", Merge(CodeAccepted, c'.statusCode, [], Scope(successes, toArray)))
  }

  /** `errorPassword`: the same shape as `errorAuth`. */
  function ErrorPassword<T>(c: Controller, errors: Item<T>, toArray: Dict -> Dict): (e: Emitted)
    ensures Sent(e, "error", 422, CodeUnprocessableEntity) && !e.warned
    ensures LeftBiased(Fields(e.response), StatusBlock(CodeUnprocessableEntity, 422, []),
                       Scope(errors, toArray))
    ensures Distinct(Scope(errors, toArray)) ==> Distinct(Fields(e.response))
  {
    var c' := SetStatusCode(c, 422);
    Wrap(c', "error", Merge(CodeUnprocessableEntity, c'.statusCode, [], Scope(errors, toArray)))
  }

  /** Whatever the transformed errors hold, `errorAuth` sends `code` and `http_code` once each, first. */
  lemma ErrorAuthFixedKeysOnce<T>(c: Controller, errors: Item<T>, toArray: Dict -> Dict)
    ensures var f := Fields(ErrorAuth(c, errors, toArray).response);
      && |f| >= 2 && f[0].0 == "code" && f[1].0 == "http_code"
      && forall j :: 2 <= j < |f| ==> f[j].0 != "code" && f[j].0 != "http_code"
  {
    var f := Fields(ErrorAuth(c, errors, toArray).response);
    var a := StatusBlock(CodeUnprocessableEntity, 422, []);
    assert Keys(a) == ["code", "http_code"];
    assert f[..2] == a && a[0].0 == Keys(a)[0] && a[1].0 == Keys(a)[1];
    forall j | 2 <= j < |f|
      ensures f[j].0 != "code" && f[j].0 != "http_code"
    {
      SuffixAvoids(f, a, Scope(errors, toArray), j);
    }
  }

  /** Only a bare `respondWithError` on an unset register warns; every helper sets its status first. */
  lemma WarningOnlyOnDefaultStatus(message: string, code: string)
    ensures RespondWithError(Fresh, message, code).warned
    ensures !ErrorBadRequest(Fresh, message).warned
    ensures !ErrorUnprocessableEntity(Fresh, message).warned
  {
  }
}
