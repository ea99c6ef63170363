/** index.js: the option handling around the transport call (remove, header defaulting by
    declared body kind, the timeout decision, status validation and its error). */
module FetchOptions {
  import opened Js
  import opened Errors

  /** `v === 'text'` and the like. */
  predicate IsStr(v: Value, s: string) { v.Str? && v.s == s }

  // ---------------------------------------------------------------------------------------
  // The options object
  // ---------------------------------------------------------------------------------------

  /** The shallow copy `opts` that fetch() edits in place. */
  class Options {
    var props: map<string, Value>

    /** `Object.assign({}, options)`. */
    constructor (options: map<string, Value>)
      ensures props == options
    {
      props := options;
    }

    /** remove (index.js:163-167): read a key, then delete it. */
    method Remove(key: string) returns (v: Value)
      modifies this
      ensures v == Get(old(props), key)
      ensures props == old(props) - {key}
      ensures key !in props && forall k :: k in old(props) && k != key ==> k in props && props[k] == old(props)[k]
    {
      v := Get(props, key);
      props := props - {key};
    }
  }

  // ---------------------------------------------------------------------------------------
  // Headers
  // ---------------------------------------------------------------------------------------

  /** `opts.headers[name]`: a header of an object, undefined on anything else. */
  function Header(props: map<string, Value>, name: string): Value {
    match Get(props, "headers")
    case Obj(es) => Lookup(es, name)
    case _ => Undefined
  }

  /** `opts.headers[name] = v`: stored when the headers are an object; an assignment to a
      property of a primitive is dropped (index.js runs in sloppy mode). */
  function WithHeader(props: map<string, Value>, name: string, v: Value): (r: map<string, Value>)
    ensures r.Keys == props.Keys
    ensures forall k :: k in props && k != "headers" ==> r[k] == props[k]
    ensures Get(props, "headers").Obj? ==> Get(r, "headers").Obj? && Header(r, name) == v
    ensures !Get(props, "headers").Obj? ==> r == props
  {
    match Get(props, "headers")
    case Obj(es) => props["headers" := Obj(SetProp(es, name, v))]
    case _ => props
  }

  /** `if (!opts.headers) opts.headers = {}`. */
  function EnsureHeaders(props: map<string, Value>): (r: map<string, Value>)
    ensures Truthy(Get(r, "headers"))
    ensures forall k :: k in r <==> k in props || k == "headers"
    ensures forall k :: k in props && k != "headers" ==> r[k] == props[k]
    ensures Truthy(Get(props, "headers")) ==> r == props
    ensures !Truthy(Get(props, "headers")) ==> Get(r, "headers") == Obj([]) && !Truthy(Header(r, "content-type"))
  {
    if Truthy(Get(props, "headers")) then props else props["headers" := Obj([])]
  }

  /** `if (!opts.headers[name]) opts.headers[name] = v`. */
  function DefaultHeader(props: map<string, Value>, name: string, v: Value): (r: map<string, Value>)
    ensures r.Keys == props.Keys
    ensures forall k :: k in props && k != "headers" ==> r[k] == props[k]
    ensures Truthy(Header(props, name)) ==> r == props
    ensures !Truthy(Header(props, name)) && Get(props, "headers").Obj? ==> Header(r, name) == v
    ensures Truthy(Get(props, "headers")) ==> Truthy(Get(r, "headers"))
  {
    if Truthy(Header(props, name)) then props else WithHeader(props, name, v)
  }

  /** `headers` and `body` are different keys. */
  lemma HeadersIsNotBody()
    ensures "headers" != "body"
  {
    assert "headers"[0] == 'h' && "body"[0] == 'b';
  }

  /** The result of an in-place edit that may throw half way: the new properties, and what was thrown. */
  datatype Effect = Effect(props: map<string, Value>, thrown: Option<Thrown>)

  /** The serialisers the request types call into, left opaque. */
  datatype Serializers = Serializers(
    jsonStringify: Value -> Value,                  // JSON.stringify(body)
    formUrlEncode: Value -> Result<string, Thrown>, // new URLSearchParams(body).toString(), or the TypeError it throws
    getBoundary: Value -> Result<string, Thrown>)   // body.getBoundary(), or what calling it throws

  predicate SupportedRequestType(rt: Value) {
    IsStr(rt, "json") || IsStr(rt, "url") || IsStr(rt, "text") || IsStr(rt, "form")
  }

  predicate SupportedResponseType(rt: Value) {
    IsStr(rt, "json") || IsStr(rt, "file") || IsStr(rt, "text")
  }

  /** The content type a request type declares, when it does not depend on the body. */
  function ContentTypeOf(rt: Value): string {
    if IsStr(rt, "json") then "application/json"
    else if IsStr(rt, "url") then "application/x-www-form-urlencoded"
    else "text/plain"
  }

  /** Header keys kept, and any other property untouched. */
  ghost predicate OnlyHeadersAndBody(before: map<string, Value>, after: map<string, Value>) {
    (forall k :: k in after ==> k in before || k == "headers" || k == "body")
    && (forall k :: k in before ==> k in after)
    && (forall k :: k in before && k != "headers" && k != "body" ==> after[k] == before[k])
  }

  /** handleRequestTypes (index.js:82-109) as a function of the options before the call. */
  function RequestTypeEffect(props: map<string, Value>, rt: Value, ser: Serializers): (r: Effect)
    ensures !Truthy(rt) ==> r == Effect(props, None)
    ensures OnlyHeadersAndBody(props, r.props)
    ensures Truthy(rt) && !SupportedRequestType(rt) ==>
              r == Effect(EnsureHeaders(props), Some(PlainError("requestType not supported (" + ToJSString(rt) + ")")))
    ensures r.thrown.Some? ==> Truthy(rt) && (!SupportedRequestType(rt) || IsStr(rt, "form") || IsStr(rt, "url"))
  {
    if !Truthy(rt) then Effect(props, None)
    else
      var p := EnsureHeaders(props);
      var body := Get(p, "body");
      if IsStr(rt, "json") then
        var q := DefaultHeader(p, "content-type", Str("application/json"));
        Effect(if body.Undefined? then q else q["body" := ser.jsonStringify(body)], None)
      else if IsStr(rt, "url") then
        var q := DefaultHeader(p, "content-type", Str("application/x-www-form-urlencoded"));
        if body.Undefined? then Effect(q, None)
        else
          match ser.formUrlEncode(body)
          case Failure(e) => Effect(q, Some(e))
          case Success(text) => Effect(q["body" := Str(text)], None)
      else if IsStr(rt, "text") then
        Effect(DefaultHeader(p, "content-type", Str("text/plain")), None)
      else if IsStr(rt, "form") then
        if Truthy(Header(p, "content-type")) then Effect(p, None)
        else
          match ser.getBoundary(body)
          case Failure(e) => Effect(p, Some(e))
          case Success(boundary) => Effect(WithHeader(p, "content-type", Str("multipart/form-data; boundary=" + boundary)), None)
      else
        Effect(p, Some(PlainError("requestType not supported (" + ToJSString(rt) + ")")))
  }

  /** The headers handleRequestTypes leaves: created when missing, and an existing
      `content-type` kept. */
  lemma RequestTypeHeaders(props: map<string, Value>, rt: Value, ser: Serializers)
    ensures var r := RequestTypeEffect(props, rt, ser);
            Truthy(rt) ==> Truthy(Get(r.props, "headers"))
    ensures var r := RequestTypeEffect(props, rt, ser);
            Truthy(rt) && !Truthy(Get(props, "headers")) ==> Get(r.props, "headers").Obj?
    ensures var r := RequestTypeEffect(props, rt, ser);
            Truthy(Header(props, "content-type")) ==> Header(r.props, "content-type") == Header(props, "content-type")
  {
    HeadersIsNotBody();
    if Truthy(rt) {
      var p := EnsureHeaders(props);
      assert Truthy(Header(props, "content-type")) ==> p == props;
      var body := Get(p, "body");
      var r := RequestTypeEffect(props, rt, ser).props;
      if IsStr(rt, "json") {
        var q := DefaultHeader(p, "content-type", Str(ContentTypeOf(rt)));
        assert r == if body.Undefined? then q else q["body" := ser.jsonStringify(body)];
        assert Get(r, "headers") == Get(q, "headers");
      } else if IsStr(rt, "url") {
        var q := DefaultHeader(p, "content-type", Str(ContentTypeOf(rt)));
        var text := ser.formUrlEncode(body);
        assert r == if body.Undefined? || text.Failure? then q else q["body" := Str(text.value)];
        assert Get(r, "headers") == Get(q, "headers");
      } else if IsStr(rt, "text") {
        assert r == DefaultHeader(p, "content-type", Str("text/plain"));
      } else if IsStr(rt, "form") && !Truthy(Header(p, "content-type")) && ser.getBoundary(body).Success? {
        assert r == WithHeader(p, "content-type", Str("multipart/form-data; boundary=" + ser.getBoundary(body).value));
      } else {
        assert r == p;
      }
    }
  }

  /** A request type other than `form` sets its own `content-type` when there is none and
      the headers are an object or missing. */
  lemma RequestTypeContentType(props: map<string, Value>, rt: Value, ser: Serializers)
    requires SupportedRequestType(rt) && !IsStr(rt, "form") && !Truthy(Header(props, "content-type"))
    requires !Truthy(Get(props, "headers")) || Get(props, "headers").Obj?
    ensures Header(RequestTypeEffect(props, rt, ser).props, "content-type") == Str(ContentTypeOf(rt))
  {
    HeadersIsNotBody();
    var p := EnsureHeaders(props);
    assert Get(p, "headers").Obj? && !Truthy(Header(p, "content-type"));
    var q := DefaultHeader(p, "content-type", Str(ContentTypeOf(rt)));
    assert Header(q, "content-type") == Str(ContentTypeOf(rt));
    if IsStr(rt, "json") || IsStr(rt, "url") {
      assert Get(q["body" := Get(p, "body")], "headers") == Get(q, "headers");
    }
  }

  /** The body handleRequestTypes leaves: serialised for `json` and `url` when defined,
      untouched otherwise. */
  lemma RequestTypeBody(props: map<string, Value>, rt: Value, ser: Serializers)
    ensures var r := RequestTypeEffect(props, rt, ser);
            Get(r.props, "body") != Get(props, "body") ==> (IsStr(rt, "json") || IsStr(rt, "url")) && !Get(props, "body").Undefined?
    ensures var r := RequestTypeEffect(props, rt, ser);
            IsStr(rt, "json") && !Get(props, "body").Undefined? ==> Get(r.props, "body") == ser.jsonStringify(Get(props, "body"))
    ensures var r := RequestTypeEffect(props, rt, ser);
            var body := Get(props, "body");
            IsStr(rt, "url") && !body.Undefined? ==>
              match ser.formUrlEncode(body)
              case Success(text) => Get(r.props, "body") == Str(text) && r.thrown.None?
              case Failure(e) => Get(r.props, "body") == body && r.thrown == Some(e)
  {
    HeadersIsNotBody();
  }

  /** handleResponseTypes (index.js:111-126) as a function of the options before the call. */
  function ResponseTypeEffect(props: map<string, Value>, rt: Value): (r: Effect)
    ensures !Truthy(rt) ==> r == Effect(props, None)
    ensures Truthy(rt) ==> Truthy(Get(r.props, "headers"))
    ensures Truthy(rt) && !Truthy(Get(props, "headers")) ==> Get(r.props, "headers").Obj?
    ensures forall k :: k in r.props ==> k in props || k == "headers"
    ensures forall k :: k in props ==> k in r.props && (k != "headers" ==> r.props[k] == props[k])
    ensures Truthy(Header(props, "accept")) ==> Header(r.props, "accept") == Header(props, "accept")
    ensures (forall name :: name != "accept" ==> Header(r.props, name) == Header(EnsureHeaders(props), name))
    ensures IsStr(rt, "text") ==> r == Effect(EnsureHeaders(props), None)
    ensures (r.thrown.Some? <==> Truthy(rt) && !SupportedResponseType(rt))
    ensures r.thrown.Some? ==> r == Effect(EnsureHeaders(props), Some(PlainError("responseType not supported (" + ToJSString(rt) + ")")))
    ensures ((IsStr(rt, "json") || IsStr(rt, "file")) && !Truthy(Header(props, "accept"))
             && (!Truthy(Get(props, "headers")) || Get(props, "headers").Obj?))
            ==> Header(r.props, "accept") == Str(if IsStr(rt, "json") then "application/json" else "application/octet-stream")
  {
    if !Truthy(rt) then Effect(props, None)
    else
      var p := EnsureHeaders(props);
      if IsStr(rt, "json") then Effect(DefaultHeader(p, "accept", Str("application/json")), None)
      else if IsStr(rt, "file") then Effect(DefaultHeader(p, "accept", Str("application/octet-stream")), None)
      else if IsStr(rt, "text") then Effect(p, None)
      else Effect(p, Some(PlainError("responseType not supported (" + ToJSString(rt) + ")")))
  }

  /** handleRequestTypes (index.js:82-109): edits `opts` in place; returns what it throws. */
  method HandleRequestTypes(opts: Options, requestType: Value, ser: Serializers) returns (thrown: Option<Thrown>)
    modifies opts
    ensures Effect(opts.props, thrown) == RequestTypeEffect(old(opts.props), requestType, ser)
  {
    if !Truthy(requestType) {
      return None;
    }
    if !Truthy(Get(opts.props, "headers")) {
      opts.props := opts.props["headers" := Obj([])];
    }
    if IsStr(requestType, "json") {
      if !Truthy(Header(opts.props, "content-type")) {
        opts.props := WithHeader(opts.props, "content-type", Str("application/json"));
      }
      var body := Get(opts.props, "body");
      if !body.Undefined? {
        opts.props := opts.props["body" := ser.jsonStringify(body)];
      }
      return None;
    }
    if IsStr(requestType, "url") {
      if !Truthy(Header(opts.props, "content-type")) {
        opts.props := WithHeader(opts.props, "content-type", Str("application/x-www-form-urlencoded"));
      }
      var body := Get(opts.props, "body");
      if !body.Undefined? {
        var text := ser.formUrlEncode(body);
        if text.Failure? {
          return Some(text.error);
        }
        opts.props := opts.props["body" := Str(text.value)];
      }
      return None;
    }
    if IsStr(requestType, "text") {
      if !Truthy(Header(opts.props, "content-type")) {
        opts.props := WithHeader(opts.props, "content-type", Str("text/plain"));
      }
      return None;
    }
    if IsStr(requestType, "form") {
      if !Truthy(Header(opts.props, "content-type")) {
        var boundary := ser.getBoundary(Get(opts.props, "body"));
        if boundary.Failure? {
          return Some(boundary.error);
        }
        opts.props := WithHeader(opts.props, "content-type", Str("multipart/form-data; boundary=" + boundary.value));
      }
      return None;
    }
    return Some(PlainError("requestType not supported (" + ToJSString(requestType) + ")"));
  }

  /** handleResponseTypes (index.js:111-126): edits `opts` in place; returns what it throws. */
  method HandleResponseTypes(opts: Options, responseType: Value) returns (thrown: Option<Thrown>)
    modifies opts
    ensures Effect(opts.props, thrown) == ResponseTypeEffect(old(opts.props), responseType)
  {
    if !Truthy(responseType) {
      return None;
    }
    if !Truthy(Get(opts.props, "headers")) {
      opts.props := opts.props["headers" := Obj([])];
    }
    if IsStr(responseType, "json") {
      if !Truthy(Header(opts.props, "accept")) {
        opts.props := WithHeader(opts.props, "accept", Str("application/json"));
      }
      return None;
    } else if IsStr(responseType, "file") {
      if !Truthy(Header(opts.props, "accept")) {
        opts.props := WithHeader(opts.props, "accept", Str("application/octet-stream"));
      }
      return None;
    } else if IsStr(responseType, "text") {
      return None;
    }
    return Some(PlainError("responseType not supported (" + ToJSString(responseType) + ")"));
  }

  // ---------------------------------------------------------------------------------------
  // Timeout
  // ---------------------------------------------------------------------------------------

  /** handleTimeout (index.js:128-132): the duration of the timeout source, or none. */
  function TimeoutFor(timeout: Value): (r: Option<int>)
    ensures r.Some? <==> timeout.Num? && timeout.n != 0
    ensures r.Some? ==> r.value == timeout.n
  {
    if !timeout.Num? || timeout.n == 0 then None else Some(timeout.n)
  }

  // ---------------------------------------------------------------------------------------
  // Status validation and its error
  // ---------------------------------------------------------------------------------------

  /** The error code customError (index.js:151-159) evidently means: axios's convention of
      ERR_BAD_REQUEST for every 4xx and ERR_BAD_RESPONSE for every 5xx status. */
  function StatusCode(status: int): (code: Value)
    ensures code == Str("ERR_BAD_REQUEST") <==> 400 <= status <= 499
    ensures code == Str("ERR_BAD_RESPONSE") <==> 500 <= status <= 599
    ensures code == Undefined <==> !(400 <= status <= 599)
  {
    if 400 <= status < 500 then Str("ERR_BAD_REQUEST")
    else if 500 <= status < 600 then Str("ERR_BAD_RESPONSE")
    else Undefined
  }

  /** The code as index.js:151 and 155 write it: the upper bounds 499 and 599 are exclusive. */
  function StatusCodeAsWritten(status: int): (code: Value)
    ensures code == Str("ERR_BAD_REQUEST") <==> 400 <= status < 499
    ensures code == Str("ERR_BAD_RESPONSE") <==> 500 <= status < 599
    ensures code == Undefined <==> !(400 <= status < 499 || 500 <= status < 599)
  {
    if status >= 400 && status < 499 then Str("ERR_BAD_REQUEST")
    else if status >= 500 && status < 599 then Str("ERR_BAD_RESPONSE")
    else Undefined
  }

  /** The bounds as written leave 499 and 599 without a code, unlike every other 4xx and 5xx. */
  lemma StatusCodeAsWrittenMisses()
    ensures StatusCodeAsWritten(499) == Undefined && StatusCode(499) == Str("ERR_BAD_REQUEST")
    ensures StatusCodeAsWritten(599) == Undefined && StatusCode(599) == Str("ERR_BAD_RESPONSE")
    ensures forall s :: s != 499 && s != 599 ==> StatusCodeAsWritten(s) == StatusCode(s)
  {
  }

  function FailureMessage(status: int): string {
    "Request failed with status code " + IntToString(status)
  }

  /** customError (index.js:148-160): the LikeFetchError for a response that failed validation,
      with the code as written (so 499 and 599 carry none). */
  function CustomError(status: int, response: Response): (e: Thrown)
    ensures e.name == "LikeFetchError" && e.message == FailureMessage(status)
    ensures e.code == StatusCodeAsWritten(status) && e.response == Some(response) && e.body == Undefined
  {
    Thrown("LikeFetchError", FailureMessage(status), StatusCodeAsWritten(status), Some(response), Undefined)
  }

  /** customError builds a fresh LikeFetchError object with exactly these fields. */
  method NewCustomError(status: int, response: Response) returns (e: LikeFetchError)
    ensures fresh(e) && e.AsThrown() == CustomError(status, response)
  {
    e := new LikeFetchError(FailureMessage(status), StatusCodeAsWritten(status), Some(response));
  }

  /** handleValidateStatus (index.js:134-146): none when the response passes the rule,
      otherwise what is thrown. */
  function ValidateStatus(response: Response, rule: Value): (r: Option<Thrown>)
    ensures !Truthy(rule) ==> r.None?
    ensures Truthy(rule) && rule.Num? ==> (r.None? <==> rule.n == response.status)
    ensures rule.Fn? ==> (r.None? <==> rule.onStatus(response.status))
    ensures IsStr(rule, "ok") ==> (r.None? <==> response.Ok())
    ensures r.Some? && (rule.Num? || rule.Fn? || IsStr(rule, "ok")) ==> r.value == CustomError(response.status, response)
    ensures Truthy(rule) && !(rule.Num? || rule.Fn? || IsStr(rule, "ok")) ==>
              r == Some(PlainError("validateStatus not supported (" + ToJSString(rule) + ")"))
  {
    if !Truthy(rule) then None
    else if rule.Num? then
      (if rule.n != response.status then Some(CustomError(response.status, response)) else None)
    else if rule.Fn? then
      (if !rule.onStatus(response.status) then Some(CustomError(response.status, response)) else None)
    else if IsStr(rule, "ok") then
      (if !response.Ok() then Some(CustomError(response.status, response)) else None)
    else Some(PlainError("validateStatus not supported (" + ToJSString(rule) + ")"))
  }
}
