/** index.js:10-28: fetch() prepares the request once, then runs the attempt loop. */
module Fetch {
  import opened Js
  import opened FetchOptions
  import opened SearchParams
  import opened QueryString
  import opened Attempts

  /** The options like-fetch consumes itself and never hands to the transport. */
  const LibraryKeys: set<string> := {"query", "retry", "timeout", "validateStatus", "requestType", "responseType", "signal"}

  /** What fetch() has ready before the first attempt: the URL with its query, the options
      for the transport, the retry options for the backoff generator, and what the loop reads. */
  datatype Request = Request(url: string, opts: map<string, Value>, retry: Value, cfg: Config)

  /** The header editing never touches a library key. */
  lemma EditedKeysAreNotLibraryKeys()
    ensures "headers" !in LibraryKeys && "body" !in LibraryKeys
  {
    assert "headers"[0] == 'h' && "body"[0] == 'b';
  }

  /** The library's option names are pairwise different. */
  lemma LibraryKeysDistinct()
    ensures "query" != "retry" && "query" != "timeout" && "query" != "validateStatus" && "query" != "requestType"
            && "query" != "responseType" && "query" != "signal"
    ensures "retry" != "timeout" && "retry" != "validateStatus" && "retry" != "requestType" && "retry" != "responseType"
            && "retry" != "signal"
    ensures "timeout" != "validateStatus" && "timeout" != "requestType" && "timeout" != "responseType" && "timeout" != "signal"
    ensures "validateStatus" != "requestType" && "validateStatus" != "responseType" && "validateStatus" != "signal"
    ensures "requestType" != "responseType" && "requestType" != "signal" && "responseType" != "signal"
  {
    assert "retry"[2] == 't' && "requestType"[2] == 'q' && "responseType"[2] == 's';
  }

  /** handleRequestTypes then handleResponseTypes (index.js:20-21) on the stripped options:
      the first throw stops the edit; only `headers` and `body` are ever added or replaced. */
  function EditedOptions(base: map<string, Value>, requestType: Value, responseType: Value, ser: Serializers): (e: Effect)
    ensures RequestTypeEffect(base, requestType, ser).thrown.Some? ==> e == RequestTypeEffect(base, requestType, ser)
    ensures forall k :: k in e.props ==> k in base || k == "headers" || k == "body"
    ensures forall k :: k in base && k != "headers" && k != "body" ==> k in e.props && e.props[k] == base[k]
    ensures !Truthy(requestType) && !Truthy(responseType) ==> e == Effect(base, None)
  {
    var req := RequestTypeEffect(base, requestType, ser);
    if req.thrown.Some? then req else ResponseTypeEffect(req.props, responseType)
  }

  /** The URL with its query (index.js:23, handleURL): origin, path and fragment are kept; the
      search part between them is empty exactly when there are no parameters, and otherwise a
      `?` followed by text that decodes to the URL's own parameters, then the query's. */
  function UrlWithQuery(u: ParsedUrl, query: Value): (url: string)
    ensures |u.origin + u.pathname| + |u.hash| <= |url|
    ensures var head := u.origin + u.pathname;
            var search := url[|head|..|url| - |u.hash|];
            url[..|head|] == head && url[|url| - |u.hash|..] == u.hash
            && (search == "" <==> u.searchParams == [] && QueryPairs(query) == [])
            && (search != "" ==>
                  search[0] == '?' && ParseQuery(search[1..]) == Some(Expected(StringPairs(u.searchParams)) + Expected(QueryPairs(query))))
  {
    var head, search := u.origin + u.pathname, SearchPart(StringPairs(u.searchParams) + QueryPairs(query));
    ExistingParamsFirst(u, query);
    var url := head + search + u.hash;
    assert url[..|head|] == head && url[|url| - |u.hash|..] == u.hash && url[|head|..|url| - |u.hash|] == search;
    url
  }

  /** The preparation (index.js:11-24) as a function of the arguments, removing the library's
      options in the order fetch() does; a Failure is what fetch() throws synchronously,
      before any promise exists. */
  function Prepared(u: ParsedUrl, options: Value, ser: Serializers): (r: Result<Request, Thrown>)
    ensures var props := OwnProps(options);
            var e := EditedOptions(props - LibraryKeys, Get(props, "requestType"), Get(props, "responseType"), ser);
            (r.Failure? <==> e.thrown.Some?) && (r.Failure? ==> r.error == e.thrown.value)
            && (r.Success? ==> r.value.opts == e.props)
    ensures var props := OwnProps(options);
            r.Success? ==>
              r.value.retry == Get(props, "retry")
              && r.value.cfg == Config(Get(props, "validateStatus"), Get(props, "responseType"), Get(props, "signal"), Get(props, "timeout"))
              && r.value.url == UrlWithQuery(u, Get(props, "query"))
  {
    var p0 := OwnProps(options);
    RemovedInTurn(p0);
    var query, p1 := Get(p0, "query"), p0 - {"query"};
    var retryOptions, p2 := Get(p1, "retry"), p1 - {"retry"};
    var timeout, p3 := Get(p2, "timeout"), p2 - {"timeout"};
    var validateStatus, p4 := Get(p3, "validateStatus"), p3 - {"validateStatus"};
    var requestType, p5 := Get(p4, "requestType"), p4 - {"requestType"};
    var responseType, p6 := Get(p5, "responseType"), p5 - {"responseType"};
    var signal, p7 := Get(p6, "signal"), p6 - {"signal"};
    var e := EditedOptions(p7, requestType, responseType, ser);
    if e.thrown.Some? then Failure(e.thrown.value)
    else Success(Request(UrlWithQuery(u, query), e.props, retryOptions, Config(validateStatus, responseType, signal, timeout)))
  }

  /** index.js:11-23 as written: copy the options, remove the library's own, edit the headers
      and body in place, and build the URL. */
  method Prepare(u: ParsedUrl, options: Value, ser: Serializers) returns (r: Result<Request, Thrown>)
    ensures r == Prepared(u, options, ser)
  {
    var opts := new Options(OwnProps(options));
    var query := opts.Remove("query");
    var retryOptions := opts.Remove("retry");
    var timeout := opts.Remove("timeout");
    var validateStatus := opts.Remove("validateStatus");
    var requestType := opts.Remove("requestType");
    var responseType := opts.Remove("responseType");
    var signal := opts.Remove("signal");

    ghost var base := opts.props;
    var thrown := HandleRequestTypes(opts, requestType, ser);
    if thrown.Some? {
      return Failure(thrown.value);
    }
    thrown := HandleResponseTypes(opts, responseType);
    assert Effect(opts.props, thrown) == EditedOptions(base, requestType, responseType, ser);
    if thrown.Some? {
      return Failure(thrown.value);
    }
    var urlWithQuery := HandleURL(u, query);
    return Success(Request(urlWithQuery, opts.props, retryOptions, Config(validateStatus, responseType, signal, timeout)));
  }

  /** Removing the library keys one by one, as fetch() does, removes exactly LibraryKeys, and
      each removal reads the value the caller passed. */
  lemma RemovedInTurn(p: map<string, Value>)
    ensures p - {"query"} - {"retry"} - {"timeout"} - {"validateStatus"} - {"requestType"} - {"responseType"} - {"signal"}
            == p - LibraryKeys
    ensures Get(p - {"query"}, "retry") == Get(p, "retry")
    ensures Get(p - {"query"} - {"retry"}, "timeout") == Get(p, "timeout")
    ensures Get(p - {"query"} - {"retry"} - {"timeout"}, "validateStatus") == Get(p, "validateStatus")
    ensures Get(p - {"query"} - {"retry"} - {"timeout"} - {"validateStatus"}, "requestType") == Get(p, "requestType")
    ensures Get(p - {"query"} - {"retry"} - {"timeout"} - {"validateStatus"} - {"requestType"}, "responseType")
            == Get(p, "responseType")
    ensures Get(p - {"query"} - {"retry"} - {"timeout"} - {"validateStatus"} - {"requestType"} - {"responseType"}, "signal")
            == Get(p, "signal")
  {
    LibraryKeysDistinct();
  }

  /** None of the library's options reaches the transport, and every other option except the
      edited headers and body passes unchanged. */
  lemma LibraryKeysStripped(u: ParsedUrl, options: Value, ser: Serializers)
    ensures var r := Prepared(u, options, ser);
            r.Success? ==> forall k :: k in LibraryKeys ==> k !in r.value.opts
    ensures var r := Prepared(u, options, ser);
            r.Success? ==>
              forall k :: k in OwnProps(options) && k !in LibraryKeys && k != "headers" && k != "body" ==>
                k in r.value.opts && r.value.opts[k] == OwnProps(options)[k]
  {
    var props := OwnProps(options);
    var base := props - LibraryKeys;
    var e := EditedOptions(base, Get(props, "requestType"), Get(props, "responseType"), ser);
    EditedKeysAreNotLibraryKeys();
    assert forall k :: k in LibraryKeys ==> k !in base && k != "headers" && k != "body";
    assert forall k :: k in props && k !in LibraryKeys ==> k in base && base[k] == props[k];
  }

  /** fetch (index.js:10-79), followed to the end of its loop over the given rounds: either it
      throws while preparing, or it returns a promise with a new controller whose loop settles
      as Settle says, with resolve or reject called at most once. */
  method Fetch(u: ParsedUrl, options: Value, ser: Serializers, rounds: seq<Round>) returns (r: Result<FetchPromise, Thrown>)
    ensures r.Failure? <==> Prepared(u, options, ser).Failure?
    ensures r.Failure? ==> r.error == Prepared(u, options, ser).error
    ensures r.Success? ==>
              var cfg := Prepared(u, options, ser).value.cfg;
              fresh(r.value)
              && r.value.settlement == Settle(cfg, rounds).settlement
              && r.value.attempts == Settle(cfg, rounds).attempts
              && r.value.calls == (if r.value.settlement.Pending? then 0 else 1)
              && (forall i, j :: 0 <= i < j < |r.value.controllers| ==> r.value.controllers[i] != r.value.controllers[j])
  {
    var prepared := Prepare(u, options, ser);
    if prepared.Failure? {
      return Failure(prepared.error);
    }
    var promise := new FetchPromise();
    promise.Run(prepared.value.cfg, rounds);
    return Success(promise);
  }

  // ---------------------------------------------------------------------------------------
  // Examples of the preparation
  // ---------------------------------------------------------------------------------------

  /** With no options at all the transport gets no options and the URL is rebuilt from its parts. */
  lemma NoOptions(u: ParsedUrl, ser: Serializers)
    ensures Prepared(u, Undefined, ser) ==
              Success(Request(u.origin + u.pathname + SearchPart(StringPairs(u.searchParams)) + u.hash, map[], Undefined,
                              Config(Undefined, Undefined, Undefined, Undefined)))
  {
    assert StringPairs(u.searchParams) + [] == StringPairs(u.searchParams);
  }

  /** An unsupported request type makes fetch() throw before any attempt, naming the type. */
  lemma UnsupportedRequestType(u: ParsedUrl, options: Value, ser: Serializers)
    requires Truthy(Get(OwnProps(options), "requestType")) && !SupportedRequestType(Get(OwnProps(options), "requestType"))
    ensures Prepared(u, options, ser)
            == Failure(PlainError("requestType not supported (" + ToJSString(Get(OwnProps(options), "requestType")) + ")"))
  {
  }
}
