/** lib/create.js: an api function with a base URL and default options bound in. */
module Create {
  import opened Js

  /** What `create` binds: the base URL and the default options. */
  datatype Defaults = Defaults(defaultUrl: Value, defaultOptions: Value)

  /** `x && typeof x === 'object'`: a non-null object or array. */
  predicate IsObject(v: Value) { v.Obj? || v.Arr? }

  /** create (lib/create.js:1-5). `defaultOptions = {}` applies when the argument is undefined;
      an object passed as the first argument is taken as the default options instead. */
  function CreateApi(defaultUrl: Value, defaultOptions: Value): (d: Defaults)
    ensures IsObject(defaultUrl) ==> d.defaultUrl == Null && d.defaultOptions == defaultUrl
    ensures !IsObject(defaultUrl) ==> d.defaultUrl == defaultUrl
    ensures !IsObject(defaultUrl) && !defaultOptions.Undefined? ==> d.defaultOptions == defaultOptions
    ensures !IsObject(defaultUrl) && defaultOptions.Undefined? ==> d.defaultOptions == Obj([])
    ensures !IsObject(d.defaultUrl)
  {
    var options := if defaultOptions.Undefined? then Obj([]) else defaultOptions;
    if Truthy(defaultUrl) && IsObject(defaultUrl) then Defaults(Null, defaultUrl)
    else Defaults(defaultUrl, options)
  }

  /** The URL api forwards (lib/create.js:8): `defaultUrl + url` when there is a base URL,
      which for a string `url` is the string concatenation of the base's ToString. */
  function ForwardedUrl(d: Defaults, url: string): (uri: string)
    ensures Truthy(d.defaultUrl) ==> uri == ToJSString(d.defaultUrl) + url
    ensures !Truthy(d.defaultUrl) ==> uri == url
    ensures d.defaultUrl.Str? ==> uri == d.defaultUrl.s + url
    ensures |url| <= |uri| && uri[|uri| - |url|..] == url
  {
    if Truthy(d.defaultUrl) then ToJSString(d.defaultUrl) + url else url
  }

  /** `Object.assign({}, defaultOptions, options)` (lib/create.js:9): a fresh object with every
      own enumerable key of both; on a shared key the call-site options win. */
  function MergedOptions(d: Defaults, options: Value): (opts: map<string, Value>)
    ensures forall k :: k in opts <==> k in OwnProps(d.defaultOptions) || k in OwnProps(options)
    ensures forall k :: k in OwnProps(options) ==> opts[k] == OwnProps(options)[k]
    ensures forall k :: k in OwnProps(d.defaultOptions) && k !in OwnProps(options) ==> opts[k] == OwnProps(d.defaultOptions)[k]
  {
    OwnProps(d.defaultOptions) + OwnProps(options)
  }

  /** api (lib/create.js:7-12): one call of `fetch`, whose result it returns. `options = {}`
      changes nothing here, since an undefined source adds no keys. */
  function Api<R>(fetch: (string, map<string, Value>) -> R, d: Defaults, url: string, options: Value): (r: R)
    ensures r == fetch(ForwardedUrl(d, url), MergedOptions(d, options))
  {
    var uri := ForwardedUrl(d, url);
    var opts := MergedOptions(d, options);
    fetch(uri, opts)
  }

  /** An object bound as the first argument supplies the defaults and no prefix is added. */
  lemma ObjectAsDefaults(entries: seq<(string, Value)>, ignored: Value, url: string, options: Value)
    ensures var d := CreateApi(Obj(entries), ignored);
            ForwardedUrl(d, url) == url && MergedOptions(d, options) == EntriesToMap(entries) + OwnProps(options)
  {
  }

  /** A key of the call-site object (its last occurrence, as in an object literal) keeps its
      call-site value in the merge, whatever the defaults hold. */
  lemma CallSiteWins(d: Defaults, entries: seq<(string, Value)>, i: nat)
    requires i < |entries| && forall j :: i < j < |entries| ==> entries[j].0 != entries[i].0
    ensures entries[i].0 in MergedOptions(d, Obj(entries))
    ensures MergedOptions(d, Obj(entries))[entries[i].0] == entries[i].1
  {
    EntriesToMapLast(entries, i);
  }

  /** `create('https://example.com', { method: 'POST' })` then `api('/x', { body: 'b' })`. */
  lemma BaseUrlExample(fetch: (string, map<string, Value>) -> bool)
    ensures var d := CreateApi(Str("https://example.com"), Obj([("method", Str("POST"))]));
            Api(fetch, d, "/x", Obj([("body", Str("b"))]))
              == fetch("https://example.com/x", map["method" := Str("POST"), "body" := Str("b")])
  {
    var d := CreateApi(Str("https://example.com"), Obj([("method", Str("POST"))]));
    assert ForwardedUrl(d, "/x") == "https://example.com/x";
    assert OwnProps(d.defaultOptions) == map["method" := Str("POST")] by {
      assert [("method", Str("POST"))][..0] == [];
    }
    assert OwnProps(Obj([("body", Str("b"))])) == map["body" := Str("b")] by {
      assert [("body", Str("b"))][..0] == [];
    }
    assert MergedOptions(d, Obj([("body", Str("b"))])) == map["method" := Str("POST")] + map["body" := Str("b")];
    assert map["method" := Str("POST")] + map["body" := Str("b")] == map["method" := Str("POST"), "body" := Str("b")];
  }
}
