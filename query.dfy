/** index.js:169-208: flattening a query object into the search parameters and assembling
    the request URL. */
module QueryString {
  import opened Js
  import opened SearchParams

  // ---------------------------------------------------------------------------------------
  // What paramsAppend and objectToSearchParams append
  // ---------------------------------------------------------------------------------------

  /** The pairs paramsAppend appends for one key and value: nothing for undefined and null,
      each item of an array under `key + '[]'`, in order, and the value itself otherwise.
      Every pair is a leaf stored under the key with `[]` suffixes, one per level of array
      nesting. */
  function Flattened(key: string, v: Value): (r: seq<(string, Value)>)
    ensures Shaped(key, r)
    decreases v, if v.Arr? then |v.items| + 1 else 0
  {
    if v.Undefined? || v.Null? then []
    else if v.Arr? then
      var r := FlattenedItems(key + "[]", v, |v.items|);
      ShapedStep(key, r);
      r
    else
      BracketedSelf(key);
      [(key, v)]
  }

  /** The pairs appended for the first `n` items of an array, each under `key`. */
  function FlattenedItems(key: string, arr: Value, n: nat): (r: seq<(string, Value)>)
    requires arr.Arr? && n <= |arr.items|
    ensures Shaped(key, r)
    decreases arr, n
  {
    if n == 0 then []
    else
      var a: seq<(string, Value)>, b: seq<(string, Value)> := FlattenedItems(key, arr, n - 1), Flattened(key, arr.items[n - 1]);
      ShapedConcat(key, a, b);
      a + b
  }

  /** The pairs appended for the first `n` entries of a `for...in` enumeration. */
  function EntryPairs(entries: seq<(string, Value)>, n: nat): seq<(string, Value)>
    requires n <= |entries|
  {
    if n == 0 then [] else EntryPairs(entries, n - 1) + Flattened(entries[n - 1].0, entries[n - 1].1)
  }

  /** The pairs objectToSearchParams appends for a query: none when it is falsy, otherwise
      those of each enumerable key in enumeration order. Only leaves are appended, and an
      object whose values are all leaves gives exactly its own entries. */
  function QueryPairs(query: Value): (r: seq<(string, Value)>)
    ensures !Truthy(query) ==> r == []
    ensures forall i :: 0 <= i < |r| ==> Leaf(r[i].1)
    ensures query.Obj? && (forall j :: 0 <= j < |query.entries| ==> Leaf(query.entries[j].1)) ==> r == query.entries
  {
    if !Truthy(query) then []
    else
      var es := OwnEntries(query);
      EntryPairsLeaves(es, |es|);
      if query.Obj? && (forall j :: 0 <= j < |es| ==> Leaf(es[j].1)) then
        EntryPairsFlat(es, |es|);
        assert es[..|es|] == es;
        EntryPairs(es, |es|)
      else EntryPairs(es, |es|)
  }

  lemma {:induction false} EntryPairsLeaves(entries: seq<(string, Value)>, n: nat)
    requires n <= |entries|
    ensures forall i :: 0 <= i < |EntryPairs(entries, n)| ==> Leaf(EntryPairs(entries, n)[i].1)
  {
    if n > 0 {
      EntryPairsLeaves(entries, n - 1);
      var a: seq<(string, Value)>, b: seq<(string, Value)> := EntryPairs(entries, n - 1), Flattened(entries[n - 1].0, entries[n - 1].1);
      forall i | 0 <= i < |a + b| ensures Leaf((a + b)[i].1) {
        if i >= |a| { assert (a + b)[i] == b[i - |a|]; }
      }
    }
  }

  /** Entries whose values are leaves are appended as they are. */
  lemma {:induction false} EntryPairsFlat(entries: seq<(string, Value)>, n: nat)
    requires n <= |entries| && forall j :: 0 <= j < |entries| ==> Leaf(entries[j].1)
    ensures EntryPairs(entries, n) == entries[..n]
  {
    if n > 0 {
      EntryPairsFlat(entries, n - 1);
      assert Flattened(entries[n - 1].0, entries[n - 1].1) == [entries[n - 1]];
      assert entries[..n] == entries[..n - 1] + [entries[n - 1]];
    }
  }

  /** The search part handleURL writes: empty for no pairs, else `?` and the serialisation. */
  function SearchPart(ps: seq<(string, Value)>): (s: string)
    ensures s == "" <==> ps == []
    ensures ps != [] ==> s[0] == '?' && ParseQuery(s[1..]) == Some(Expected(ps))
  {
    if |ps| > 0 then "?" + Serialize(ps) else ""
  }

  // ---------------------------------------------------------------------------------------
  // The imperative code
  // ---------------------------------------------------------------------------------------

  /** paramsAppend (index.js:196-208). */
  method ParamsAppend(params: FetchURLSearchParams, key: string, value: Value)
    modifies params
    ensures params.params == old(params.params) + Flattened(key, value)
    decreases value
  {
    if value.Undefined? || value.Null? {
      return;
    }
    if value.Arr? {
      var i := 0;
      while i < |value.items|
        invariant 0 <= i <= |value.items|
        invariant params.params == old(params.params) + FlattenedItems(key + "[]", value, i)
      {
        ParamsAppend(params, key + "[]", value.items[i]);
        i := i + 1;
      }
      return;
    }
    params.Append(key, value);
  }

  /** objectToSearchParams (index.js:186-194): appends to `params` and returns it. */
  method ObjectToSearchParams(query: Value, params: FetchURLSearchParams) returns (r: FetchURLSearchParams)
    modifies params
    ensures r == params
    ensures params.params == old(params.params) + QueryPairs(query)
  {
    if !Truthy(query) {
      return params;
    }
    var entries := OwnEntries(query);
    var i := 0;
    while i < |entries|
      invariant 0 <= i <= |entries|
      invariant params.params == old(params.params) + EntryPairs(entries, i)
    {
      ParamsAppend(params, entries[i].0, entries[i].1);
      i := i + 1;
    }
    return params;
  }

  /** A URL as `new URL(url)` splits it (the parser itself is not modelled). */
  datatype ParsedUrl = ParsedUrl(origin: string, pathname: string, searchParams: seq<(string, string)>, hash: string)

  function StringPairs(ps: seq<(string, string)>): (r: seq<(string, Value)>)
    ensures |r| == |ps| && forall i :: 0 <= i < |ps| ==> r[i] == (ps[i].0, Str(ps[i].1))
  {
    if ps == [] then [] else [(ps[0].0, Str(ps[0].1))] + StringPairs(ps[1..])
  }

  /** handleURL (index.js:169-184): the search string is rebuilt from the URL's own parameters
      followed by those of the query; the origin, path and fragment are kept. */
  method HandleURL(u: ParsedUrl, query: Value) returns (url: string)
    ensures url == u.origin + u.pathname + SearchPart(StringPairs(u.searchParams) + QueryPairs(query)) + u.hash
  {
    var searchParams := new FetchURLSearchParams();
    if |u.searchParams| > 0 {
      var i := 0;
      while i < |u.searchParams|
        invariant 0 <= i <= |u.searchParams|
        invariant searchParams.params == StringPairs(u.searchParams[..i])
      {
        assert StringPairs(u.searchParams[..i + 1]) == StringPairs(u.searchParams[..i]) + [(u.searchParams[i].0, Str(u.searchParams[i].1))];
        searchParams.Append(u.searchParams[i].0, Str(u.searchParams[i].1));
        i := i + 1;
      }
      assert u.searchParams[..i] == u.searchParams;
    }
    var params := ObjectToSearchParams(query, searchParams);
    var search := if params.Size() > 0 then "?" + params.ToString() else "";
    return u.origin + u.pathname + search + u.hash;
  }

  // ---------------------------------------------------------------------------------------
  // Lemmas
  // ---------------------------------------------------------------------------------------

  /** `s` is `[]` repeated: the suffixes paramsAppend puts on a key. */
  predicate AllBrackets(s: string) {
    |s| % 2 == 0 && forall i :: 0 <= i < |s| ==> s[i] == (if i % 2 == 0 then '[' else ']')
  }

  predicate BracketedKey(key: string, k: string) {
    key <= k && AllBrackets(k[|key|..])
  }

  /** A leaf paramsAppend stores: neither nullish nor an array. */
  predicate Leaf(v: Value) { !(v.Undefined? || v.Null? || v.Arr?) }

  /** Every pair is a leaf stored under `key` followed by `[]` suffixes. */
  predicate Shaped(key: string, ps: seq<(string, Value)>) {
    forall i :: 0 <= i < |ps| ==> BracketedKey(key, ps[i].0) && Leaf(ps[i].1)
  }

  lemma ShapedStep(key: string, ps: seq<(string, Value)>)
    requires Shaped(key + "[]", ps)
    ensures Shaped(key, ps)
  {
    forall i | 0 <= i < |ps| ensures BracketedKey(key, ps[i].0) {
      BracketedStep(key, ps[i].0);
    }
  }

  lemma ShapedConcat(key: string, a: seq<(string, Value)>, b: seq<(string, Value)>)
    requires Shaped(key, a) && Shaped(key, b)
    ensures Shaped(key, a + b)
  {
    forall i | 0 <= i < |a + b| ensures BracketedKey(key, (a + b)[i].0) && Leaf((a + b)[i].1) {
      if i >= |a| { assert (a + b)[i] == b[i - |a|]; }
    }
  }

  lemma BracketedStep(key: string, k: string)
    requires BracketedKey(key + "[]", k)
    ensures BracketedKey(key, k)
  {
    var s, t := k[|key|..], k[|key| + 2..];
    assert key + "[]" <= k;
    assert s == "[]" + t;
    forall i | 0 <= i < |s| ensures s[i] == (if i % 2 == 0 then '[' else ']') {
      if i >= 2 { assert s[i] == t[i - 2]; }
    }
  }

  lemma BracketedSelf(key: string)
    ensures BracketedKey(key, key)
  {
    assert key[|key|..] == "";
  }

  lemma {:induction false} FlattenedItemsPrefix(key: string, a: Value, b: Value, n: nat)
    requires a.Arr? && b.Arr? && n <= |a.items| && n <= |b.items| && a.items[..n] == b.items[..n]
    ensures FlattenedItems(key, a, n) == FlattenedItems(key, b, n)
  {
    if n > 0 {
      assert a.items[n - 1] == a.items[..n][n - 1];
      assert a.items[..n - 1] == a.items[..n][..n - 1];
      assert b.items[..n - 1] == b.items[..n][..n - 1];
      FlattenedItemsPrefix(key, a, b, n - 1);
    }
  }

  lemma {:induction false} FlattenedItemsConcat(key: string, xs: seq<Value>, ys: seq<Value>, n: nat)
    requires n <= |ys|
    ensures FlattenedItems(key, Arr(xs + ys), |xs| + n) == FlattenedItems(key, Arr(xs), |xs|) + FlattenedItems(key, Arr(ys), n)
  {
    if n == 0 {
      FlattenedItemsPrefix(key, Arr(xs + ys), Arr(xs), |xs|);
    } else {
      FlattenedItemsConcat(key, xs, ys, n - 1);
      var last := Flattened(key, ys[n - 1]);
      assert (xs + ys)[|xs| + n - 1] == ys[n - 1];
      assert FlattenedItems(key, Arr(xs + ys), |xs| + n) == FlattenedItems(key, Arr(xs + ys), |xs| + n - 1) + last;
      assert FlattenedItems(key, Arr(ys), n) == FlattenedItems(key, Arr(ys), n - 1) + last;
    }
  }

  /** An array's items are appended in order: the pairs of `a + b` are those of `a`, then those of `b`. */
  lemma ArrayOrder(key: string, xs: seq<Value>, ys: seq<Value>)
    ensures Flattened(key, Arr(xs + ys)) == Flattened(key, Arr(xs)) + Flattened(key, Arr(ys))
  {
    FlattenedItemsConcat(key + "[]", xs, ys, |ys|);
  }

  /** A nested array nests the brackets: `{a: [['x']]}` gives the key `a[][]`. */
  lemma NestedArray(key: string, x: Value)
    requires Leaf(x)
    ensures Flattened(key, Arr([Arr([x])])) == [(key + "[][]", x)]
  {
    var k2 := key + "[]" + "[]";
    assert Flattened(k2, x) == [(k2, x)];
    assert FlattenedItems(k2, Arr([x]), 1) == FlattenedItems(k2, Arr([x]), 0) + Flattened(k2, x);
    assert Flattened(key + "[]", Arr([x])) == [(k2, x)];
    assert FlattenedItems(key + "[]", Arr([Arr([x])]), 1) == [] + Flattened(key + "[]", Arr([x]));
    assert k2 == key + "[][]";
  }

  /** `{ items: ['a', 'b'], skip: undefined, none: null }` gives two `items[]` pairs. */
  lemma QueryExample()
    ensures QueryPairs(Obj([("items", Arr([Str("a"), Str("b")])), ("skip", Undefined), ("none", Null)]))
            == [("items[]", Str("a")), ("items[]", Str("b"))]
  {
    var query := Obj([("items", Arr([Str("a"), Str("b")])), ("skip", Undefined), ("none", Null)]);
    var items := Arr([Str("a"), Str("b")]);
    assert "items" + "[]" == "items[]";
    assert FlattenedItems("items[]", items, 1) == [("items[]", Str("a"))];
    assert FlattenedItems("items[]", items, 2) == FlattenedItems("items[]", items, 1) + Flattened("items[]", Str("b"));
    assert Flattened("items", items) == [("items[]", Str("a")), ("items[]", Str("b"))];
    var es := OwnEntries(query);
    assert EntryPairs(es, 1) == Flattened("items", items);
    assert EntryPairs(es, 3) == EntryPairs(es, 1);
  }

  /** Two pairs whose keys and values need no escaping are written `k=a&k=b`, the key
      repeated: the pairs above are written `items[]=a&items[]=b`. */
  lemma PlainPairs(k: string, a: string, b: string)
    requires forall i :: 0 <= i < |k| ==> PlainKeyChar(k[i])
    requires forall i :: 0 <= i < |a| ==> PlainKeyChar(a[i]) && a[i] != '[' && a[i] != ']'
    requires forall i :: 0 <= i < |b| ==> PlainKeyChar(b[i]) && b[i] != '[' && b[i] != ']'
    ensures Serialize([(k, Str(a)), (k, Str(b))]) == k + "=" + a + "&" + k + "=" + b
  {
    PlainMapping(k, a);
    PlainMapping(k, b);
    SerializeTwo((k, Str(a)), (k, Str(b)));
  }

  lemma SerializeTwo(p: (string, Value), q: (string, Value))
    ensures Serialize([p, q]) == Mapping(p) + "&" + Mapping(q)
  {
    var parts := Mappings([p, q]);
    assert parts == [Mapping(p), Mapping(q)];
    assert parts[1..] == [Mapping(q)];
    assert Join(parts[1..], "&") == Mapping(q);
    assert Join(parts, "&") == Mapping(p) + "&" + Mapping(q);
  }

  lemma PlainMapping(k: string, a: string)
    requires forall i :: 0 <= i < |k| ==> PlainKeyChar(k[i])
    requires forall i :: 0 <= i < |a| ==> PlainKeyChar(a[i]) && a[i] != '[' && a[i] != ']'
    ensures Mapping((k, Str(a))) == k + "=" + a
  {
    PlainKey(k);
    PlainKeyValue(a);
  }

  lemma {:induction false} ExpectedAppend(a: seq<(string, Value)>, b: seq<(string, Value)>)
    ensures Expected(a + b) == Expected(a) + Expected(b)
  {
    if a != [] {
      assert (a + b)[0] == a[0] && (a + b)[1..] == a[1..] + b;
      ExpectedAppend(a[1..], b);
    } else {
      assert a + b == b;
    }
  }

  /** The URL's own parameters come first, then the query's, each decodable from the URL. */
  lemma ExistingParamsFirst(u: ParsedUrl, query: Value)
    ensures var ps := StringPairs(u.searchParams) + QueryPairs(query);
            ps != [] ==> ParseQuery(SearchPart(ps)[1..]) == Some(Expected(StringPairs(u.searchParams)) + Expected(QueryPairs(query)))
  {
    ExpectedAppend(StringPairs(u.searchParams), QueryPairs(query));
  }
}
