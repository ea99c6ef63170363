/** The JavaScript values the library inspects, with the coercions it relies on. */
module Js {

  datatype Option<+T> = None | Some(value: T)

  datatype Result<+T, +E> = Success(value: T) | Failure(error: E)

  /** A JavaScript value, as far as like-fetch looks at it. Numbers are integral; an object is
      its own enumerable properties in enumeration order; a function is its source text and
      the truthiness of what it returns when called with an HTTP status. A JavaScript object
      never holds a key twice, but `Obj` entries may: such a value reads its first occurrence
      through Lookup and its last through EntriesToMap, and the two agree when the keys are
      distinct (LookupAgrees). */
  datatype Value =
    | Undefined
    | Null
    | Bool(b: bool)
    | Num(n: int)
    | Str(s: string)
    | Arr(items: seq<Value>)
    | Obj(entries: seq<(string, Value)>)
    | Fn(source: string, onStatus: int -> bool)

  /** A response of the transport: only its status is read (`ok` is derived from it). */
  datatype Response = Response(status: int) {
    /** The Fetch standard's "ok status": 200 to 299 inclusive. */
    predicate Ok() { 200 <= status <= 299 }
  }

  /** A thrown JavaScript error, as a value: the fields the library reads or writes. */
  datatype Thrown = Thrown(name: string, message: string, code: Value, response: Option<Response>, body: Value)

  /** A plain `new Error(message)`. */
  function PlainError(message: string): (e: Thrown)
    ensures e.name == "Error" && e.message == message && e.response.None? && e.body.Undefined?
  {
    Thrown("Error", message, Undefined, None, Undefined)
  }

  /** JavaScript truthiness (ToBoolean). */
  predicate Truthy(v: Value) {
    match v
    case Undefined => false
    case Null => false
    case Bool(b) => b
    case Num(n) => n != 0
    case Str(s) => s != ""
    case Arr(_) => true
    case Obj(_) => true
    case Fn(_, _) => true
  }

  /** Truthiness is false exactly for the falsy values this model has (undefined, null,
      false, 0 and the empty string); every array, object and function is truthy. */
  lemma FalsyValues(v: Value)
    ensures !Truthy(v) <==> v == Undefined || v == Null || v == Bool(false) || v == Num(0) || v == Str("")
  {
  }

  predicate IsDigit(c: char) { '0' <= c <= '9' }

  /** Decimal spelling of a natural number. */
  function NatToString(n: nat): (s: string)
    ensures |s| >= 1 && forall i :: 0 <= i < |s| ==> IsDigit(s[i])
    ensures s[0] == '0' ==> n == 0
  {
    if n < 10 then [('0' as int + n) as char]
    else NatToString(n / 10) + [('0' as int + n % 10) as char]
  }

  /** Decimal spelling of an integer: a minus sign exactly for a negative one, then digits. */
  function IntToString(n: int): (s: string)
    ensures |s| >= 1 && (s[0] == '-' <==> n < 0)
    ensures forall i :: (if n < 0 then 1 else 0) <= i < |s| ==> IsDigit(s[i])
    ensures n < 0 ==> |s| >= 2
  {
    if n < 0 then "-" + NatToString(-n) else NatToString(n)
  }

  /** JavaScript `String(v)` (ToString) for integral numbers and plain objects: a string is
      itself, a number is written in decimal digits (JavaScript's exponent form from 10^21 on
      is not modelled), a plain object is `[object Object]`, an array
      is its items joined with commas (nullish items empty). */
  function ToJSString(v: Value): (r: string)
    ensures v.Str? ==> r == v.s
    ensures v.Num? ==> |r| >= 1 && (r[0] == '-' <==> v.n < 0)
                       && forall i :: (if v.n < 0 then 1 else 0) <= i < |r| ==> IsDigit(r[i])
    ensures v.Obj? ==> r == "[object Object]"
    ensures v.Arr? && |v.items| == 0 ==> r == ""
    ensures v.Arr? && |v.items| == 1 ==> r == (if v.items[0].Undefined? || v.items[0].Null? then "" else ToJSString(v.items[0]))
    decreases v, if v.Arr? then |v.items| + 1 else 0
  {
    match v
    case Undefined => "undefined"
    case Null => "null"
    case Bool(b) => if b then "true" else "false"
    case Num(n) => IntToString(n)
    case Str(s) => s
    case Arr(items) => JoinedItems(v, |items|)
    case Obj(_) => "[object Object]"
    case Fn(source, _) => source
  }

  /** `Array.prototype.join(',')` of the first `n` items of an array: null and undefined
      items become the empty string. */
  function JoinedItems(arr: Value, n: nat): string
    requires arr.Arr? && n <= |arr.items|
    decreases arr, n
  {
    if n == 0 then ""
    else
      var item := arr.items[n - 1];
      var text := if item.Undefined? || item.Null? then "" else ToJSString(item);
      if n == 1 then text else JoinedItems(arr, n - 1) + "," + text
  }

  /** The value stored under `key` in an object's entries (first match), or undefined. */
  function Lookup(entries: seq<(string, Value)>, key: string): Value {
    if entries == [] then Undefined
    else if entries[0].0 == key then entries[0].1
    else Lookup(entries[1..], key)
  }

  /** `obj[key] = v`: replaces the property in place, or adds it at the end. */
  function SetProp(entries: seq<(string, Value)>, key: string, v: Value): (r: seq<(string, Value)>)
    ensures Lookup(r, key) == v
    ensures forall k :: k != key ==> Lookup(r, k) == Lookup(entries, k)
  {
    if entries == [] then [(key, v)]
    else if entries[0].0 == key then [(key, v)] + entries[1..]
    else [entries[0]] + SetProp(entries[1..], key, v)
  }

  /** The own enumerable properties of an object literal as a map (a later duplicate wins). */
  function EntriesToMap(entries: seq<(string, Value)>): map<string, Value>
  {
    if entries == [] then map[]
    else EntriesToMap(entries[..|entries| - 1]) + map[entries[|entries| - 1].0 := entries[|entries| - 1].1]
  }

  /** The property keys a `for...in` loop or `Object.assign` sees on a value, with their values:
      an object's own entries, the indices of an array or a string, nothing for the rest. */
  function OwnEntries(v: Value): (r: seq<(string, Value)>)
    ensures v.Obj? ==> r == v.entries
    ensures v.Arr? ==> |r| == |v.items|
    ensures v.Str? ==> |r| == |v.s|
    ensures !(v.Obj? || v.Arr? || v.Str?) ==> r == []
  {
    match v
    case Obj(es) => es
    case Arr(items) => seq(|items|, i requires 0 <= i < |items| => (NatToString(i), items[i]))
    case Str(s) => seq(|s|, i requires 0 <= i < |s| => (NatToString(i), Str([s[i]])))
    case _ => []
  }

  /** What `Object.assign({}, v)` copies out of `v`: nothing from null, undefined, a boolean
      or a number; an object's own keys, each read as `v[key]` reads it when the keys are
      distinct. */
  function OwnProps(v: Value): (r: map<string, Value>)
    ensures !(v.Obj? || v.Arr? || v.Str?) ==> r == map[]
    ensures v.Obj? ==> forall k :: k in r <==> exists j :: 0 <= j < |v.entries| && v.entries[j].0 == k
    ensures v.Obj? && DistinctKeys(v.entries) ==> forall k :: Get(r, k) == Lookup(v.entries, k)
  {
    if v.Obj? then
      EntriesToMapKeysAll(v.entries);
      LookupAgreesAll(v.entries);
      EntriesToMap(v.entries)
    else EntriesToMap(OwnEntries(v))
  }

  /** `obj[key]` on a property map: undefined when absent. */
  function Get(props: map<string, Value>, key: string): Value {
    if key in props then props[key] else Undefined
  }

  /** The keys of an object's entries are pairwise distinct, as in every JavaScript object. */
  predicate DistinctKeys(entries: seq<(string, Value)>) {
    forall j, k :: 0 <= j < k < |entries| ==> entries[j].0 != entries[k].0
  }

  /** Lookup gives undefined for a key no entry has. */
  lemma {:induction false} LookupAbsent(entries: seq<(string, Value)>, key: string)
    requires forall j :: 0 <= j < |entries| ==> entries[j].0 != key
    ensures Lookup(entries, key) == Undefined
  {
    if entries != [] {
      assert entries[0].0 != key;
      assert forall j :: 0 <= j < |entries[1..]| ==> entries[1..][j] == entries[j + 1];
      LookupAbsent(entries[1..], key);
    }
  }

  /** Lookup reads the first entry with the key. */
  lemma {:induction false} LookupFirst(entries: seq<(string, Value)>, key: string, i: nat)
    requires i < |entries| && entries[i].0 == key
    requires forall j :: 0 <= j < i ==> entries[j].0 != key
    ensures Lookup(entries, key) == entries[i].1
  {
    if i > 0 {
      var rest := entries[1..];
      assert entries[0].0 != key && rest[i - 1] == entries[i];
      assert forall j :: 0 <= j < i - 1 ==> rest[j] == entries[j + 1];
      LookupFirst(rest, key, i - 1);
    }
  }

  /** The keys of EntriesToMap are exactly the keys the entries mention. */
  lemma {:induction false} EntriesToMapKeys(entries: seq<(string, Value)>, key: string)
    ensures key in EntriesToMap(entries) <==> exists j :: 0 <= j < |entries| && entries[j].0 == key
  {
    if entries != [] {
      var init := entries[..|entries| - 1];
      EntriesToMapKeys(init, key);
      if exists j :: 0 <= j < |init| && init[j].0 == key {
        var j :| 0 <= j < |init| && init[j].0 == key;
        assert entries[j].0 == key;
      }
      if exists j :: 0 <= j < |entries| && entries[j].0 == key {
        var j :| 0 <= j < |entries| && entries[j].0 == key;
        if j < |init| {
          assert init[j].0 == key;
        }
      }
    }
  }

  /** With distinct keys, the first and the last occurrence are the same one: `obj[key]` and
      what Object.assign copies out of `obj` agree. */
  lemma LookupAgrees(entries: seq<(string, Value)>, key: string)
    requires DistinctKeys(entries)
    ensures Lookup(entries, key) == Get(EntriesToMap(entries), key)
  {
    EntriesToMapKeys(entries, key);
    if i :| 0 <= i < |entries| && entries[i].0 == key {
      LookupFirst(entries, key, i);
      EntriesToMapLast(entries, i);
    } else {
      LookupAbsent(entries, key);
    }
  }

  lemma EntriesToMapKeysAll(entries: seq<(string, Value)>)
    ensures forall k :: k in EntriesToMap(entries) <==> exists j :: 0 <= j < |entries| && entries[j].0 == k
  {
    forall k { EntriesToMapKeys(entries, k); }
  }

  lemma LookupAgreesAll(entries: seq<(string, Value)>)
    ensures DistinctKeys(entries) ==> forall k :: Lookup(entries, k) == Get(EntriesToMap(entries), k)
  {
    if DistinctKeys(entries) {
      forall k { LookupAgrees(entries, k); }
    }
  }

  /** A key present in an object's entries is present in what Object.assign copies out of it,
      with the value of its last occurrence. */
  lemma {:induction false} EntriesToMapLast(entries: seq<(string, Value)>, i: nat)
    requires i < |entries|
    requires forall j :: i < j < |entries| ==> entries[j].0 != entries[i].0
    ensures entries[i].0 in EntriesToMap(entries) && EntriesToMap(entries)[entries[i].0] == entries[i].1
  {
    if i < |entries| - 1 {
      var init := entries[..|entries| - 1];
      assert forall j :: i < j < |init| ==> init[j] == entries[j];
      EntriesToMapLast(init, i);
    }
  }
}
