/** lib/url-search-params.js: an append-only list of key/value pairs and its
    `application/x-www-form-urlencoded`-style serialisation built on `encodeURIComponent`. */
module SearchParams {
  import opened Js

  type Byte = b: int | 0 <= b < 256

  // ---------------------------------------------------------------------------------------
  // encodeURIComponent (ECMA-262, section 19.2.6.5), over Unicode scalar values
  // ---------------------------------------------------------------------------------------

  predicate IsAlnum(c: char) { 'A' <= c <= 'Z' || 'a' <= c <= 'z' || '0' <= c <= '9' }

  /** The characters `encodeURIComponent` copies unchanged. */
  predicate Unreserved(c: char) { IsAlnum(c) || c in "-_.!~*'()" }

  /** UTF-8 encoding of one code point. */
  function Utf8(c: char): (bs: seq<Byte>)
    ensures 1 <= |bs| <= 4
    ensures c as int < 0x80 ==> bs == [c as int]
    ensures c as int >= 0x80 ==> forall i :: 0 <= i < |bs| ==> 0x80 <= bs[i]
  {
    var n := c as int;
    if n < 0x80 then [n]
    else if n < 0x800 then [0xC0 + n / 64, 0x80 + n % 64]
    else if n < 0x10000 then [0xE0 + n / 4096, 0x80 + (n / 64) % 64, 0x80 + n % 64]
    else [0xF0 + n / 262144, 0x80 + (n / 4096) % 64, 0x80 + (n / 64) % 64, 0x80 + n % 64]
  }

  function Utf8String(s: string): seq<Byte> {
    if s == [] then [] else Utf8(s[0]) + Utf8String(s[1..])
  }

  /** Upper-case hexadecimal digit, as `encodeURIComponent` writes them. */
  function HexDigit(d: int): char
    requires 0 <= d < 16
  {
    if d < 10 then ('0' as int + d) as char else ('A' as int + d - 10) as char
  }

  /** A piece of percent-encoded text: a literal character or an escape `%XY` of one byte. */
  datatype Tok = Lit(c: char) | Esc(b: Byte)

  function TokText(t: Tok): string {
    match t
    case Lit(c) => [c]
    case Esc(b) => ['%', HexDigit(b / 16), HexDigit(b % 16)]
  }

  function Render(ts: seq<Tok>): string {
    if ts == [] then "" else TokText(ts[0]) + Render(ts[1..])
  }

  function EscAll(bs: seq<Byte>): (ts: seq<Tok>)
    ensures |ts| == |bs| && forall i :: 0 <= i < |bs| ==> ts[i] == Esc(bs[i])
  {
    if bs == [] then [] else [Esc(bs[0])] + EscAll(bs[1..])
  }

  function CharToks(c: char): seq<Tok> {
    if Unreserved(c) then [Lit(c)] else EscAll(Utf8(c))
  }

  function UriToks(s: string): seq<Tok> {
    if s == [] then [] else CharToks(s[0]) + UriToks(s[1..])
  }

  /** `encodeURIComponent(s)`: unreserved characters stay, every other code point becomes the
      escapes of its UTF-8 bytes. (Dafny strings hold no lone surrogates, so the URIError case
      cannot arise.) */
  function EncodeURIComponent(s: string): (r: string)
    ensures forall i :: 0 <= i < |r| ==> IsAlnum(r[i]) || r[i] == '%' || r[i] in "-_.!~*'()"
  {
    UriToksLits(s);
    RenderAlphabet(UriToks(s), "-_.!~*'()");
    Render(UriToks(s))
  }

  // ---------------------------------------------------------------------------------------
  // The two rewrites of lib/url-search-params.js, on text
  // ---------------------------------------------------------------------------------------

  /** ENCODE_CHARS: the replacement of every match of `/[!'()~]|%20|%00/`. */
  const EncodeChars: map<string, string> :=
    map["!" := "%21", "'" := "%27", "(" := "%28", ")" := "%29", "~" := "%7E", "%20" := "+", "%00" := "\0"]

  /** replacer (lib/url-search-params.js:48-50). */
  function Replacer(m: string): string
    requires m in EncodeChars
  {
    EncodeChars[m]
  }

  /** `s.replace(/[!'()~]|%20|%00/g, replacer)`, scanning left to right. */
  function ReplaceSpecials(s: string): string
    decreases |s|
  {
    if s == [] then ""
    else if s[0] in "!'()~" then Replacer([s[0]]) + ReplaceSpecials(s[1..])
    else if |s| >= 3 && s[0] == '%' && (s[1] == '2' || s[1] == '0') && s[2] == '0' then
      assert s[..3] == ['%', s[1], '0'];
      Replacer(s[..3]) + ReplaceSpecials(s[3..])
    else [s[0]] + ReplaceSpecials(s[1..])
  }

  function Lower(c: char): char {
    if 'A' <= c <= 'Z' then (c as int + 32) as char else c
  }

  /** Does `s` start with `pat`, ignoring ASCII case (the regular expression's `i` flag)? */
  predicate StartsWithCI(s: string, pat: string) {
    |pat| <= |s| && forall i :: 0 <= i < |pat| ==> Lower(s[i]) == Lower(pat[i])
  }

  /** `s.replace(/pat/gi, repl)` for a pattern without metacharacters. */
  function ReplaceAllCI(s: string, pat: string, repl: string): string
    requires |pat| > 0
    decreases |s|
  {
    if s == [] then ""
    else if StartsWithCI(s, pat) then repl + ReplaceAllCI(s[|pat|..], pat, repl)
    else [s[0]] + ReplaceAllCI(s[1..], pat, repl)
  }

  /** encodeValue (lib/url-search-params.js:43-46): `encodeURIComponent` followed by the
      `[!'()~]|%20|%00` replacement is the character-by-character value encoding. */
  function EncodeValue(v: string): (r: string)
    ensures r == Render(ValueToks(v))
  {
    ValueTextTokens(v);
    ReplaceSpecials(EncodeURIComponent(v))
  }

  /** encodeKey (lib/url-search-params.js:36-41): encodeValue with the escapes of `[` and `]`
      turned back into the characters, which is the character-by-character key encoding. */
  function EncodeKey(k: string): (r: string)
    ensures r == Render(KeyToks(k))
  {
    var vt := ValueToks(k);
    ValueTextTokens(k);
    ValueToksNoPercent(k);
    assert TokText(Esc(0x5B)) == "%5B" && TokText(Esc(0x5D)) == "%5D";
    ReplaceEscTokens(vt, 0x5B, '[');
    assert NoPercentLit(ReplaceEsc(vt, 0x5B, '['));
    ReplaceEscTokens(ReplaceEsc(vt, 0x5B, '['), 0x5D, ']');
    KeyToksFromValue(k);
    ReplaceAllCI(ReplaceAllCI(ReplaceSpecials(EncodeURIComponent(k)), "%5B", "["), "%5D", "]")
  }

  /** mapping (lib/url-search-params.js:29-34): one pair, the value coerced with String(). The
      text holds no `&`, and splitting it at its `=` decodes to the key's and the value's
      UTF-8 bytes. */
  function Mapping(kv: (string, Value)): (r: string)
    ensures '&' !in r
    ensures DecodePair(r) == Some((Utf8String(kv.0), Utf8String(ToJSString(kv.1))))
  {
    var ek, ev := EncodeKey(kv.0), EncodeValue(ToJSString(kv.1));
    EncodeKeyAlphabet(kv.0);
    EncodeValueAlphabet(ToJSString(kv.1));
    EncodeKeyRoundTrip(kv.0);
    EncodeValueRoundTrip(ToJSString(kv.1));
    DecodePairOf(ek, ev);
    ek + "=" + ev
  }

  /** `Array.prototype.join(sep)`. */
  function Join(parts: seq<string>, sep: string): string {
    if |parts| == 0 then ""
    else if |parts| == 1 then parts[0]
    else parts[0] + sep + Join(parts[1..], sep)
  }

  function Mappings(ps: seq<(string, Value)>): (r: seq<string>)
    ensures |r| == |ps| && forall i :: 0 <= i < |ps| ==> r[i] == Mapping(ps[i])
  {
    if ps == [] then [] else [Mapping(ps[0])] + Mappings(ps[1..])
  }

  /** toString (lib/url-search-params.js:24-26): the pairs in insertion order. A form decoder
      splitting at `&` and `=` recovers every key and value, duplicates included; the empty
      list gives `''`. */
  function Serialize(ps: seq<(string, Value)>): (r: string)
    ensures r == "" <==> ps == []
    ensures ParseQuery(r) == Some(Expected(ps))
  {
    JoinedMappings(ps);
    Join(Mappings(ps), "&")
  }

  // ---------------------------------------------------------------------------------------
  // The same encoding stated character by character (the reference the lemmas target)
  // ---------------------------------------------------------------------------------------

  /** How one character of a value is written: alphanumerics and `-_.*` stay, a space is `+`,
      NUL comes out raw, everything else is the upper-case escapes of its UTF-8 bytes. */
  function ValueCharToks(c: char): seq<Tok> {
    if c == ' ' then [Lit('+')]
    else if c == '\0' then [Lit('\0')]
    else if IsAlnum(c) || c in "-_.*" then [Lit(c)]
    else EscAll(Utf8(c))
  }

  /** A key is written like a value except that `[` and `]` stay literal. */
  function KeyCharToks(c: char): seq<Tok> {
    if c == '[' || c == ']' then [Lit(c)] else ValueCharToks(c)
  }

  function ValueToks(s: string): seq<Tok> {
    if s == [] then [] else ValueCharToks(s[0]) + ValueToks(s[1..])
  }

  function KeyToks(s: string): seq<Tok> {
    if s == [] then [] else KeyCharToks(s[0]) + KeyToks(s[1..])
  }

  // ---------------------------------------------------------------------------------------
  // A form decoder, the partner of the encoder
  // ---------------------------------------------------------------------------------------

  predicate IsHexDigit(c: char) { '0' <= c <= '9' || 'A' <= c <= 'F' || 'a' <= c <= 'f' }

  function HexValue(c: char): (d: int)
    requires IsHexDigit(c)
    ensures 0 <= d < 16
  {
    if c <= '9' then c as int - '0' as int
    else if c <= 'F' then c as int - 'A' as int + 10
    else c as int - 'a' as int + 10
  }

  /** Percent-decoding of one form component to bytes: `+` is a space, `%XY` a byte, any other
      ASCII character itself; a broken escape or a non-ASCII character is refused. */
  function FormDecode(t: string): Option<seq<Byte>>
    decreases |t|
  {
    if t == "" then Some([])
    else
      var head: Option<Byte> :=
        if t[0] == '%' then
          (if |t| >= 3 && IsHexDigit(t[1]) && IsHexDigit(t[2]) then Some(HexValue(t[1]) * 16 + HexValue(t[2])) else None)
        else if t[0] == '+' then Some(0x20)
        else if t[0] as int < 0x80 then Some(t[0] as int)
        else None;
      var width := if t[0] == '%' then 3 else 1;
      match head
      case None => None
      case Some(b) =>
        match FormDecode(t[width..])
        case None => None
        case Some(rest) => Some([b] + rest)
  }

  /** `s.split(sep)` for a one-character separator: never empty. */
  function SplitOn(t: string, sep: char): (r: seq<string>)
    ensures |r| >= 1
    decreases |t|
  {
    if t == "" then [""]
    else
      var rest := SplitOn(t[1..], sep);
      if t[0] == sep then [""] + rest else [[t[0]] + rest[0]] + rest[1..]
  }

  function DecodePair(piece: string): Option<(seq<Byte>, seq<Byte>)> {
    var parts := SplitOn(piece, '=');
    match (FormDecode(parts[0]), FormDecode(Join(parts[1..], "=")))
    case (Some(k), Some(v)) => Some((k, v))
    case _ => None
  }

  function DecodePieces(pieces: seq<string>): Option<seq<(seq<Byte>, seq<Byte>)>> {
    if pieces == [] then Some([])
    else
      match (DecodePair(pieces[0]), DecodePieces(pieces[1..]))
      case (Some(p), Some(ps)) => Some([p] + ps)
      case _ => None
  }

  /** Parses a query string (without `?`) into its pairs of UTF-8 byte strings. */
  function ParseQuery(t: string): Option<seq<(seq<Byte>, seq<Byte>)>> {
    if t == "" then Some([]) else DecodePieces(SplitOn(t, '&'))
  }

  /** What a form decoder should recover from a list of pairs: the UTF-8 of each key and of
      each value's String() form. */
  function Expected(ps: seq<(string, Value)>): (r: seq<(seq<Byte>, seq<Byte>)>)
    ensures |r| == |ps|
  {
    if ps == [] then [] else [(Utf8String(ps[0].0), Utf8String(ToJSString(ps[0].1)))] + Expected(ps[1..])
  }

  // ---------------------------------------------------------------------------------------
  // FetchURLSearchParams (lib/url-search-params.js:11-27)
  // ---------------------------------------------------------------------------------------

  class FetchURLSearchParams {
    /** `_params`: the pairs in insertion order; values are kept as given and coerced with
        String() only when serialised. */
    var params: seq<(string, Value)>

    constructor ()
      ensures params == []
    {
      params := [];
    }

    /** The `size` getter. */
    function Size(): (n: nat)
      reads this
      ensures n == |params|
    {
      |params|
    }

    method Append(key: string, value: Value)
      modifies this
      ensures params == old(params) + [(key, value)]
    {
      params := params + [(key, value)];
    }

    function ToString(): (s: string)
      reads this
      ensures s == "" <==> params == []
      ensures ParseQuery(s) == Some(Expected(params))
    {
      Serialize(params)
    }
  }

  // ---------------------------------------------------------------------------------------
  // Lemmas
  // ---------------------------------------------------------------------------------------

  lemma {:induction false} RenderAppend(a: seq<Tok>, b: seq<Tok>)
    ensures Render(a + b) == Render(a) + Render(b)
  {
    if a != [] {
      assert (a + b)[0] == a[0] && (a + b)[1..] == a[1..] + b;
      RenderAppend(a[1..], b);
      assert Render(a + b) == TokText(a[0]) + Render(a[1..] + b);
    } else {
      assert a + b == b;
    }
  }

  lemma HexDigitLower(d: int, e: int)
    requires 0 <= d < 16 && 0 <= e < 16
    ensures Lower(HexDigit(d)) == Lower(HexDigit(e)) ==> d == e
  {
  }

  /** No literal `%`: every `%` in the rendered text starts an escape. */
  predicate NoPercentLit(ts: seq<Tok>) {
    forall i :: 0 <= i < |ts| ==> ts[i] != Lit('%')
  }

  /** The `/[!'()~]|%20|%00/g` rewrite on one token. */
  function SpecialTok(t: Tok): Tok {
    match t
    case Lit(c) => if c in "!'()~" then Esc(c as int) else t
    case Esc(b) => if b == 0x20 then Lit('+') else if b == 0 then Lit('\0') else t
  }

  function SpecialToks(ts: seq<Tok>): (r: seq<Tok>)
    ensures |r| == |ts| && forall i :: 0 <= i < |ts| ==> r[i] == SpecialTok(ts[i])
  {
    if ts == [] then [] else [SpecialTok(ts[0])] + SpecialToks(ts[1..])
  }

  /** Turns every escape of byte `b` into the literal `c`. */
  function ReplaceEsc(ts: seq<Tok>, b: Byte, c: char): (r: seq<Tok>)
    ensures |r| == |ts| && forall i :: 0 <= i < |ts| ==> r[i] == (if ts[i] == Esc(b) then Lit(c) else ts[i])
  {
    if ts == [] then [] else [if ts[0] == Esc(b) then Lit(c) else ts[0]] + ReplaceEsc(ts[1..], b, c)
  }

  lemma SpecialsPlain(d: char, rest: string)
    requires d != '%' && d !in "!'()~"
    ensures ReplaceSpecials([d] + rest) == [d] + ReplaceSpecials(rest)
  {
    assert ([d] + rest)[0] == d && ([d] + rest)[1..] == rest;
  }

  lemma EscPlain(d: char, rest: string, pat: string, repl: string)
    requires d != '%' && |pat| > 0 && pat[0] == '%'
    ensures ReplaceAllCI([d] + rest, pat, repl) == [d] + ReplaceAllCI(rest, pat, repl)
  {
    var s := [d] + rest;
    assert s[0] == d && s[1..] == rest;
    assert !StartsWithCI(s, pat) by { assert Lower(s[0]) != Lower(pat[0]); }
  }

  lemma SpecialsLit(c: char, rest: string)
    requires c != '%'
    ensures ReplaceSpecials([c] + rest) == TokText(SpecialTok(Lit(c))) + ReplaceSpecials(rest)
  {
    var s := [c] + rest;
    assert s[0] == c && s[1..] == rest;
    if c in "!'()~" {
      assert Replacer([c]) == TokText(Esc(c as int));
    }
  }

  lemma EscapeText(b: Byte)
    ensures TokText(Esc(b)) == "%20" <==> b == 0x20
    ensures TokText(Esc(b)) == "%00" <==> b == 0
  {
    var esc := TokText(Esc(b));
    if esc == "%20" { HexDigitLower(b / 16, 2); HexDigitLower(b % 16, 0); }
    if esc == "%00" { HexDigitLower(b / 16, 0); HexDigitLower(b % 16, 0); }
  }

  /** Two characters that are neither `%` nor special are passed over. */
  lemma SpecialsPlainTwo(d1: char, d2: char, rest: string)
    requires d1 != '%' && d1 !in "!'()~" && d2 != '%' && d2 !in "!'()~"
    ensures ReplaceSpecials([d1, d2] + rest) == [d1, d2] + ReplaceSpecials(rest)
  {
    assert [d1, d2] + rest == [d1] + ([d2] + rest);
    SpecialsPlain(d1, [d2] + rest);
    SpecialsPlain(d2, rest);
  }

  /** `%20` and `%00` are replaced as a whole. */
  lemma SpecialsMatch(b: Byte, rest: string)
    requires b == 0x20 || b == 0
    ensures ReplaceSpecials(TokText(Esc(b)) + rest) == TokText(SpecialTok(Esc(b))) + ReplaceSpecials(rest)
  {
    var esc := TokText(Esc(b));
    var s := esc + rest;
    assert s[0] == '%' && s[..3] == esc && s[3..] == rest;
    EscapeText(b);
  }

  /** The escape of any other byte is passed over. */
  lemma SpecialsOther(b: Byte, rest: string)
    requires b != 0x20 && b != 0
    ensures ReplaceSpecials(TokText(Esc(b)) + rest) == TokText(Esc(b)) + ReplaceSpecials(rest)
  {
    var d1, d2 := HexDigit(b / 16), HexDigit(b % 16);
    var esc := TokText(Esc(b));
    assert esc == ['%'] + [d1, d2];
    var s := esc + rest;
    EscapeText(b);
    assert s[0] == '%' && s[..3] == esc && s[1..] == [d1, d2] + rest;
    assert ReplaceSpecials(s) == ['%'] + ReplaceSpecials([d1, d2] + rest);
    HexDigitPlain(b / 16);
    HexDigitPlain(b % 16);
    SpecialsPlainTwo(d1, d2, rest);
  }

  /** A hexadecimal digit is neither `%` nor one of the special characters. */
  lemma HexDigitPlain(d: int)
    requires 0 <= d < 16
    ensures HexDigit(d) != '%' && HexDigit(d) !in "!'()~"
  {
    assert IsAlnum(HexDigit(d));
  }

  lemma SpecialsEsc(b: Byte, rest: string)
    ensures ReplaceSpecials(TokText(Esc(b)) + rest) == TokText(SpecialTok(Esc(b))) + ReplaceSpecials(rest)
  {
    if b == 0x20 || b == 0 {
      SpecialsMatch(b, rest);
    } else {
      SpecialsOther(b, rest);
    }
  }

  /** Every replacement of ENCODE_CHARS decodes, as form data, to the same bytes as the text
      it replaces: the rewrite changes how the text is written, not what it means. */
  lemma ReplacerDecodes(m: string)
    requires m in EncodeChars
    ensures FormDecode(Replacer(m)) == FormDecode(m)
  {
  }

  /** The special-character rewrite passes over one token and goes on after it. */
  lemma SpecialsHead(t: Tok, rest: string)
    requires t != Lit('%')
    ensures ReplaceSpecials(TokText(t) + rest) == TokText(SpecialTok(t)) + ReplaceSpecials(rest)
  {
    match t
    case Lit(c) => SpecialsLit(c, rest);
    case Esc(b) => SpecialsEsc(b, rest);
  }

  lemma {:induction false} ReplaceSpecialsTokens(ts: seq<Tok>)
    requires NoPercentLit(ts)
    ensures ReplaceSpecials(Render(ts)) == Render(SpecialToks(ts))
  {
    if ts != [] {
      assert NoPercentLit(ts[1..]) by {
        assert forall i :: 0 <= i < |ts[1..]| ==> ts[1..][i] == ts[i + 1];
      }
      ReplaceSpecialsTokens(ts[1..]);
      assert ts[0] != Lit('%');
      SpecialsHead(ts[0], Render(ts[1..]));
      assert SpecialToks(ts) == [SpecialTok(ts[0])] + SpecialToks(ts[1..]);
    }
  }

  lemma EscHeadLit(d: char, rest: string, b: Byte, c: char)
    requires d != '%'
    ensures ReplaceAllCI([d] + rest, TokText(Esc(b)), [c]) == [d] + ReplaceAllCI(rest, TokText(Esc(b)), [c])
  {
    EscPlain(d, rest, TokText(Esc(b)), [c]);
  }

  /** The escape of another byte never matches the pattern, whatever the letter case. */
  lemma EscMismatch(e: Byte, rest: string, b: Byte)
    requires e != b
    ensures !StartsWithCI(TokText(Esc(e)) + rest, TokText(Esc(b)))
  {
    var pat, s := TokText(Esc(b)), TokText(Esc(e)) + rest;
    if StartsWithCI(s, pat) {
      assert s[1] == HexDigit(e / 16) && s[2] == HexDigit(e % 16);
      assert Lower(s[1]) == Lower(pat[1]) && Lower(s[2]) == Lower(pat[2]);
      HexDigitLower(e / 16, b / 16);
      HexDigitLower(e % 16, b % 16);
    }
  }

  lemma EscHeadSame(rest: string, b: Byte, c: char)
    ensures ReplaceAllCI(TokText(Esc(b)) + rest, TokText(Esc(b)), [c]) == [c] + ReplaceAllCI(rest, TokText(Esc(b)), [c])
  {
    var pat := TokText(Esc(b));
    var s := pat + rest;
    assert s[..3] == pat && s[3..] == rest;
    assert StartsWithCI(s, pat) by {
      assert forall i :: 0 <= i < 3 ==> s[i] == pat[i];
    }
  }

  /** Two characters other than `%` are passed over by the rewrite of an escape. */
  lemma EscPlainTwo(d1: char, d2: char, rest: string, pat: string, repl: string)
    requires d1 != '%' && d2 != '%' && |pat| > 0 && pat[0] == '%'
    ensures ReplaceAllCI([d1, d2] + rest, pat, repl) == [d1, d2] + ReplaceAllCI(rest, pat, repl)
  {
    assert [d1, d2] + rest == [d1] + ([d2] + rest);
    EscPlain(d1, [d2] + rest, pat, repl);
    EscPlain(d2, rest, pat, repl);
  }

  lemma EscHeadOther(e: Byte, rest: string, b: Byte, c: char)
    requires e != b
    ensures ReplaceAllCI(TokText(Esc(e)) + rest, TokText(Esc(b)), [c]) == TokText(Esc(e)) + ReplaceAllCI(rest, TokText(Esc(b)), [c])
  {
    var pat, esc := TokText(Esc(b)), TokText(Esc(e));
    var t := [esc[1], esc[2]] + rest;
    EscMismatch(e, rest, b);
    assert (esc + rest)[0] == '%' && (esc + rest)[1..] == t;
    EscPlainTwo(esc[1], esc[2], rest, pat, [c]);
    assert esc == ['%'] + [esc[1], esc[2]];
  }

  lemma EscHeadEsc(e: Byte, rest: string, b: Byte, c: char)
    ensures ReplaceAllCI(TokText(Esc(e)) + rest, TokText(Esc(b)), [c])
         == TokText(if e == b then Lit(c) else Esc(e)) + ReplaceAllCI(rest, TokText(Esc(b)), [c])
  {
    if e == b {
      EscHeadSame(rest, b, c);
    } else {
      EscHeadOther(e, rest, b, c);
    }
  }

  /** The case-insensitive rewrite of one escape passes over one token and goes on after it. */
  lemma EscHead(t: Tok, rest: string, b: Byte, c: char)
    requires t != Lit('%')
    ensures ReplaceAllCI(TokText(t) + rest, TokText(Esc(b)), [c])
         == TokText(if t == Esc(b) then Lit(c) else t) + ReplaceAllCI(rest, TokText(Esc(b)), [c])
  {
    match t
    case Lit(d) => EscHeadLit(d, rest, b, c);
    case Esc(e) => EscHeadEsc(e, rest, b, c);
  }

  lemma {:induction false} ReplaceEscTokens(ts: seq<Tok>, b: Byte, c: char)
    requires NoPercentLit(ts)
    ensures ReplaceAllCI(Render(ts), TokText(Esc(b)), [c]) == Render(ReplaceEsc(ts, b, c))
  {
    if ts != [] {
      assert NoPercentLit(ts[1..]) by {
        assert forall i :: 0 <= i < |ts[1..]| ==> ts[1..][i] == ts[i + 1];
      }
      ReplaceEscTokens(ts[1..], b, c);
      assert ts[0] != Lit('%');
      EscHead(ts[0], Render(ts[1..]), b, c);
      assert ReplaceEsc(ts, b, c) == [if ts[0] == Esc(b) then Lit(c) else ts[0]] + ReplaceEsc(ts[1..], b, c);
    }
  }

  lemma {:induction false} UriToksAppend(a: string, b: string)
    ensures UriToks(a + b) == UriToks(a) + UriToks(b)
  {
    if a != [] {
      assert (a + b)[0] == a[0] && (a + b)[1..] == a[1..] + b;
      UriToksAppend(a[1..], b);
      assert UriToks(a + b) == CharToks(a[0]) + UriToks(a[1..] + b);
    } else {
      assert a + b == b;
    }
  }

  lemma {:induction false} SpecialToksAppend(a: seq<Tok>, b: seq<Tok>)
    ensures SpecialToks(a + b) == SpecialToks(a) + SpecialToks(b)
  {
  }

  lemma {:induction false} ReplaceEscAppend(a: seq<Tok>, b: seq<Tok>, x: Byte, c: char)
    ensures ReplaceEsc(a + b, x, c) == ReplaceEsc(a, x, c) + ReplaceEsc(b, x, c)
  {
  }

  lemma CharToksNoPercent(c: char)
    ensures NoPercentLit(CharToks(c))
  {
  }

  lemma {:induction false} UriToksNoPercent(s: string)
    ensures NoPercentLit(UriToks(s))
  {
    if s != [] {
      CharToksNoPercent(s[0]);
      UriToksNoPercent(s[1..]);
    }
  }

  /** The special-character rewrite of one character's escapes gives the value reference. */
  lemma SpecialCharToks(c: char)
    ensures SpecialToks(CharToks(c)) == ValueCharToks(c)
  {
    if !Unreserved(c) && c as int >= 0x80 {
      var bs := Utf8(c);
      assert forall i :: 0 <= i < |bs| ==> SpecialTok(Esc(bs[i])) == Esc(bs[i]);
    }
  }

  lemma {:induction false} ValueToksFromUri(s: string)
    ensures SpecialToks(UriToks(s)) == ValueToks(s)
  {
    if s != [] {
      SpecialToksAppend(CharToks(s[0]), UriToks(s[1..]));
      SpecialCharToks(s[0]);
      ValueToksFromUri(s[1..]);
    }
  }

  lemma ValueCharToksNoPercent(c: char)
    ensures NoPercentLit(ValueCharToks(c))
  {
  }

  lemma {:induction false} ValueToksNoPercent(s: string)
    ensures NoPercentLit(ValueToks(s))
  {
    if s != [] {
      ValueCharToksNoPercent(s[0]);
      ValueToksNoPercent(s[1..]);
    }
  }

  lemma ReplaceEscAbsent(ts: seq<Tok>, b: Byte, c: char)
    requires forall i :: 0 <= i < |ts| ==> ts[i] != Esc(b)
    ensures ReplaceEsc(ts, b, c) == ts
  {
  }

  /** Only the characters `[` and `]` produce the escapes `%5B` and `%5D`. */
  lemma BracketFree(c: char)
    requires c != '[' && c != ']'
    ensures forall i :: 0 <= i < |ValueCharToks(c)| ==> ValueCharToks(c)[i] != Esc(0x5B) && ValueCharToks(c)[i] != Esc(0x5D)
  {
    var ts := ValueCharToks(c);
    if c == ' ' || c == '\0' || IsAlnum(c) || c in "-_.*" {
      assert ts[0].Lit? && |ts| == 1;
    } else if c as int < 0x80 {
      assert ts == [Esc(c as int)];
    } else {
      var bs := Utf8(c);
      assert forall i :: 0 <= i < |ts| ==> ts[i] == Esc(bs[i]) && 0x80 <= bs[i];
    }
  }

  lemma BracketCharToks(c: char)
    ensures ReplaceEsc(ReplaceEsc(ValueCharToks(c), 0x5B, '['), 0x5D, ']') == KeyCharToks(c)
  {
    var ts := ValueCharToks(c);
    if c == '[' || c == ']' {
      assert ts == [Esc(c as int)];
    } else {
      BracketFree(c);
      ReplaceEscAbsent(ts, 0x5B, '[');
      ReplaceEscAbsent(ts, 0x5D, ']');
    }
  }

  lemma {:induction false} KeyToksFromValue(s: string)
    ensures ReplaceEsc(ReplaceEsc(ValueToks(s), 0x5B, '['), 0x5D, ']') == KeyToks(s)
  {
    if s != [] {
      var head := ValueCharToks(s[0]);
      ReplaceEscAppend(head, ValueToks(s[1..]), 0x5B, '[');
      ReplaceEscAppend(ReplaceEsc(head, 0x5B, '['), ReplaceEsc(ValueToks(s[1..]), 0x5B, '['), 0x5D, ']');
      BracketCharToks(s[0]);
      KeyToksFromValue(s[1..]);
    }
  }

  /** The two passes of encodeValue, token by token. */
  lemma ValueTextTokens(v: string)
    ensures ReplaceSpecials(EncodeURIComponent(v)) == Render(ValueToks(v))
  {
    UriToksNoPercent(v);
    ReplaceSpecialsTokens(UriToks(v));
    ValueToksFromUri(v);
  }

  /** A space inside a value is written `+`. */
  lemma SpaceExample()
    ensures EncodeValue("a b") == "a+b"
  {
    assert ValueToks("a b") == [Lit('a'), Lit('+'), Lit('b')];
    assert Render([Lit('a'), Lit('+'), Lit('b')]) == "a+b";
  }

  /** The encoding of a one-character value. */
  lemma EncodeChar(c: char)
    ensures EncodeValue([c]) == Render(ValueCharToks(c))
  {
    assert [c][0] == c && [c][1..] == "";
    assert ValueToks([c]) == ValueCharToks(c) + [];
    assert ValueCharToks(c) + [] == ValueCharToks(c);
  }

  /** An ASCII character outside the kept set comes out as one upper-case escape. */
  lemma AsciiEscape(c: char)
    requires c as int < 0x80 && c != ' ' && c != '\0' && !IsAlnum(c) && c !in "-_.*"
    ensures EncodeValue([c]) == ['%', HexDigit(c as int / 16), HexDigit(c as int % 16)]
  {
    EncodeChar(c);
    assert ValueCharToks(c) == [Esc(c as int)];
    assert Render([Esc(c as int)]) == TokText(Esc(c as int)) + Render([]);
  }

  /** `!`, `'` and `~`, which encodeURIComponent leaves alone, come out escaped: `!` is `%21` ... */
  lemma ExclamationExample()
    ensures EncodeValue("!") == "%21"
  {
    var c := '!';
    assert c as int == 0x21 && 0x21 / 16 == 2 && 0x21 % 16 == 1;
    AsciiEscape(c);
    assert HexDigit(2) == '2' && HexDigit(1) == '1';
    assert [c] == "!";
  }

  /** ... `'` is `%27` ... */
  lemma ApostropheExample()
    ensures EncodeValue("'") == "%27"
  {
    var c := '\'';
    assert c as int == 0x27 && 0x27 / 16 == 2 && 0x27 % 16 == 7;
    AsciiEscape(c);
    assert HexDigit(2) == '2' && HexDigit(7) == '7';
    assert [c] == "'";
  }

  /** ... and `~` is `%7E`. */
  lemma TildeExample()
    ensures EncodeValue("~") == "%7E"
  {
    var c := '~';
    assert c as int == 0x7E && 0x7E / 16 == 7 && 0x7E % 16 == 14;
    AsciiEscape(c);
    assert HexDigit(7) == '7' && HexDigit(14) == 'E';
    assert [c] == "~";
  }

  /** NUL comes out as the raw character. */
  lemma NulExample()
    ensures EncodeValue("\0") == "\0"
  {
    EncodeChar('\0');
  }

  /** A value escapes brackets: `[` is `%5B` ... */
  lemma OpenBracketExample()
    ensures EncodeValue("[") == "%5B"
  {
    var c := '[';
    assert c as int == 0x5B && 0x5B / 16 == 5 && 0x5B % 16 == 11;
    AsciiEscape(c);
    assert HexDigit(5) == '5' && HexDigit(11) == 'B';
    assert [c] == "[";
  }

  /** ... and `]` is `%5D`. */
  lemma CloseBracketExample()
    ensures EncodeValue("]") == "%5D"
  {
    var c := ']';
    assert c as int == 0x5D && 0x5D / 16 == 5 && 0x5D % 16 == 13;
    AsciiEscape(c);
    assert HexDigit(5) == '5' && HexDigit(13) == 'D';
    assert [c] == "]";
  }

  /** Characters both encodings copy as they are. */
  predicate PlainKeyChar(c: char) { IsAlnum(c) || c in "-_.*[]" }

  lemma {:induction false} PlainKeyToks(k: string)
    requires forall i :: 0 <= i < |k| ==> PlainKeyChar(k[i])
    ensures Render(KeyToks(k)) == k
  {
    if k != [] {
      assert forall i :: 0 <= i < |k[1..]| ==> k[1..][i] == k[i + 1];
      PlainKeyToks(k[1..]);
      assert KeyCharToks(k[0]) == [Lit(k[0])];
      RenderAppend([Lit(k[0])], KeyToks(k[1..]));
    }
  }

  /** A key of alphanumerics, `-_.*` and brackets is written as it is: `items[]` stays `items[]`. */
  lemma PlainKey(k: string)
    requires forall i :: 0 <= i < |k| ==> PlainKeyChar(k[i])
    ensures EncodeKey(k) == k
  {
    PlainKeyToks(k);
  }

  /** A value without brackets of those characters is written as it is too. */
  lemma PlainKeyValue(v: string)
    requires forall i :: 0 <= i < |v| ==> PlainKeyChar(v[i]) && v[i] != '[' && v[i] != ']'
    ensures EncodeValue(v) == v
  {
    PlainValueToks(v);
  }

  lemma {:induction false} PlainValueToks(v: string)
    requires forall i :: 0 <= i < |v| ==> PlainKeyChar(v[i]) && v[i] != '[' && v[i] != ']'
    ensures ValueToks(v) == KeyToks(v) && Render(ValueToks(v)) == v
  {
    if v != [] {
      assert forall i :: 0 <= i < |v[1..]| ==> v[1..][i] == v[i + 1];
      PlainValueToks(v[1..]);
      PlainKeyToks(v);
    }
  }

  lemma BracketKeyExample()
    ensures EncodeKey("items[]") == "items[]"
  {
    PlainKey("items[]");
  }

  /** The tokens of a character of two UTF-8 bytes. */
  lemma TwoByteToks(c: char)
    requires 0x80 <= c as int < 0x800
    ensures 0xC0 + c as int / 64 < 256
    ensures ValueCharToks(c) == [Esc(0xC0 + c as int / 64), Esc(0x80 + c as int % 64)]
  {
    var n := c as int;
    assert n / 64 < 32;
    assert !IsAlnum(c) && c !in "-_.*";
    var ts := EscAll(Utf8(c));
    assert ts[0] == Esc(0xC0 + n / 64) && ts[1] == Esc(0x80 + n % 64) && |ts| == 2;
  }

  lemma RenderTwo(b0: Byte, b1: Byte)
    ensures Render([Esc(b0), Esc(b1)]) == TokText(Esc(b0)) + TokText(Esc(b1))
  {
    var ts := [Esc(b0), Esc(b1)];
    assert ts[1..] == [Esc(b1)] && [Esc(b1)][1..] == [];
    assert Render([Esc(b1)]) == TokText(Esc(b1)) + Render([]);
    assert Render(ts) == TokText(Esc(b0)) + Render([Esc(b1)]);
  }

  /** A character of two UTF-8 bytes comes out as their two escapes. */
  lemma TwoByteEscape(c: char)
    requires 0x80 <= c as int < 0x800
    ensures 0xC0 + c as int / 64 < 256
    ensures EncodeValue([c]) == TokText(Esc(0xC0 + c as int / 64)) + TokText(Esc(0x80 + c as int % 64))
  {
    TwoByteToks(c);
    EncodeChar(c);
    RenderTwo(0xC0 + c as int / 64, 0x80 + c as int % 64);
  }

  /** A non-ASCII character is the escapes of its UTF-8 bytes: `\U{e9}` is `%C3%A9`. */
  lemma Utf8Example()
    ensures EncodeValue("\U{e9}") == "%C3%A9"
  {
    var c := '\U{e9}';
    assert c as int == 0xE9 && 0xC0 + 0xE9 / 64 == 0xC3 && 0x80 + 0xE9 % 64 == 0xA9;
    TwoByteEscape(c);
    assert 0xC3 / 16 == 12 && 0xC3 % 16 == 3 && 0xA9 / 16 == 10 && 0xA9 % 16 == 9;
    assert HexDigit(12) == 'C' && HexDigit(3) == '3' && HexDigit(10) == 'A' && HexDigit(9) == '9';
    assert [c] == "\U{e9}";
  }

  // ---------------------------------------------------------------------------------------
  // What the encoded text may contain
  // ---------------------------------------------------------------------------------------

  /** Every character of the rendered text is alphanumeric, `%`, or one of `extra`, provided
      every literal token is. */
  lemma {:induction false} RenderAlphabet(ts: seq<Tok>, extra: string)
    requires forall i :: 0 <= i < |ts| && ts[i].Lit? ==> IsAlnum(ts[i].c) || ts[i].c == '%' || ts[i].c in extra
    ensures forall i :: 0 <= i < |Render(ts)| ==> IsAlnum(Render(ts)[i]) || Render(ts)[i] == '%' || Render(ts)[i] in extra
  {
    if ts != [] {
      assert forall i :: 0 <= i < |ts[1..]| ==> ts[1..][i] == ts[i + 1];
      RenderAlphabet(ts[1..], extra);
      var head := TokText(ts[0]);
      assert forall i :: 0 <= i < |head| ==> IsAlnum(head[i]) || head[i] == '%' || head[i] in extra;
      var r := Render(ts);
      assert r == head + Render(ts[1..]);
      forall i | 0 <= i < |r| ensures IsAlnum(r[i]) || r[i] == '%' || r[i] in extra {
        if i >= |head| { assert r[i] == Render(ts[1..])[i - |head|]; }
      }
    }
  }

  lemma {:induction false} UriToksLits(s: string)
    ensures forall i :: 0 <= i < |UriToks(s)| && UriToks(s)[i].Lit? ==> IsAlnum(UriToks(s)[i].c) || UriToks(s)[i].c in "-_.!~*'()"
  {
    if s != [] {
      UriToksLits(s[1..]);
      var head: seq<Tok>, tail: seq<Tok> := CharToks(s[0]), UriToks(s[1..]);
      assert UriToks(s) == head + tail;
      forall i | 0 <= i < |head + tail| && (head + tail)[i].Lit?
        ensures IsAlnum((head + tail)[i].c) || (head + tail)[i].c in "-_.!~*'()"
      {
        if i >= |head| { assert (head + tail)[i] == tail[i - |head|]; }
      }
    }
  }

  lemma {:induction false} ValueToksLits(s: string)
    ensures forall i :: 0 <= i < |ValueToks(s)| && ValueToks(s)[i].Lit? ==> IsAlnum(ValueToks(s)[i].c) || ValueToks(s)[i].c in "-_.*+\0"
  {
    if s != [] {
      ValueToksLits(s[1..]);
      var head: seq<Tok>, tail: seq<Tok> := ValueCharToks(s[0]), ValueToks(s[1..]);
      assert ValueToks(s) == head + tail;
      forall i | 0 <= i < |head + tail| && (head + tail)[i].Lit?
        ensures IsAlnum((head + tail)[i].c) || (head + tail)[i].c in "-_.*+\0"
      {
        if i >= |head| { assert (head + tail)[i] == tail[i - |head|]; }
      }
    }
  }

  lemma {:induction false} KeyToksLits(s: string)
    ensures forall i :: 0 <= i < |KeyToks(s)| && KeyToks(s)[i].Lit? ==> IsAlnum(KeyToks(s)[i].c) || KeyToks(s)[i].c in "-_.*+\0[]"
  {
    if s != [] {
      KeyToksLits(s[1..]);
      var head: seq<Tok>, tail: seq<Tok> := KeyCharToks(s[0]), KeyToks(s[1..]);
      assert KeyToks(s) == head + tail;
      forall i | 0 <= i < |head + tail| && (head + tail)[i].Lit?
        ensures IsAlnum((head + tail)[i].c) || (head + tail)[i].c in "-_.*+\0[]"
      {
        if i >= |head| { assert (head + tail)[i] == tail[i - |head|]; }
      }
    }
  }

  /** The characters the encoders may write raw avoid the query's separators and the
      characters `encodeURIComponent` would leave but these encoders escape. */
  lemma ValueAlphabetExcludes(c: char)
    requires IsAlnum(c) || c == '%' || c in "-_.*+\0"
    ensures c !in " &=!'()~[]"
  {
  }

  lemma KeyAlphabetExcludes(c: char)
    requires IsAlnum(c) || c == '%' || c in "-_.*+\0[]"
    ensures c !in " &=!'()~"
  {
  }

  /** An encoded value never holds a raw space, `&`, `=`, `!`, `'`, `(`, `)`, `~`, `[` or `]`. */
  lemma EncodeValueAlphabet(v: string)
    ensures forall i :: 0 <= i < |EncodeValue(v)| ==> EncodeValue(v)[i] !in " &=!'()~[]"
  {
    ValueToksLits(v);
    var e := EncodeValue(v);
    RenderAlphabet(ValueToks(v), "-_.*+\0");
    forall i | 0 <= i < |e|
      ensures e[i] !in " &=!'()~[]"
    {
      ValueAlphabetExcludes(e[i]);
    }
  }

  /** An encoded key never holds a raw space, `&`, `=`, `!`, `'`, `(`, `)` or `~`. */
  lemma EncodeKeyAlphabet(k: string)
    ensures forall i :: 0 <= i < |EncodeKey(k)| ==> EncodeKey(k)[i] !in " &=!'()~"
  {
    KeyToksLits(k);
    var e := EncodeKey(k);
    RenderAlphabet(KeyToks(k), "-_.*+\0[]");
    forall i | 0 <= i < |e|
      ensures e[i] !in " &=!'()~"
    {
      KeyAlphabetExcludes(e[i]);
    }
  }

  // ---------------------------------------------------------------------------------------
  // Decoding recovers what was encoded
  // ---------------------------------------------------------------------------------------

  /** Literal tokens are ASCII and never `%`. */
  predicate Decodable(ts: seq<Tok>) {
    forall i :: 0 <= i < |ts| && ts[i].Lit? ==> ts[i].c != '%' && ts[i].c as int < 0x80
  }

  function TokBytes(ts: seq<Tok>): seq<Byte>
    requires Decodable(ts)
  {
    if ts == [] then []
    else
      var b: Byte := match ts[0]
        case Lit(c) => if c == '+' then 0x20 else c as int
        case Esc(x) => x;
      [b] + TokBytes(ts[1..])
  }

  lemma {:induction false} DecodeRender(ts: seq<Tok>)
    requires Decodable(ts)
    ensures FormDecode(Render(ts)) == Some(TokBytes(ts))
  {
    if ts != [] {
      assert Decodable(ts[1..]) by {
        assert forall i :: 0 <= i < |ts[1..]| ==> ts[1..][i] == ts[i + 1];
      }
      DecodeRender(ts[1..]);
      var t := Render(ts);
      match ts[0]
      case Lit(c) =>
        assert t == [c] + Render(ts[1..]);
        assert t[1..] == Render(ts[1..]);
      case Esc(b) =>
        assert t == TokText(Esc(b)) + Render(ts[1..]);
        assert t[3..] == Render(ts[1..]);
        assert HexValue(t[1]) * 16 + HexValue(t[2]) == b;
    }
  }

  lemma {:induction false} TokBytesAppend(a: seq<Tok>, b: seq<Tok>)
    requires Decodable(a) && Decodable(b)
    ensures Decodable(a + b) && TokBytes(a + b) == TokBytes(a) + TokBytes(b)
  {
    assert Decodable(a + b) by {
      forall i | 0 <= i < |a + b| && (a + b)[i].Lit? ensures (a + b)[i].c != '%' && (a + b)[i].c as int < 0x80 {
        if i >= |a| { assert (a + b)[i] == b[i - |a|]; }
      }
    }
    if a != [] {
      assert (a + b)[0] == a[0] && (a + b)[1..] == a[1..] + b;
      assert Decodable(a[1..]) by {
        assert forall i :: 0 <= i < |a[1..]| ==> a[1..][i] == a[i + 1];
      }
      TokBytesAppend(a[1..], b);
    } else {
      assert a + b == b;
    }
  }

  lemma {:induction false} EscAllBytes(bs: seq<Byte>)
    ensures Decodable(EscAll(bs)) && TokBytes(EscAll(bs)) == bs
  {
    if bs != [] {
      assert EscAll(bs)[1..] == EscAll(bs[1..]);
      EscAllBytes(bs[1..]);
    }
  }

  lemma {:induction false} ValueToksBytes(s: string)
    ensures Decodable(ValueToks(s)) && TokBytes(ValueToks(s)) == Utf8String(s)
  {
    if s != [] {
      var c := s[0];
      EscAllBytes(Utf8(c));
      assert Decodable(ValueCharToks(c)) && TokBytes(ValueCharToks(c)) == Utf8(c);
      ValueToksBytes(s[1..]);
      TokBytesAppend(ValueCharToks(c), ValueToks(s[1..]));
    }
  }

  lemma {:induction false} KeyToksBytes(s: string)
    ensures Decodable(KeyToks(s)) && TokBytes(KeyToks(s)) == Utf8String(s)
  {
    if s != [] {
      var c := s[0];
      EscAllBytes(Utf8(c));
      assert Decodable(KeyCharToks(c)) && TokBytes(KeyCharToks(c)) == Utf8(c);
      KeyToksBytes(s[1..]);
      TokBytesAppend(KeyCharToks(c), KeyToks(s[1..]));
    }
  }

  /** A form decoder gives back the UTF-8 bytes of the value that was encoded. */
  lemma EncodeValueRoundTrip(v: string)
    ensures FormDecode(EncodeValue(v)) == Some(Utf8String(v))
  {
    ValueToksBytes(v);
    DecodeRender(ValueToks(v));
  }

  /** A form decoder gives back the UTF-8 bytes of the key that was encoded. */
  lemma EncodeKeyRoundTrip(k: string)
    ensures FormDecode(EncodeKey(k)) == Some(Utf8String(k))
  {
    KeyToksBytes(k);
    DecodeRender(KeyToks(k));
  }

  // ---------------------------------------------------------------------------------------
  // Splitting the serialised list
  // ---------------------------------------------------------------------------------------

  lemma {:induction false} SplitNoSep(p: string, sep: char)
    requires sep !in p
    ensures SplitOn(p, sep) == [p]
  {
    if p != "" {
      SplitNoSep(p[1..], sep);
      assert [p[0]] + p[1..] == p;
    }
  }

  lemma {:induction false} SplitPrefix(p: string, q: string, sep: char)
    requires sep !in p
    ensures SplitOn(p + [sep] + q, sep) == [p] + SplitOn(q, sep)
  {
    var t := p + [sep] + q;
    if p == "" {
      assert t[0] == sep && t[1..] == q;
    } else {
      assert t[0] == p[0] && t[1..] == p[1..] + [sep] + q;
      SplitPrefix(p[1..], q, sep);
      assert [p[0]] + p[1..] == p;
    }
  }

  lemma {:induction false} SplitJoin(parts: seq<string>, sep: char)
    requires |parts| >= 1 && forall i :: 0 <= i < |parts| ==> sep !in parts[i]
    ensures SplitOn(Join(parts, [sep]), sep) == parts
  {
    if |parts| == 1 {
      SplitNoSep(parts[0], sep);
    } else {
      SplitJoin(parts[1..], sep);
      SplitPrefix(parts[0], Join(parts[1..], [sep]), sep);
    }
  }

  /** A key and a value without `=` or `&`, joined by `=`: no `&`, and the pair decodes to
      the decodings of the two. */
  lemma DecodePairOf(ek: string, ev: string)
    requires forall i :: 0 <= i < |ek| ==> ek[i] !in "&="
    requires forall i :: 0 <= i < |ev| ==> ev[i] !in "&="
    requires FormDecode(ek).Some? && FormDecode(ev).Some?
    ensures '&' !in ek + "=" + ev
    ensures DecodePair(ek + "=" + ev) == Some((FormDecode(ek).value, FormDecode(ev).value))
  {
    assert '=' !in ek && '=' !in ev;
    SplitPrefix(ek, ev, '=');
    SplitNoSep(ev, '=');
    assert SplitOn(ek + "=" + ev, '=') == [ek, ev];
    var t := ek + "=" + ev;
    assert forall i :: 0 <= i < |t| ==> t[i] != '&' by {
      forall i | 0 <= i < |t| ensures t[i] != '&' {
        if i < |ek| { assert t[i] == ek[i]; }
        else if i > |ek| { assert t[i] == ev[i - |ek| - 1]; }
      }
    }
  }

  lemma JoinedMappings(ps: seq<(string, Value)>)
    ensures Join(Mappings(ps), "&") == "" <==> ps == []
    ensures ParseQuery(Join(Mappings(ps), "&")) == Some(Expected(ps))
  {
    if ps != [] {
      var parts := Mappings(ps);
      var text := Join(parts, "&");
      assert '=' in parts[0];
      assert text != "" by {
        if |parts| > 1 { assert text == parts[0] + "&" + Join(parts[1..], "&"); }
      }
      SplitJoin(parts, '&');
      DecodeMappings(ps);
    }
  }

  lemma {:induction false} DecodeMappings(ps: seq<(string, Value)>)
    ensures DecodePieces(Mappings(ps)) == Some(Expected(ps))
  {
    if ps != [] {
      DecodeMappings(ps[1..]);
      assert Mappings(ps)[1..] == Mappings(ps[1..]);
    }
  }
}
