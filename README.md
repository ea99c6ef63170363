# like-fetch, modelled in Dafny

like-fetch wraps one HTTP call. It prepares the request and then runs an attempt loop.

Preparing the request means:
- copying the options and removing the library's own (`query`, `retry`, `timeout`, `validateStatus`, `requestType`, `responseType`, `signal`);
- defaulting the `content-type` / `accept` headers by declared body kind;
- appending a query object to the URL through its own form encoder, `FetchURLSearchParams`.

The attempt loop retries under a backoff generator. For each attempt it:
- checks the response against a status-validation rule;
- decides after every failure whether to reject now, give up, or retry with a new `AbortController`.

`create` binds a base URL and default options. `LikeFetchError` is the error a refused status produces.

The project models each of these pieces:

- `js.dfy` (module `Js`): the JavaScript values the library inspects.
  - Values are undefined, null, booleans, integral numbers, strings, arrays, objects as ordered entries, and functions as their source text and their answer to a status.
  - Also here: truthiness, `String(v)`, `Object.assign`'s view of own properties, responses and thrown errors as values.
- `url_search_params.dfy` (module `SearchParams`): `FetchURLSearchParams`, a class over a `seq` of pairs whose `append` extends it.
  - `encodeURIComponent` with full UTF-8 escapes.
  - The two `replace` passes of `encodeKey`/`encodeValue`, modelled as written, over the `ENCODE_CHARS` table.
  - A character-by-character reference encoding that they are proved equal to.
  - A form decoder that the whole `toString` output is proved to decode back to the pairs.
- `query.dfy` (module `QueryString`): `paramsAppend` and `objectToSearchParams` as methods with loops, both proved against the pairs they append. `handleURL` works from an already split URL.
- `options.dfy` (module `FetchOptions`):
  - `remove` over an `Options` class.
  - `handleRequestTypes` / `handleResponseTypes` as in-place methods, proved equal to functions that state their effect.
  - `handleTimeout`, `handleValidateStatus` and `customError`.
- `error.dfy` (module `Errors`): the `LikeFetchError` class.
- `attempts.dfy` (module `Attempts`): the `for await` loop of `index.js:30-79` over what the environment decides for each round.
  - A `Round` holds the transport outcome, the body decoding, whether the attempt's timeout source fired, what backoff does, and whether the caller's signal or the controller is aborted after the wait.
  - `Settle` is the loop as a function.
  - `FetchPromise.Run` is the loop as an imperative method: a promise whose `controller` field is replaced before every new attempt.
- `create.dfy` (module `Create`): `create` and the `api` function it returns.
- `fetch.dfy` (module `Fetch`): the preparation of `fetch()` (`index.js:10-28`), and `fetch` followed to the end of its loop.

Which environment inputs are parameters:
- The transport, the body decoding, the backoff generator, timers and `new URL(...)` are inputs.
- So are `JSON.stringify`, `new URLSearchParams(body).toString()` and `body.getBoundary()` (the record `Serializers`). The last two return a string or the error they throw.

## Model

| member | source | states |
|---|---|---|
| SearchParams.FetchURLSearchParams.constructor | lib/url-search-params.js:12-14 | a new instance holds no pairs |
| SearchParams.FetchURLSearchParams.Size | lib/url-search-params.js:16-18 | `size` is the number of pairs held |
| SearchParams.FetchURLSearchParams.Append | lib/url-search-params.js:20-22 | `append` adds exactly one pair at the end; earlier pairs keep their order, and duplicates are kept |
| SearchParams.FetchURLSearchParams.ToString | lib/url-search-params.js:24-26 | the result is `''` exactly when there are no pairs; a form decoder splitting at `&` and `=` recovers every key and value in insertion order, as their UTF-8 bytes |
| SearchParams.Serialize | lib/url-search-params.js:24-26 | `map(mapping).join('&')` is empty only for no pairs, and decodes back to the list of pairs, duplicates included |
| SearchParams.Mapping | lib/url-search-params.js:29-34 | one pair renders as `encodeKey(k) + '=' + encodeValue(String(v))`: it holds no `&`, and splitting it at its `=` decodes to the key's and the value's UTF-8 bytes |
| SearchParams.Mappings | lib/url-search-params.js:25 | one rendered pair per pair, in order |
| SearchParams.EncodeURIComponent | lib/url-search-params.js:44 | every character `encodeURIComponent` writes is alphanumeric, `%`, or one of `-_.!~*'()` |
| SearchParams.ReplaceSpecialsTokens | lib/url-search-params.js:45 | on text made of whole escapes and characters other than `%`, the `[!'()~]\|%20\|%00` pass rewrites each piece on its own: `!'()~` become their escapes, `%20` becomes `+`, `%00` the raw NUL, and every other piece stays |
| SearchParams.ReplacerDecodes | lib/url-search-params.js:48-50 | every replacement `replacer` takes from `ENCODE_CHARS` form-decodes to the same bytes as the text it replaces |
| SearchParams.ReplaceEscTokens | lib/url-search-params.js:39-40 | on such text, a case-insensitive `%5B` / `%5D` pass replaces exactly the escapes of that byte by the literal bracket |
| SearchParams.EncodeValue | lib/url-search-params.js:43-46 | `encodeURIComponent` followed by the `[!'()~]\|%20\|%00` replacement equals the per-character rule: space is `+`, NUL is raw, alphanumerics and `-_.*` stay, everything else is upper-case `%XY` of its UTF-8 bytes |
| SearchParams.EncodeKey | lib/url-search-params.js:36-41 | `encodeKey` is that rule except that `[` and `]` stay literal, after both case-insensitive `%5B`/`%5D` passes |
| SearchParams.EncodeValueAlphabet | lib/url-search-params.js:43-46 | an encoded value never holds a raw space, `&`, `=`, `!`, `'`, `(`, `)`, `~`, `[` or `]` |
| SearchParams.EncodeKeyAlphabet | lib/url-search-params.js:36-41 | an encoded key never holds a raw space, `&`, `=`, `!`, `'`, `(`, `)` or `~` |
| SearchParams.EncodeValueRoundTrip | lib/url-search-params.js:43-46 | form-decoding an encoded value gives back the UTF-8 bytes of the value |
| SearchParams.EncodeKeyRoundTrip | lib/url-search-params.js:36-41 | form-decoding an encoded key gives back the UTF-8 bytes of the key |
| SearchParams.SpaceExample | lib/url-search-params.js:7 | `encodeValue('a b')` is `a+b` |
| SearchParams.AsciiEscape | lib/url-search-params.js:1-9 | an ASCII character outside alphanumerics, `-_.*`, space and NUL comes out as one upper-case `%XY` escape |
| SearchParams.ExclamationExample | lib/url-search-params.js:2-6 | `!` comes out as `%21` |
| SearchParams.ApostropheExample | lib/url-search-params.js:2-6 | `'` comes out as `%27` |
| SearchParams.TildeExample | lib/url-search-params.js:2-6 | `~` comes out as `%7E` |
| SearchParams.NulExample | lib/url-search-params.js:8 | NUL comes out as the raw character |
| SearchParams.OpenBracketExample | lib/url-search-params.js:43-46 | a value escapes `[` as `%5B` |
| SearchParams.CloseBracketExample | lib/url-search-params.js:43-46 | a value escapes `]` as `%5D` |
| SearchParams.PlainKey | lib/url-search-params.js:36-41 | a key of alphanumerics, `-_.*` and brackets is written unchanged |
| SearchParams.BracketKeyExample | lib/url-search-params.js:39-40 | the key `items[]` encodes as `items[]` |
| SearchParams.PlainKeyValue | lib/url-search-params.js:43-46 | a value of alphanumerics and `-_.*` is written unchanged |
| SearchParams.TwoByteEscape | lib/url-search-params.js:44 | a character of two UTF-8 bytes comes out as the escapes of those two bytes |
| SearchParams.Utf8Example | lib/url-search-params.js:44 | `é` is written `%C3%A9` |
| SearchParams.Utf8 | lib/url-search-params.js:44 | one to four bytes per code point; ASCII is one byte, and every byte of a non-ASCII code point is at least 0x80 |
| QueryString.QueryPairs | index.js:186-194 | a falsy query yields no pairs; every value yielded is a non-nullish, non-array leaf; an object whose values are all leaves yields exactly its entries, in order |
| QueryString.ParamsAppend | index.js:196-208 | appends exactly the pairs of `Flattened(key, value)` after those already there |
| QueryString.Flattened | index.js:196-208 | every appended pair holds a non-nullish, non-array leaf under `key` followed by `[]` once per level of array nesting |
| QueryString.ArrayOrder | index.js:199-204 | an array's items are appended in order: the pairs of `xs + ys` are those of `xs` then those of `ys` |
| QueryString.NestedArray | index.js:202 | `[[x]]` under `key` gives the single pair `key[][]`, `x` |
| QueryString.QueryExample | index.js:186-208 | `{items: ['a','b'], skip: undefined, none: null}` gives two `items[]` pairs and nothing for the nullish keys |
| QueryString.PlainPairs | index.js:181 | two plain pairs under one key are written `k=a&k=b` |
| QueryString.ObjectToSearchParams | index.js:186-194 | returns the same params object; a falsy query appends nothing; otherwise the pairs of each key are appended in enumeration order |
| QueryString.SearchPart | index.js:181 | the search part is `''` exactly when there are no params, and otherwise `?` followed by text that decodes to the params |
| QueryString.HandleURL | index.js:169-184 | the URL is origin + path + search part + fragment, the search part built from the URL's own params followed by the query's |
| QueryString.ExistingParamsFirst | index.js:173-180 | the decoded search part lists the URL's own params before the query's |
| QueryString.StringPairs | index.js:174-176 | each existing URL parameter is appended as a string pair, in order |
| FetchOptions.Options.constructor | index.js:11 | `Object.assign({}, options)`: a copy of the own properties |
| FetchOptions.Options.Remove | index.js:163-167 | returns the previous value (undefined when absent); the key is absent afterwards; every other key is unchanged |
| FetchOptions.WithHeader | index.js:87 | a header store replaces only `headers`, and only when it is an object, which then holds the new header; on any other `headers` nothing changes |
| FetchOptions.EnsureHeaders | index.js:84 | afterwards `headers` is truthy; a truthy `headers` is kept; a missing one becomes `{}` (with no `content-type`); no other key changes |
| FetchOptions.DefaultHeader | index.js:87-104 | a truthy header is kept and nothing changes; an absent one is set when `headers` is an object; no key but `headers` changes |
| FetchOptions.RequestTypeEffect | index.js:82-109 | no type changes nothing; only `headers`/`body` change and no key disappears; an unknown type throws `requestType not supported (…)` after `headers` was created; only an unknown type, `form` or `url` can throw; `url` throws what `URLSearchParams` throws on the body, after `content-type` was set |
| FetchOptions.RequestTypeHeaders | index.js:84-105 | with a type, `headers` is truthy afterwards, and an object when it was missing; an existing `content-type` is kept |
| FetchOptions.RequestTypeContentType | index.js:86-100 | `json`, `url` and `text` set their own `content-type` when there is none |
| FetchOptions.RequestTypeBody | index.js:88-94 | the body changes only for `json`/`url` with a defined body, and then becomes `JSON.stringify(body)` or the form encoding of the body; when the form encoding throws, the body is kept and that error is thrown |
| FetchOptions.HandleRequestTypes | index.js:82-109 | the in-place edits and the throw are exactly RequestTypeEffect's |
| FetchOptions.ResponseTypeEffect | index.js:111-126 | no type changes nothing; `headers` is created when missing, also before a throw; `accept` is set only when absent, for `json` and `file`; `text` sets no header; it throws exactly for an unknown type |
| FetchOptions.HandleResponseTypes | index.js:111-126 | the in-place edits and the throw are exactly ResponseTypeEffect's |
| FetchOptions.TimeoutFor | index.js:128-132 | a timeout source exists exactly when the timeout is a non-zero number, and then it has that duration |
| FetchOptions.StatusCode | index.js:148-160 | corrected code: `ERR_BAD_REQUEST` exactly for 400-499, `ERR_BAD_RESPONSE` exactly for 500-599, undefined otherwise |
| FetchOptions.StatusCodeAsWritten | index.js:151-159 | the code as written: `ERR_BAD_REQUEST` exactly for 400 ≤ status < 499, `ERR_BAD_RESPONSE` exactly for 500 ≤ status < 599 |
| FetchOptions.StatusCodeAsWrittenMisses | index.js:151-155 | 499 and 599 get no code as written; every other status gets the same code under both definitions |
| FetchOptions.CustomError | index.js:148-160 | a LikeFetchError with message `Request failed with status code <status>`, the code as written (none for 499 and 599), the response, and an undefined body |
| FetchOptions.NewCustomError | index.js:148-160 | a fresh LikeFetchError object with exactly those fields, its code as written |
| FetchOptions.ValidateStatus | index.js:134-146 | a falsy rule (`0` included) never fails; a number fails unless it equals the status; a function fails when its answer is falsy; `'ok'` fails when the status is not 200-299; those failures are customError; any other truthy rule throws `validateStatus not supported (…)` |
| Errors.LikeFetchError.constructor | lib/error.js:2-8 | `message`, `code` and `response` hold the arguments, and `body` is undefined |
| Errors.LikeFetchError.SetBody | index.js:55 | `error.body = …` replaces just the body |
| Errors.LikeFetchError.AsThrown | lib/error.js:10-12 | the name is `LikeFetchError` whatever the arguments |
| Attempts.Attempt | index.js:32-45 | the try block resolves exactly when the transport answered, validation passed, and (for json/text) the body decoded; the value is the decoded body or the response; otherwise it throws the transport error, the validation error, or the decoding error |
| Attempts.Examined | index.js:47-57 | an AbortError becomes the TimeoutError exactly when a timeout source exists and fired; an error carrying a response gets the decoded body for json/text when decoding succeeds, and keeps its body otherwise |
| Attempts.Caught | index.js:46-77 | AbortError and LikeFetchError are rejected as they are; otherwise, giving up rejects with the error; after a wait, an aborted caller's signal rejects with its reason, then an aborted controller with its reason; the round retries exactly when none of these holds |
| Attempts.RoundVerdict | index.js:32-77 | one pass of the loop body resolves exactly when the try block succeeds, with its value, and otherwise decides as the catch block does on the try block's error |
| Attempts.Settle | index.js:30-79 | the loop stops at the first round that does not retry, with that round's outcome; the attempts made are that round's position; it stays pending exactly when every round retries and the generator ends |
| Attempts.AbortController.Abort | index.js:69 | a first abort records the reason; a later abort changes nothing |
| Attempts.FetchPromise.constructor | index.js:26-27 | a new promise is pending, with no resolve/reject calls and no attempts; its `controller` is a fresh, unaborted AbortController, the only one held so far |
| Attempts.FetchPromise.Resolve | index.js:40-42 | the first settlement wins; the call is counted |
| Attempts.FetchPromise.Reject | index.js:60-71 | the first settlement wins; the call is counted |
| Attempts.SettleFrom | index.js:30-79 | from round `i`, a retry moves on to the next round with one more attempt, and anything else settles there after one attempt |
| Attempts.DistinctAppend | index.js:76 | appending a controller not yet held keeps the controllers pairwise distinct |
| Attempts.FetchPromise.RunTry | index.js:32-45 | the try block resolves exactly when Attempt succeeds, with its value and one call, and returns no error then; otherwise it hands on Attempt's error; one transport call is counted |
| Attempts.FetchPromise.RunCatch | index.js:46-77 | the catch block settles exactly as Caught says, with one resolve/reject call, or installs a fresh, unaborted controller; when it settles after a wait, the controller holds the abort reason the round found, and otherwise none |
| Attempts.FetchPromise.RunAttempt | index.js:32-76 | one pass of the loop body: it settles exactly as RoundVerdict says with one resolve/reject call, or installs a fresh, unaborted controller |
| Attempts.FetchPromise.Run | index.js:30-79 | the callback ends as Settle says, with exactly one resolve or reject when it settles and none otherwise; a new controller, distinct from every earlier one, is installed before every further attempt |
| Attempts.AbortNotFromTimeout | index.js:48-62 | an abort the timeout did not cause is rejected as AbortError after one attempt, and what backoff would do makes no difference |
| Attempts.TimeoutConsultsBackoff | index.js:48-76 | an abort caused by the timeout becomes TimeoutError and goes to backoff: giving up rejects with it, a quiet wait retries |
| Attempts.ValidationFailureSingleAttempt | index.js:36-62 | a refused status ends the loop on the first attempt whatever the budget, rejecting with customError's LikeFetchError (its code as written) and the decoded body when there is one |
| Attempts.SuccessResolves | index.js:38-45 | a response that passes validation (and decodes) resolves on that attempt |
| Attempts.UserAbortAfterBackoff | index.js:67-68 | an aborted caller's signal found after a wait rejects with its reason; no further attempt |
| Attempts.ControllerAbortAfterBackoff | index.js:69 | an aborted controller found after a wait rejects with its reason; no further attempt |
| Attempts.RetryExhaustion | index.js:31-76 | a target that always fails some other way, with N quiet waits and then a give-up, makes N + 1 attempts and rejects with the last error |
| Attempts.TimeoutIsRetried | index.js:48-65 | `timeout: 1` with one retry: two attempts, rejected with TimeoutError |
| Attempts.UserSignalIsNotRetried | index.js:48-62 | an aborted caller's signal: one attempt, rejected with the AbortError, whatever follows |
| Create.CreateApi | lib/create.js:1-5 | an object or array as first argument becomes the default options, with no base URL; otherwise the arguments are kept, undefined options becoming `{}` |
| Create.ForwardedUrl | lib/create.js:8 | with a truthy base URL the result is `String(base) + url`; otherwise it is `url`; `url` is always its suffix |
| Create.MergedOptions | lib/create.js:9 | every key of the defaults and of the call-site options is present; call-site options win on shared keys |
| Create.Api | lib/create.js:7-12 | one call of `fetch` with the forwarded URL and the merged options, returning its result |
| Create.ObjectAsDefaults | lib/create.js:2-5 | with an object as first argument no prefix is added and the object supplies the defaults |
| Create.CallSiteWins | lib/create.js:9 | a key of the call-site object literal keeps its call-site value in the merge |
| Create.BaseUrlExample | lib/create.js:1-12 | `create('https://example.com', {method: 'POST'})` then `api('/x', {body: 'b'})` calls `fetch('https://example.com/x', {method, body})` |
| Js.ToJSString | lib/url-search-params.js:44 | `String(v)`: a string is itself; an integer below 10^21 in magnitude is an optional `-` (exactly for negatives) then digits; an object is `[object Object]`; `[]` is `''`; a one-item array is its item's string, `''` for a nullish item |
| Js.OwnProps | index.js:11 | the own properties `Object.assign` copies: none for a value that is not an object, array or string; an object's keys are exactly its entries' keys, with the entry's value when keys are distinct |
| Js.LookupAgrees | index.js:11 | with distinct keys, reading a property and reading it from the `Object.assign` copy give the same value |
| Js.FalsyValues | index.js:83 | exactly undefined, null, `false`, `0` and `''` are falsy |
| Js.EntriesToMapLast | lib/create.js:9 | Object.assign copies a key with the value of its last occurrence |
| Fetch.EditedOptions | index.js:20-21 | the first throw stops the edits; only `headers` and `body` are ever added or replaced |
| Fetch.Prepare | index.js:11-23 | the in-place preparation equals Prepared |
| Fetch.RemovedInTurn | index.js:12-18 | removing the seven keys one by one removes exactly the library keys, and each removal reads the caller's value |
| Fetch.Prepared | index.js:10-24 | within the model's inputs, fetch() throws exactly what the header editing of the options without the library keys throws; otherwise the transport gets exactly the edited options, and the loop, the backoff generator and the URL read exactly the caller's values |
| Fetch.UrlWithQuery | index.js:169-184 | the URL keeps its origin, path and fragment around the search part; the search part is `''` exactly when neither the URL nor the query gives a pair, and otherwise `?` followed by text that decodes to the URL's own params and then the query's |
| Fetch.LibraryKeysStripped | index.js:11-21 | no library option reaches the transport; every other option other than `headers` and `body` passes unchanged |
| Fetch.Fetch | index.js:10-79 | within the model's inputs, fetch() throws exactly when the preparation throws; otherwise it returns a new promise whose loop settles as Settle says, with resolve/reject called once when it settles and distinct controllers |
| Fetch.NoOptions | index.js:10-24 | with no options, the transport gets no options and the URL keeps only its own params |
| Fetch.UnsupportedRequestType | index.js:108 | a truthy request type other than `json`, `url`, `text` and `form` makes fetch() throw `requestType not supported (<type>)` before any attempt |

## Left out

- The network: the `cross-fetch` call (index.js:34) is a per-round `Transport` outcome. `AbortSignal.any` (index.js:33) is left out: which source fired is carried by the error name and the round's flags.
- Body decoding: `response.json()` / `response.text()` (index.js:39, 55) are per-round results.
- Timers: `AbortSignal.timeout` (index.js:131) is a per-round flag saying whether this attempt's timeout source fired. Negative or non-finite timeouts, which the platform rejects, are not modelled.
- `like-retry`: its generator is the sequence of rounds. Each `backoff(error)` is `Wait` or `GiveUp`, and a give-up rethrows the triggering error. When the generator ends the promise stays pending. Delay strategies are outside the model.
- Concurrency: `fetch` returns the promise before the loop runs, and anyone may call `promise.controller.abort()` at any time. `Fetch.Fetch` runs the loop to its end. An abort with no reason during an attempt appears as that attempt's AbortError. An abort with a reason `err` (by `promise.controller.abort(err)` or on the caller's signal) makes the transport reject with `err` itself; such a round is a transport failure with `err`, and `userAbort` / `controllerAbort` set so that the catch block rejects with the reason after the wait (index.js:68-69). An abort during a wait appears as `controllerAbort`.
- `lib/get-signal-error.js` is folded into `Attempts.Examined`: a timeout source that fired yields the `TimeoutError` DOMException, code 23.
- The URL parser: `new URL(url)` (index.js:170) is replaced by an already split `ParsedUrl`.
- Strings are sequences of Unicode code points, not UTF-16 code units. So the URIError that `encodeURIComponent` throws on a lone surrogate, which makes fetch() throw through `toString()` (index.js:178), cannot arise. Also, `Js.OwnEntries` gives a string one key per code point, where `Object.assign({}, '😀')` gives one per code unit.
- Fetch.Prepared: the synchronous throws of `new URL(url)` on an invalid URL (index.js:170), of `AbortSignal.timeout` on a negative or non-finite timeout (index.js:131) and of `encodeURIComponent` on a lone surrogate are outside the model's inputs, so neither Prepared nor Fetch.Fetch has them.
- The credentials that `origin` omits are not modelled.
- `JSON.stringify`, `new URLSearchParams(body).toString()` and `body.getBoundary()` are opaque functions. `JSON.stringify` is total, because the values that make it throw (cycles, BigInt) do not exist in the model.
- An object literal with a repeated key: JavaScript keeps one property, while `Js.Value` keeps both entries. Property reads see the first, the `Object.assign` copy the last, and the two agree when keys are distinct (`Js.LookupAgrees`); `QueryString.QueryPairs` yields a pair for each entry.
- Numbers are integers: fractions, NaN and -0 are not modelled.
- Js.ToJSString: writes every integer in plain digits. JavaScript switches to exponent form from 10^21 on (`String(1e21)` is `1e+21`), and integers beyond 2^53 are not held exactly; neither is modelled, so query text, error messages and forwarded URLs built from such numbers differ.
- Objects have no prototype: inherited enumerable keys, getters and custom `toString` are not modelled.
- A validation predicate is a total `int -> bool`, so a predicate that throws or aborts is not modelled.
- `opts.headers` is the caller's own headers object, and index.js edits it in place. The model edits a copy, so that aliasing is not captured.
- Header and body stores into a non-object `headers` (an array or a function) are dropped, as assignments to primitives are.
- `Create.MergedOptions`: "neither input is mutated" holds trivially, because values are immutable here.
- `node.js`, `browser.js` and `test.js` are binding glue and network tests, and are not part of this model.

Behaviours of index.js worth noting:
- the backoff wait is not cut short by the caller's signal; the signals are checked after the wait (index.js:65-69);
- an unsupported `validateStatus` is thrown as a plain error at the first response and then retried like any other failure (index.js:144);
- a body that fails to decode is retried (index.js:39);
- `customError` gives 499 and 599 no code (index.js:151, 155); the model keeps that, see Findings.

## Findings

| source | as written | input that shows it | evidently intended | confidence | as-written member | corrected member |
|---|---|---|---|---|---|---|
| index.js:151, 155 | `status >= 400 && status < 499` and `status >= 500 && status < 599` | status 499 (and 599) gets code undefined | every 4xx is `ERR_BAD_REQUEST` and every 5xx is `ERR_BAD_RESPONSE`, the axios convention these codes come from | medium; not executed | FetchOptions.StatusCodeAsWritten (StatusCodeAsWrittenMisses) | FetchOptions.StatusCode |
