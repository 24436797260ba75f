# hoxy `Request` — a Dafny model

This project models the `Request` entity of the hoxy intercepting HTTP proxy
(`lib/request.js`). A request is a record of validated fields: protocol,
hostname, port, method, root-relative url, headers, HTTP version and the body
source. Four pieces of logic operate on it:

- **Setters.** Each setter validates its value. On rejection it throws and
  the earlier value stays.
- **Addresses.** The default port is 80 or 443 by scheme, as in sections
  2.7.1 and 2.7.2 of RFC 7230. The declared port hides a default port that
  the `host` header did not spell out (section 5.4 of RFC 7230). `fullUrl`
  reads the URL in one mode and applies a partial update in the other.
- **Ingestion.** `_setHttpSource` builds a request from an inbound message in
  forward or reverse proxy mode.
- **Finalization.** `_finalize` normalises the body, `content-length`, the
  stripped headers and `host` before the request is sent.

Layout, one module per file:

| file | module | contents |
|---|---|---|
| wrappers.dfy | `Wrappers` | `Option` (JavaScript `undefined`), `Result` (a setter's new state or its error) |
| js_text.dfy | `JsText` | `parseInt` without a radix, `String(n)` for integers, ASCII `toUpperCase` |
| host_header.dfy | `HostHeader` | the two `host` header regular expressions and their declarative readings |
| request.dfy | `Requests` | the entity, the tables, the setters, default/declared port, `fullUrl` in both modes |
| ingest.dfy | `Ingestion` | `_setHttpSource` |
| finalize.dfy | `Finalization` | `_finalize` |

Modelling choices:

- A setter is a function returning `Result`: the new request, or the error
  it throws. The request passed in is then the state after a throw, so
  "the previous value is kept" holds by construction.
- `fullUrl(u)`, `_setHttpSource` and `_finalize` assign several fields in
  turn. They return `Update(req, thrown)`: the state of the object after the
  call, together with the error it threw, if any. Assignments made before a
  throw stay made, as they do on the JavaScript object
  (`Requests.SetFullUrl`, `Ingestion.SetHttpSourceThrows`).
- The protocol is stored as `Http | Https`. Its `Text()` is what the getter
  returns.
- The port setter applies `parseInt` to its argument's string form. The
  `host` header port is a Number, so ingestion passes it through `String(n)`.
  The lemma `ParseIntOfDecimal` proves that this gives `n` back.
- Headers are `map<string, Option<string>>`, and `None` is a header assigned
  `undefined`. Names are matched literally, as in lib/request.js.
- The parse of a URL (`url.parse`, after `url.resolve` in reverse mode) is
  an input record, `ParsedUrl`.
- The body source is `Source(original, size)`. `size` is what its `size()`
  reports; it is None when there is no such method or it reports `undefined`.
  In both of those cases, for a rewritten (non-original) body source,
  `content-length` ends up absent; an original source keeps whatever
  `content-length` it came with.

Behaviour of `lib/request.js` worth knowing, which the model keeps as the code has it:

- The port setter stores whatever non-zero value `parseInt` gives. It has no
  positivity check, so negative ports are accepted.
- With no body source, `_finalize` empties the body and then reads
  `_source._isOriginal`, which throws. The model has this as an explicit
  error, `MissingSource`, and the body is already emptied when it is raised.
  The `Body` class is not part of this model,
  so emptying the body is recorded by a flag and leaves the body source as it was.
- During ingestion the parsed port is a string. A target port of `"0"` is a
  truthy string, so the port setter runs and throws; the port is not left
  unset (`ZeroTargetPortThrows`). Only a `host` header port that reads as
  0 is skipped (`ZeroHeaderPortIgnored`).
- Port 443 is hidden in `https://a.com/x` only when a `host` header without
  a port is present. With no `host` header, the URL reads
  `https://a.com:443/x` (`Requests.FullUrlNoHostHeaderExample`).
- Running `_finalize` twice gives the same result as running it once for
  every hostname without a colon (`Finalization.FinalizeIdempotent`). A
  hostname with a colon can break this:
  `Finalization.FinalizeTwiceDiffersOnColonHostname` gives an input where a
  second run changes `host`.

## Model

| member | source | states |
|---|---|---|
| Requests.SetProtocol | lib/request.js:48-53 | accepted exactly for `'http:'` and `'https:'` (the table at lines 12-15); the getter then returns the value given; otherwise `invalid protocol` and nothing changes; validity is kept |
| Requests.SetHostname | lib/request.js:62-67 | undefined and the empty string are rejected; any other value is stored unchanged; only the hostname changes |
| Requests.SetPort | lib/request.js:76-82 | succeeds exactly when `parseInt` of the value is a number other than 0 (negative included) and stores that number; NaN and 0 throw `invalid port` |
| Requests.SetPortOfNumber | lib/request.js:176-179 | a non-zero Number handed to the port setter is stored as that same number, via its decimal string |
| Requests.SetMethod | lib/request.js:91-96 | undefined and empty are rejected; the stored method is upper case and equal to the input ignoring case |
| Requests.SetUrl | lib/request.js:105-110 | accepted exactly when the value starts with `/`; stored unchanged |
| Requests.DefaultPort | lib/request.js:190-192 | 443 exactly when the protocol is https, 80 otherwise, an unset protocol included |
| Requests.DeclaredPort | lib/request.js:197-206 | the stored port, except None when the port is the default, a truthy `host` header is present, and that header does not match `^[^:]+:(\d+)$` |
| Requests.DeclaredPortHiddenExample | lib/request.js:197-206 | every http request on port 80 with `host: example.com` declares no port |
| Requests.DeclaredPortKeptExample | lib/request.js:197-206 | every http request on port 80 with `host: example.com:80` declares port 80 |
| Requests.SetFullUrl | lib/request.js:125-132 | write mode assigns the truthy components in order (protocol, hostname, port, path) and succeeds exactly when each is accepted; an invalid protocol throws `invalid protocol` and changes nothing; an invalid port throws `invalid port` with protocol and hostname already assigned and port and url untouched; an invalid path throws `invalid url` with protocol, hostname and port already assigned; absent components keep the old value; no other field changes |
| Requests.WriteAddress | lib/request.js:128-129 | the protocol then the hostname: an invalid protocol throws and changes nothing, otherwise both are assigned where truthy and nothing else changes |
| Requests.WritePortAndPath | lib/request.js:130-131 | the port then the path: an invalid port throws and changes nothing; an invalid path throws with the port already assigned; only port and url change |
| Requests.FullUrlRoundTrip | lib/request.js:125-141 | read mode against write mode: handing write mode the protocol, hostname, declared port and url that read mode renders succeeds and leaves a valid, fully set request unchanged |
| Requests.FullUrlNonDefaultPortExample | lib/request.js:133-140 | read mode: any request with https, a.com, 8443, /x reads `https://a.com:8443/x`, whatever its headers |
| Requests.FullUrlDefaultPortExample | lib/request.js:133-140 | read mode: https, a.com, 443, /x with `host: a.com` reads `https://a.com/x` |
| Requests.FullUrlNoHostHeaderExample | lib/request.js:197-206 | read mode: the same fields with no `host` header read `https://a.com:443/x` |
| HostHeader.ParseHostHeader | lib/request.js:161 | returns groups 1 and 3 of `^([^:]+)(:([\d]+))?$` exactly when the header matches with those groups; the match is unique |
| HostHeader.HasExplicitPort | lib/request.js:200 | true exactly when the header matches `^[^:]+:(\d+)$` |
| HostHeader.ExplicitPortOfJoin | lib/request.js:200 | a name without colons, a colon, and a rendered non-negative port always match the port pattern |
| JsText.ParseIntOfDecimal | lib/request.js:77-78 | `parseInt(String(n) + t)` is n when t does not continue the digits (with the `0x` caveat for n = 0) |
| JsText.ParseIntSkipsWhiteSpace | lib/request.js:77 | leading white space does not change what `parseInt` reads |
| JsText.ParseIntOfDigitRun | lib/request.js:77-78 | an optional `-`, a decimal digit run and text that does not continue it (such as `"8080/x"` or `"-5"`) read as the signed run, so the port setter accepts negative numbers |
| JsText.ParseIntOfHexRun | lib/request.js:77 | with no radix, an optional `-`, `0x` or `0X` and a hexadecimal digit run read as the signed run in radix 16 |
| JsText.ParseIntNaN | lib/request.js:77-78 | the empty string, and text starting with anything but white space, a sign or a digit, read as NaN, which the port setter rejects |
| JsText.ParseIntUndefined | lib/request.js:164 | an absent digit group, converted to `"undefined"`, reads as NaN |
| JsText.ToUpperCase | lib/request.js:95 | the result is upper case and equal to the input ignoring case |
| JsText.UpperCaseIsUnique | lib/request.js:95 | two upper-case strings equal ignoring case are equal, so the stored method is determined |
| Ingestion.HintFromHost | lib/request.js:157-171 | the name of a truthy `host` matching the ingestion pattern, and its port when that reads as non-zero; nothing otherwise |
| JsText.ParseIntOfDigits | lib/request.js:164 | a non-empty digit group reads as its decimal value |
| Ingestion.IngestedHeaders | lib/request.js:146-152 | in reverse mode `host` becomes the resolved authority and nothing else changes; in forward mode the headers are unchanged |
| Ingestion.IngestPort | lib/request.js:176-179 | a truthy parsed port string goes through the setter; otherwise a header port is stored; otherwise the port is left as it was; a throw is always the setter's `invalid port` for the parsed string, with nothing changed |
| Ingestion.AssignAddress | lib/request.js:174-179 | protocol defaults to `http:`; hostname and port come from the parse first and the `host` header second; fails exactly on an invalid protocol, no hostname, or a parsed port that reads as 0/NaN; the first failing setter names the error, an invalid protocol changes nothing, a missing hostname leaves the protocol assigned, and a rejected port leaves protocol and hostname assigned |
| Ingestion.AssignRequestLine | lib/request.js:181-182 | method and url are assigned through their setters and fail exactly as those do; a falsy method throws `invalid method` and changes nothing; a rejected path throws `invalid url` with the upper-cased method already assigned |
| Ingestion.SetHttpSource | lib/request.js:145-185 | fails with the reverse-proxy error exactly in reverse mode without a protocol, changing nothing; otherwise succeeds exactly when every setter accepts; validity is kept |
| Ingestion.SetHttpSourceAssigns | lib/request.js:146-184 | on success the headers, version, protocol (default `http:`), hostname and port (target first, `host` header second), upper-cased method and url are as lib/request.js derives them, and the inbound message is the original body source |
| Ingestion.AssignFields | lib/request.js:174-184 | the assignments from the protocol on fail exactly when one setter rejects, never with the reverse-proxy error, and leave headers and version alone |
| Ingestion.AssignFieldsThrows | lib/request.js:174-184 | when the address is accepted, a falsy method throws `invalid method` with protocol, hostname and port assigned, and a rejected path throws `invalid url` with the method assigned too; everything later is untouched |
| Ingestion.SetHttpSourceThrows | lib/request.js:172-184 | a failed ingestion past the reverse-proxy check has assigned the version and headers; the first setter that throws (protocol, hostname, port, method, url) names the error, each field before it is assigned as on success, and it and every later field, the body source included, keep their old values |
| Ingestion.ForwardExample | lib/request.js:145-185 | `GET http://a.com:<n>/p` gives http:, a.com, port n, /p, GET, and the headers as they came, for every non-zero n |
| Ingestion.ReverseExample | lib/request.js:145-185 | `GET /p` with `host: client.example` against https://origin.example/ gives https:, origin.example, /p, no port, and `host: origin.example` |
| Ingestion.ReverseWithoutProtocolExample | lib/request.js:151-155 | a resolved target without a protocol fails with the reverse-proxy error and assigns nothing |
| Ingestion.ZeroTargetPortThrows | lib/request.js:176-179 | a target port `"0"` makes ingestion throw `invalid port`, from any starting request |
| Ingestion.ZeroHeaderPortIgnored | lib/request.js:164-167 | `host: a.com:0` gives the name a.com and no port |
| Finalization.StripHeaders | lib/request.js:227-234 | no removed name and no tombstone remains; every other entry is kept with its value |
| Finalization.BodyLengthHeaders | lib/request.js:217-225 | an original source keeps the headers; otherwise `content-length` is present exactly when a size is reported and then equals it; other headers are kept |
| Finalization.Finalize | lib/request.js:209-241 | throws exactly when there is no source, after emptying the body; the body is emptied for GET/HEAD/TRACE; afterwards no removed name or tombstone remains; other headers keep their values; `content-length` passes through for an original source and follows the size otherwise; `host` is the hostname plus the declared port computed before the rewrite; no other field changes |
| Finalization.HostRewriteKeepsDeclaredPort | lib/request.js:236-240 | for a hostname without a colon, the rewritten `host` header yields the same declared port |
| Finalization.FinalizeIdempotent | lib/request.js:209-241 | with a source and a hostname without a colon, a second `_finalize` changes nothing |
| Finalization.FinalizeTwiceDiffersOnColonHostname | lib/request.js:236-240 | for any http request with hostname `::1`, port 80, a body source and no `host` header, the first run writes `host: ::1:80` and the second writes `host: ::1` |
| Finalization.IngestedRequestFinalizes | lib/request.js:183-184 | a request fresh from ingestion finalizes without error, and its `content-length` passes through |

## Left out

- The interception pipeline (handler registration, sequential execution, failure propagation) is not part of this model. It lives outside lib/request.js, and it is asynchronous by nature.
- `url.parse` and `url.resolve` (section 5.2 of RFC 3986) are foreign library calls. Their result is the input record `ParsedUrl`, and in reverse mode the caller supplies the parse of the resolved target.
- The `Body` superclass is not part of this model: stream buffering, `finalize()`, `size()` and the `string` setter. Emptying the body is the `bodyCleared` flag. The call to the body source's `finalize()` (line 220) is not modelled, since its effect is on an opaque stream.
- The getters are the record's fields, and `ProtocolText` for the protocol.
- The headers setter's `_.extend({}, headers)` copy is plain value assignment of the map.
- `fullUrl(u)` chooses its mode by the truthiness of `u`. This is two functions, `FullUrl` (read) and `SetFullUrl` (write), so `fullUrl('')` is the read mode.
- A freshly constructed request has `headers === undefined` in lib/request.js. In the model `headers` is always a map; a request before ingestion, whose headers are `undefined`, is not modelled, because every request that reaches `fullUrl` or `_finalize` has been through ingestion.
- Requests.FullUrlRoundTrip: proves that write mode accepts the components read mode renders, not that `url.parse` of the rendered text yields them. `url.parse` lower-cases the hostname and leaves a `#fragment` out of the path, and a negative port or a bare IPv6 hostname such as `::1` does not come back as a port, so in those cases `fullUrl(fullUrl())` can change the request.
- JsText.ToUpperCase: only ASCII letters are upper-cased, because full Unicode case mapping (which can change the length, e.g. for 'ß') is outside Dafny's string model.
- JsText.ParseIntOfDecimal: the Number's rounding above 2^53, and the exponent form `String(n)` uses from 10^21, are not modelled, because integers are unbounded here.
- Setter inputs that are not strings (numbers other than the header port, arrays, objects) are not modelled. Their JavaScript string conversion is outside the model.
- `null` and `undefined` header values are both `None`. The two differ only for the `host` header written in reverse mode when the resolved URL has no authority, and ingestion then throws for lack of a hostname.
- On a throw, `_setHttpSource` has already assigned some fields of `this` and rewritten the inbound `host` header. The model returns the request's state at the throw and does not return the mutated inbound message.
