/**
 * Ingestion: turning a raw inbound message, in forward or reverse proxy
 * mode, into the fields of a request. The request-target arrives already
 * parsed (resolved against the reverse-proxy base URL first in reverse
 * mode); URL parsing and resolution are outside this model.
 */
module Ingestion {
  import opened Wrappers
  import opened JsText
  import HostHeader
  import opened Requests

  /** The fields of the raw inbound message that ingestion reads. */
  datatype Inbound = Inbound(httpMethod: Option<string>, headers: Headers, httpVersion: Option<string>)

  /** What the `host` header offers as a fallback: a name, and a port when it is non-zero. */
  datatype HostHint = HostHint(name: Option<string>, port: Option<int>)

  /**
   * The name and port recovered from a `host` header with
   * `^([^:]+)(:(\d+))?$`; the port only when parseInt reads it as non-zero.
   */
  function HintFromHost(h: Headers): (hint: HostHint)
    ensures hint.name.Some? ==> |hint.name.value| > 0
    ensures hint.port.Some? ==> hint.name.Some? && hint.port.value > 0
    ensures HostHeaderValue(h).None? ==> hint == HostHint(None, None)
    ensures forall p :: HostHeaderValue(h).Some? && HostHeader.MatchesHostPattern(HostHeaderValue(h).value, p) ==>
      && hint.name == Some(p.name)
      && hint.port == (if p.port.Some? && DigitsValue(p.port.value, 10) != 0 then Some(DigitsValue(p.port.value, 10)) else None)
    ensures hint.name.Some? ==> exists p :: HostHeader.MatchesHostPattern(HostHeaderValue(h).value, p)
  {
    match HostHeaderValue(h)
    case None => HostHint(None, None)
    case Some(host) =>
      match HostHeader.ParseHostHeader(host)
      case None => HostHint(None, None)
      case Some(parts) =>
        var port := if parts.port.Some? then ParseInt(parts.port.value) else ParseInt("undefined");
        assert parts.port.Some? ==> port == Some(DigitsValue(parts.port.value, 10)) by {
          if parts.port.Some? { ParseIntOfDigits(parts.port.value); }
        }
        assert parts.port.None? ==> port == None by {
          ParseIntUndefined();
        }
        HostHint(Some(parts.name), if port.Some? && port.value != 0 then port else None)
  }

  /** The inbound headers, with `host` overwritten by the resolved authority in reverse mode. */
  function IngestedHeaders(inReq: Inbound, reverse: bool, purl: ParsedUrl): (h: Headers)
    ensures reverse ==> "host" in h && h["host"] == purl.host && h.Keys == inReq.headers.Keys + {"host"}
    ensures forall k :: k in inReq.headers && (k != "host" || !reverse) ==> k in h && h[k] == inReq.headers[k]
    ensures !reverse ==> h == inReq.headers
  {
    if reverse then inReq.headers["host" := purl.host] else inReq.headers
  }

  /**
   * `_setHttpSource(inReq, reverse)`: `reverse` says whether a reverse-proxy
   * base URL is configured and `purl` is the parse of the (resolved)
   * request-target. Fields are assigned in the order httpVersion, headers,
   * protocol, hostname, port, method, url; a throwing setter ends ingestion.
   */
  function SetHttpSource(r: Request, inReq: Inbound, reverse: bool, purl: ParsedUrl): (u: Update)
    ensures u.thrown == Some(MissingReverseProtocol) <==> reverse && !Truthy(purl.protocol)
    ensures reverse && !Truthy(purl.protocol) ==> u.req == r
    ensures var hint := HintFromHost(IngestedHeaders(inReq, reverse, purl));
      u.thrown.None? <==>
        && (reverse ==> Truthy(purl.protocol))
        && (Truthy(purl.protocol) ==> purl.protocol.value in ValidProtocols)
        && (Truthy(purl.hostname) || hint.name.Some?)
        && (Truthy(purl.port) ==> PortAccepted(purl.port.value))
        && Truthy(inReq.httpMethod)
        && purl.path.Some? && |purl.path.value| > 0 && purl.path.value[0] == '/'
    ensures Valid(r) ==> Valid(u.req)
  {
    var headers := IngestedHeaders(inReq, reverse, purl);
    if reverse && !Truthy(purl.protocol) then Update(r, Some(MissingReverseProtocol))
    else
      var hint := HintFromHost(headers);
      assert Truthy(hint.name) <==> hint.name.Some?;
      var r0 := r.(httpVersion := inReq.httpVersion, headers := headers);
      assert Valid(r) ==> Valid(r0);
      AssignFields(r0, inReq.httpMethod, purl, hint)
  }

  /**
   * What a successful ingestion stores: the inbound headers (with `host`
   * rewritten in reverse mode) and version, the protocol, hostname, port,
   * upper-cased method and path as `_setHttpSource` derives them, and the
   * inbound message as the original body source.
   */
  lemma SetHttpSourceAssigns(r: Request, inReq: Inbound, reverse: bool, purl: ParsedUrl)
    requires SetHttpSource(r, inReq, reverse, purl).thrown.None?
    ensures var u := SetHttpSource(r, inReq, reverse, purl);
      var hint := HintFromHost(IngestedHeaders(inReq, reverse, purl));
      && u.req.headers == IngestedHeaders(inReq, reverse, purl)
      && u.req.httpVersion == inReq.httpVersion
      && ProtocolText(u.req) == Some(if Truthy(purl.protocol) then purl.protocol.value else "http:")
      && u.req.hostname == (if Truthy(purl.hostname) then purl.hostname else hint.name)
      && u.req.port == (if Truthy(purl.port) then ParseInt(purl.port.value)
                        else if hint.port.Some? then hint.port else r.port)
      && u.req.httpMethod.Some? && IsUpperCase(u.req.httpMethod.value)
      && EqualIgnoringCase(u.req.httpMethod.value, inReq.httpMethod.value)
      && u.req.url == purl.path
      && u.req.source == Some(Source(true, None))
      && u.req.bodyCleared == r.bodyCleared
  {
    var headers := IngestedHeaders(inReq, reverse, purl);
    var hint := HintFromHost(headers);
    var r0 := r.(httpVersion := inReq.httpVersion, headers := headers);
    assert SetHttpSource(r, inReq, reverse, purl) == AssignFields(r0, inReq.httpMethod, purl, hint);
  }

  /** `purl.port || host.port` when that is truthy, else the port the request had. */
  function PortChoice(r: Request, purl: ParsedUrl, hint: HostHint): Option<int> {
    if Truthy(purl.port) then ParseInt(purl.port.value) else if hint.port.Some? then hint.port else r.port
  }

  /**
   * What a failed ingestion leaves behind, step by step: the version and
   * headers are assigned first, then each setter in turn; the first one that
   * throws names the error, every field before it stays assigned, and it and
   * every field after it (the body source included) keep their old values.
   */
  lemma SetHttpSourceThrows(r: Request, inReq: Inbound, reverse: bool, purl: ParsedUrl)
    ensures var u := SetHttpSource(r, inReq, reverse, purl);
      var hint := HintFromHost(IngestedHeaders(inReq, reverse, purl));
      var r0 := r.(httpVersion := inReq.httpVersion, headers := IngestedHeaders(inReq, reverse, purl));
      var ready := reverse ==> Truthy(purl.protocol);
      && (ready && !ProtocolWritable(purl) ==>
            u == Update(r0, Some(InvalidProtocol(purl.protocol.value))))
      && (ready && ProtocolWritable(purl) && !HostnameFound(purl, hint) ==>
            && u.thrown == Some(InvalidHostname)
            && u.req == r0.(protocol := u.req.protocol)
            && ProtocolText(u.req) == Some(ProtocolChoice(purl)))
      && (ready && ProtocolWritable(purl) && HostnameFound(purl, hint) && !PortWritable(purl) ==>
            && u.thrown == Some(InvalidPort(purl.port.value))
            && u.req == r0.(protocol := u.req.protocol, hostname := HostnameChoice(purl, hint))
            && ProtocolText(u.req) == Some(ProtocolChoice(purl)))
      && (ready && AddressWritable(purl, hint) && !Truthy(inReq.httpMethod) ==>
            && u.thrown == Some(InvalidMethod)
            && u.req == r0.(protocol := u.req.protocol, hostname := HostnameChoice(purl, hint),
                            port := PortChoice(r, purl, hint))
            && ProtocolText(u.req) == Some(ProtocolChoice(purl)))
      && (ready && AddressWritable(purl, hint) && Truthy(inReq.httpMethod) && !PathAccepted(purl.path) ==>
            && u.thrown == Some(InvalidUrl)
            && u.req == r0.(protocol := u.req.protocol, hostname := HostnameChoice(purl, hint),
                            port := PortChoice(r, purl, hint), httpMethod := u.req.httpMethod)
            && ProtocolText(u.req) == Some(ProtocolChoice(purl))
            && u.req.httpMethod.Some? && IsUpperCase(u.req.httpMethod.value)
            && EqualIgnoringCase(u.req.httpMethod.value, inReq.httpMethod.value))
  {
    var headers := IngestedHeaders(inReq, reverse, purl);
    var hint := HintFromHost(headers);
    var r0 := r.(httpVersion := inReq.httpVersion, headers := headers);
    if !(reverse && !Truthy(purl.protocol)) {
      assert SetHttpSource(r, inReq, reverse, purl) == AssignFields(r0, inReq.httpMethod, purl, hint);
      AssignFieldsThrows(r0, inReq.httpMethod, purl, hint);
    }
  }

  /** The address setters all accept what ingestion hands them. */
  predicate AddressWritable(purl: ParsedUrl, hint: HostHint) {
    ProtocolWritable(purl) && HostnameFound(purl, hint) && PortWritable(purl)
  }

  /** The failure cases of `AssignFields`: which setter throws and what it leaves assigned. */
  lemma AssignFieldsThrows(r: Request, m: Option<string>, purl: ParsedUrl, hint: HostHint)
    requires hint.port.Some? ==> hint.port.value != 0
    ensures var u := AssignFields(r, m, purl, hint);
      && (!AddressWritable(purl, hint) ==> u == AssignAddress(r, purl, hint))
      && (AddressWritable(purl, hint) && !Truthy(m) ==>
            && u.thrown == Some(InvalidMethod)
            && u.req == r.(protocol := u.req.protocol, hostname := HostnameChoice(purl, hint),
                           port := PortChoice(r, purl, hint))
            && ProtocolText(u.req) == Some(ProtocolChoice(purl)))
      && (AddressWritable(purl, hint) && Truthy(m) && !PathAccepted(purl.path) ==>
            && u.thrown == Some(InvalidUrl)
            && u.req == r.(protocol := u.req.protocol, hostname := HostnameChoice(purl, hint),
                           port := PortChoice(r, purl, hint), httpMethod := u.req.httpMethod)
            && ProtocolText(u.req) == Some(ProtocolChoice(purl))
            && u.req.httpMethod.Some? && IsUpperCase(u.req.httpMethod.value)
            && EqualIgnoringCase(u.req.httpMethod.value, m.value))
  {
    var u1 := AssignAddress(r, purl, hint);
    if u1.thrown.None? {
      var u2 := AssignRequestLine(u1.req, m, purl.path);
    }
  }

  /** The assignments of ingestion from the protocol on, and the body source last. */
  function AssignFields(r: Request, m: Option<string>, purl: ParsedUrl, hint: HostHint): (u: Update)
    requires hint.port.Some? ==> hint.port.value != 0
    ensures u.thrown != Some(MissingReverseProtocol)
    ensures u.thrown.None? <==>
      && (Truthy(purl.protocol) ==> purl.protocol.value in ValidProtocols)
      && (Truthy(purl.hostname) || Truthy(hint.name))
      && (Truthy(purl.port) ==> PortAccepted(purl.port.value))
      && Truthy(m)
      && purl.path.Some? && |purl.path.value| > 0 && purl.path.value[0] == '/'
    ensures u.thrown.None? ==>
      && u.req.headers == r.headers
      && u.req.httpVersion == r.httpVersion
      && ProtocolText(u.req) == Some(if Truthy(purl.protocol) then purl.protocol.value else "http:")
      && u.req.hostname == (if Truthy(purl.hostname) then purl.hostname else hint.name)
      && u.req.port == (if Truthy(purl.port) then ParseInt(purl.port.value)
                        else if hint.port.Some? then hint.port else r.port)
      && u.req.httpMethod.Some? && IsUpperCase(u.req.httpMethod.value)
      && EqualIgnoringCase(u.req.httpMethod.value, m.value)
      && u.req.url == purl.path
      && u.req.source == Some(Source(true, None))
      && u.req.bodyCleared == r.bodyCleared
    ensures Valid(r) ==> Valid(u.req)
  {
    var u1 := AssignAddress(r, purl, hint);
    if u1.thrown.Some? then u1
    else
      var u2 := AssignRequestLine(u1.req, m, purl.path);
      if u2.thrown.Some? then u2
      else Update(u2.req.(source := Some(Source(true, None))), None)
  }

  /** `purl.protocol || 'http:'`: the protocol text ingestion assigns. */
  function ProtocolChoice(purl: ParsedUrl): string {
    if Truthy(purl.protocol) then purl.protocol.value else "http:"
  }

  /** `purl.hostname || host.name`: the hostname ingestion assigns. */
  function HostnameChoice(purl: ParsedUrl, hint: HostHint): Option<string> {
    if Truthy(purl.hostname) then purl.hostname else hint.name
  }

  /** The target or the `host` header offers a hostname the setter accepts. */
  predicate HostnameFound(purl: ParsedUrl, hint: HostHint) {
    Truthy(purl.hostname) || Truthy(hint.name)
  }

  /** The path is one the url setter accepts: defined and starting with '/'. */
  predicate PathAccepted(path: Option<string>) {
    path.Some? && |path.value| > 0 && path.value[0] == '/'
  }

  /**
   * `protocol = purl.protocol || 'http:'`, then `hostname = purl.hostname || host.name`,
   * then the port: the address half of ingestion.
   */
  function AssignAddress(r: Request, purl: ParsedUrl, hint: HostHint): (u: Update)
    requires hint.port.Some? ==> hint.port.value != 0
    ensures u.thrown.None? <==>
      && (Truthy(purl.protocol) ==> purl.protocol.value in ValidProtocols)
      && (Truthy(purl.hostname) || Truthy(hint.name))
      && (Truthy(purl.port) ==> PortAccepted(purl.port.value))
    ensures u.thrown.None? ==>
      && u.req == r.(protocol := u.req.protocol, hostname := u.req.hostname, port := u.req.port)
      && ProtocolText(u.req) == Some(if Truthy(purl.protocol) then purl.protocol.value else "http:")
      && u.req.hostname == (if Truthy(purl.hostname) then purl.hostname else hint.name)
      && u.req.port == (if Truthy(purl.port) then ParseInt(purl.port.value)
                        else if hint.port.Some? then hint.port else r.port)
    ensures !ProtocolWritable(purl) ==> u == Update(r, Some(InvalidProtocol(purl.protocol.value)))
    ensures ProtocolWritable(purl) && !HostnameFound(purl, hint) ==>
      && u.thrown == Some(InvalidHostname)
      && u.req == r.(protocol := u.req.protocol)
      && ProtocolText(u.req) == Some(ProtocolChoice(purl))
    ensures ProtocolWritable(purl) && HostnameFound(purl, hint) && !PortWritable(purl) ==>
      && u.thrown == Some(InvalidPort(purl.port.value))
      && u.req == r.(protocol := u.req.protocol, hostname := HostnameChoice(purl, hint))
      && ProtocolText(u.req) == Some(ProtocolChoice(purl))
    ensures Valid(r) ==> Valid(u.req)
  {
    var u1 := Lift(r, SetProtocol(r, if Truthy(purl.protocol) then purl.protocol.value else "http:"));
    if u1.thrown.Some? then u1
    else
      var u2 := Lift(u1.req, SetHostname(u1.req, if Truthy(purl.hostname) then purl.hostname else hint.name));
      if u2.thrown.Some? then u2
      else IngestPort(u2.req, purl.port, hint.port)
  }

  /** `method = inReq.method`, then `url = purl.path`. */
  function AssignRequestLine(r: Request, m: Option<string>, path: Option<string>): (u: Update)
    ensures u.thrown.None? <==> Truthy(m) && path.Some? && |path.value| > 0 && path.value[0] == '/'
    ensures u.thrown.None? ==>
      && u.req == r.(httpMethod := u.req.httpMethod, url := path)
      && u.req.httpMethod.Some? && IsUpperCase(u.req.httpMethod.value)
      && EqualIgnoringCase(u.req.httpMethod.value, m.value)
    ensures !Truthy(m) ==> u == Update(r, Some(InvalidMethod))
    ensures Truthy(m) && !PathAccepted(path) ==>
      && u.thrown == Some(InvalidUrl)
      && u.req == r.(httpMethod := u.req.httpMethod)
      && u.req.httpMethod.Some? && IsUpperCase(u.req.httpMethod.value)
      && EqualIgnoringCase(u.req.httpMethod.value, m.value)
    ensures Valid(r) ==> Valid(u.req)
  {
    var u1 := Lift(r, SetMethod(r, m));
    if u1.thrown.Some? then u1 else Lift(u1.req, SetUrl(u1.req, path))
  }

  /**
   * `port = purl.port || host.port`, assigned only when that is truthy. The
   * parsed port is a string (so "0" is truthy and then rejected); the header
   * port is a Number, which the setter reads back through its decimal string.
   */
  function IngestPort(r: Request, parsed: Option<string>, fallback: Option<int>): (u: Update)
    requires fallback.Some? ==> fallback.value != 0
    ensures u.thrown.None? <==> (Truthy(parsed) ==> PortAccepted(parsed.value))
    ensures u.thrown.None? ==> u.req == r.(port := if Truthy(parsed) then ParseInt(parsed.value)
                                                   else if fallback.Some? then fallback else r.port)
    ensures u.thrown.Some? ==> u.req == r && Truthy(parsed) && u.thrown == Some(InvalidPort(parsed.value))
  {
    if Truthy(parsed) then Lift(r, SetPort(r, parsed.value))
    else if fallback.Some? then
      SetPortOfNumber(r, fallback.value);
      Lift(r, SetPort(r, IntToString(fallback.value)))
    else Update(r, None)
  }

  /**
   * Forward proxy: `GET http://a.com:<n>/p` gives protocol http:, hostname
   * a.com, port n and path /p, whatever the headers say (a `host` header
   * naming another port included), and the headers are kept as they came.
   */
  lemma ForwardExample(r: Request, inReq: Inbound, purl: ParsedUrl, n: int)
    requires n != 0
    requires inReq.httpMethod == Some("GET")
    requires purl == ParsedUrl(Some("http:"), Some("a.com"), Some(IntToString(n)), purl.host, Some("/p"))
    ensures var u := SetHttpSource(r, inReq, false, purl);
      && u.thrown == None
      && u.req.protocol == Some(Http) && u.req.hostname == Some("a.com") && u.req.port == Some(n)
      && u.req.url == Some("/p") && u.req.httpMethod == Some("GET") && u.req.headers == inReq.headers
  {
    ParseIntOfDecimal(n, []);
    assert IntToString(n) + [] == IntToString(n);
    SetHttpSourceAssigns(r, inReq, false, purl);
    var u := SetHttpSource(r, inReq, false, purl);
    assert ProtocolText(u.req) == Some("http:");
    var m := u.req.httpMethod.value;
    assert IsUpperCase(m) && EqualIgnoringCase(m, "GET");
    StoredGet(m);
  }

  /** The only upper-case string equal to "GET" ignoring case is "GET". */
  lemma StoredGet(v: string)
    requires IsUpperCase(v) && EqualIgnoringCase(v, "GET")
    ensures v == "GET"
  {
    assert IsUpperCase("GET");
    UpperCaseIsUnique(v, "GET");
  }

  /**
   * Reverse proxy: `GET /p` with `host: client.example`, resolved against
   * https://origin.example/, gives protocol https:, hostname origin.example
   * and path /p, and the `host` header becomes origin.example.
   */
  lemma ReverseExample(r: Request, inReq: Inbound, purl: ParsedUrl)
    requires r.port.None?
    requires inReq.httpMethod == Some("GET") && inReq.headers == map["host" := Some("client.example")]
    requires purl == ParsedUrl(Some("https:"), Some("origin.example"), None, Some("origin.example"), Some("/p"))
    ensures var u := SetHttpSource(r, inReq, true, purl);
      && u.thrown == None
      && u.req.protocol == Some(Https) && u.req.hostname == Some("origin.example") && u.req.port == None
      && u.req.url == Some("/p") && u.req.headers == map["host" := Some("origin.example")]
  {
    var h := IngestedHeaders(inReq, true, purl);
    assert h == map["host" := Some("origin.example")];
    assert HintFromHost(h).port == None by {
      assert HostHeaderValue(h) == Some("origin.example");
      assert HostHeader.MatchesHostPattern("origin.example", HostHeader.HostParts("origin.example", None));
    }
    SetHttpSourceAssigns(r, inReq, true, purl);
    var u := SetHttpSource(r, inReq, true, purl);
    assert ProtocolText(u.req) == Some("https:");
  }

  /** Reverse proxy against a base URL without a scheme fails before anything is assigned. */
  lemma ReverseWithoutProtocolExample(r: Request, inReq: Inbound, purl: ParsedUrl)
    requires purl.protocol.None?
    ensures SetHttpSource(r, inReq, true, purl) == Update(r, Some(MissingReverseProtocol))
  {
  }

  /** parseInt reads "0" as 0. */
  lemma ParseIntZero()
    ensures ParseInt("0") == Some(0)
  {
    ParseIntOfDecimal(0, []);
    assert IntToString(0) + [] == "0";
  }

  /**
   * A request-target whose port is "0" does not leave the port unset: the
   * string "0" is truthy, so the port setter runs and rejects it.
   */
  lemma ZeroTargetPortThrows(r: Request, inReq: Inbound, purl: ParsedUrl)
    requires purl.protocol == Some("http:") && purl.hostname == Some("a.com") && purl.port == Some("0")
    ensures SetHttpSource(r, inReq, false, purl).thrown == Some(InvalidPort("0"))
  {
    var h := IngestedHeaders(inReq, false, purl);
    var r0 := r.(httpVersion := inReq.httpVersion, headers := h);
    ZeroPortAddressThrows(r0, purl, HintFromHost(h));
  }

  lemma ZeroPortAddressThrows(r: Request, purl: ParsedUrl, hint: HostHint)
    requires hint.port.Some? ==> hint.port.value != 0
    requires purl.protocol == Some("http:") && purl.hostname == Some("a.com") && purl.port == Some("0")
    ensures AssignAddress(r, purl, hint).thrown == Some(InvalidPort("0"))
  {
    ParseIntZero();
    var u1 := Lift(r, SetProtocol(r, "http:"));
    assert u1.thrown == None;
    var u2 := Lift(u1.req, SetHostname(u1.req, Some("a.com")));
    assert u2.thrown == None;
    assert SetPort(u2.req, "0") == Failure(InvalidPort("0"));
  }

  /** A `host` header port that parseInt reads as 0 is ignored, so the port stays unset. */
  lemma ZeroHeaderPortIgnored(h: Headers)
    requires "host" in h && h["host"] == Some("a.com:0")
    ensures HintFromHost(h) == HostHint(Some("a.com"), None)
  {
    var p := HostHeader.HostParts("a.com", Some("0"));
    assert HostHeader.MatchesHostPattern("a.com:0", p);
    assert DigitsValue("0", 10) == 0 by {
      assert "0"[..0] == [];
    }
  }
}
