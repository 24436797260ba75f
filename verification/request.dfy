/**
 * The `Request` entity: a record of validated fields, the setters that
 * validate them, and the derivations of the default port, the declared port
 * and the full URL.
 */
module Requests {
  import opened Wrappers
  import opened JsText
  import HostHeader

  /** Header name to value; None is a header assigned `undefined`, a tombstone. */
  type Headers = map<string, Option<string>>

  datatype Protocol = Http | Https {
    /** The protocol as the getter returns it. */
    function Text(): string {
      match this
      case Http => "http:"
      case Https => "https:"
    }
  }

  /**
   * The stream the body is read from: whether it is the untouched inbound
   * message, and the byte count its `size()` reports (None when it has no
   * `size()` or the count is undefined).
   */
  datatype Source = Source(original: bool, size: Option<nat>)

  /**
   * A request. Every field but the headers and the body flag may be unset
   * (`undefined` in JavaScript). `bodyCleared` records that the body was
   * replaced by the empty string.
   */
  datatype Request = Request(
    protocol: Option<Protocol>,
    hostname: Option<string>,
    port: Option<int>,
    httpMethod: Option<string>,
    url: Option<string>,
    headers: Headers,
    httpVersion: Option<string>,
    source: Option<Source>,
    bodyCleared: bool)

  /** The errors the request code throws. */
  datatype Error =
    | InvalidProtocol(protocol: string)
    | InvalidHostname
    | InvalidPort(port: string)
    | InvalidMethod
    | InvalidUrl
    | MissingReverseProtocol
    | MissingSource

  /**
   * The state of the request after an operation that assigns several fields
   * in turn, and the error it threw, if any. Assignments made before the
   * throw stay made.
   */
  datatype Update = Update(req: Request, thrown: Option<Error>)

  /** The components of a parsed URL the request reads (the output of `url.parse`). */
  datatype ParsedUrl = ParsedUrl(
    protocol: Option<string>,
    hostname: Option<string>,
    port: Option<string>,
    host: Option<string>,
    path: Option<string>)

  const ValidProtocols: set<string> := {"http:", "https:"}

  /** A string value JavaScript treats as true: defined and non-empty. */
  predicate Truthy(s: Option<string>) {
    s.Some? && s.value != ""
  }

  /** A string field as JavaScript's `+` renders it: `undefined` when unset. */
  function Show(s: Option<string>): string {
    if s.Some? then s.value else "undefined"
  }

  /** The protocol as its getter returns it. */
  function ProtocolText(r: Request): Option<string> {
    if r.protocol.Some? then Some(r.protocol.value.Text()) else None
  }

  /** Every field that is set holds a value its setter accepts. */
  predicate Valid(r: Request) {
    && (r.hostname.Some? ==> r.hostname.value != "")
    && (r.port.Some? ==> r.port.value != 0)
    && (r.httpMethod.Some? ==> r.httpMethod.value != "" && IsUpperCase(r.httpMethod.value))
    && (r.url.Some? ==> r.url.value != "" && r.url.value[0] == '/')
  }

  // ---------------------------------------------------------------- setters

  function ProtocolNamed(p: string): Option<Protocol> {
    if p !in ValidProtocols then None else if p == "https:" then Some(Https) else Some(Http)
  }

  /** `protocol = p`: only the two table entries are accepted. */
  function SetProtocol(r: Request, p: string): (res: Result<Request, Error>)
    ensures res.Success? <==> p == "http:" || p == "https:"
    ensures res.Success? ==> ProtocolText(res.value) == Some(p) && res.value == r.(protocol := res.value.protocol)
    ensures res.Failure? ==> res.error == InvalidProtocol(p)
    ensures res.Success? && Valid(r) ==> Valid(res.value)
  {
    match ProtocolNamed(p)
    case Some(proto) => Success(r.(protocol := Some(proto)))
    case None => Failure(InvalidProtocol(p))
  }

  /** `hostname = h`: undefined and the empty string are rejected. */
  function SetHostname(r: Request, h: Option<string>): (res: Result<Request, Error>)
    ensures res.Success? <==> h.Some? && |h.value| > 0
    ensures res.Success? ==> res.value == r.(hostname := h)
    ensures res.Failure? ==> res.error == InvalidHostname
    ensures res.Success? && Valid(r) ==> Valid(res.value)
  {
    if !Truthy(h) then Failure(InvalidHostname) else Success(r.(hostname := h))
  }

  /** A port value the setter accepts: parseInt reads a number, and not 0. */
  predicate PortAccepted(v: string) {
    ParseInt(v).Some? && ParseInt(v).value != 0
  }

  /**
   * `port = v`: stores what `parseInt(v)` yields, rejecting NaN and 0 and
   * nothing else, so a negative number is stored.
   */
  function SetPort(r: Request, v: string): (res: Result<Request, Error>)
    ensures res.Success? <==> PortAccepted(v)
    ensures res.Success? ==> res.value == r.(port := ParseInt(v))
    ensures res.Failure? ==> res.error == InvalidPort(v)
    ensures res.Success? && Valid(r) ==> Valid(res.value)
  {
    match ParseInt(v)
    case Some(n) => if n == 0 then Failure(InvalidPort(v)) else Success(r.(port := Some(n)))
    case None => Failure(InvalidPort(v))
  }

  /** `method = m`: undefined and the empty string are rejected; the stored value is upper-cased. */
  function SetMethod(r: Request, m: Option<string>): (res: Result<Request, Error>)
    ensures res.Success? <==> m.Some? && |m.value| > 0
    ensures res.Success? ==> && res.value == r.(httpMethod := res.value.httpMethod)
                             && res.value.httpMethod.Some?
                             && IsUpperCase(res.value.httpMethod.value)
                             && EqualIgnoringCase(res.value.httpMethod.value, m.value)
    ensures res.Failure? ==> res.error == InvalidMethod
    ensures res.Success? && Valid(r) ==> Valid(res.value)
  {
    if !Truthy(m) then Failure(InvalidMethod) else Success(r.(httpMethod := Some(ToUpperCase(m.value))))
  }

  /** `url = u`: only a root-relative path, one that starts with '/', is accepted. */
  function SetUrl(r: Request, u: Option<string>): (res: Result<Request, Error>)
    ensures res.Success? <==> u.Some? && |u.value| > 0 && u.value[0] == '/'
    ensures res.Success? ==> res.value == r.(url := u)
    ensures res.Failure? ==> res.error == InvalidUrl
    ensures res.Success? && Valid(r) ==> Valid(res.value)
  {
    if u.Some? && u.value != "" && u.value[0] == '/' then Success(r.(url := u)) else Failure(InvalidUrl)
  }

  /** A string or Number handed to the port setter as the number it renders to. */
  lemma SetPortOfNumber(r: Request, n: int)
    requires n != 0
    ensures SetPort(r, IntToString(n)) == Success(r.(port := Some(n)))
  {
    ParseIntOfDecimal(n, []);
    assert IntToString(n) + [] == IntToString(n);
  }

  // ------------------------------------------------------------ addresses

  /** The port a URL of this protocol implies: 443 for https, 80 otherwise (an unset protocol included). */
  function DefaultPort(r: Request): (p: int)
    ensures p == 443 <==> r.protocol == Some(Https)
    ensures p == 80 <==> r.protocol != Some(Https)
  {
    if r.protocol == Some(Https) then 443 else 80
  }

  /** The `host` header's value when JavaScript treats it as true. */
  function HostHeaderValue(h: Headers): Option<string> {
    if "host" in h && Truthy(h["host"]) then h["host"] else None
  }

  /**
   * The port to write into a URL or `host` header: the stored port, except
   * that it is left out (None) when it is the default port and a `host`
   * header is present that does not spell out a port.
   */
  function DeclaredPort(r: Request): (d: Option<int>)
    ensures d == r.port || d == None
    ensures d != r.port <==>
      && r.port == Some(DefaultPort(r))
      && "host" in r.headers && Truthy(r.headers["host"])
      && !HostHeader.HasExplicitPort(r.headers["host"].value)
  {
    var host := HostHeaderValue(r.headers);
    if r.port == Some(DefaultPort(r)) && host.Some? && !HostHeader.HasExplicitPort(host.value) then None
    else r.port
  }

  /** ':' and the port when a declared port is present and non-zero, else nothing. */
  function PortSuffix(d: Option<int>): string {
    if d.Some? && d.value != 0 then ":" + IntToString(d.value) else ""
  }

  /** `fullUrl()` in read mode. */
  function FullUrl(r: Request): string {
    Show(ProtocolText(r)) + "//" + Show(r.hostname) + PortSuffix(DeclaredPort(r)) + Show(r.url)
  }

  /** Lifts a setter's result into the state-and-throw form. */
  function Lift(r: Request, res: Result<Request, Error>): Update {
    match res
    case Success(r') => Update(r', None)
    case Failure(e) => Update(r, Some(e))
  }

  /** The parsed protocol is absent, empty, or one the protocol setter accepts. */
  predicate ProtocolWritable(purl: ParsedUrl) {
    Truthy(purl.protocol) ==> purl.protocol.value in ValidProtocols
  }

  /** The parsed port is absent, empty, or one the port setter accepts. */
  predicate PortWritable(purl: ParsedUrl) {
    Truthy(purl.port) ==> PortAccepted(purl.port.value)
  }

  /** The parsed path is absent, empty, or one the url setter accepts. */
  predicate PathWritable(purl: ParsedUrl) {
    Truthy(purl.path) ==> purl.path.value[0] == '/'
  }

  /**
   * s carries the protocol and hostname write mode assigns to r: the parsed
   * ones where they are truthy, r's own otherwise.
   */
  predicate AddressWritten(r: Request, purl: ParsedUrl, s: Request) {
    && ProtocolText(s) == (if Truthy(purl.protocol) then purl.protocol else ProtocolText(r))
    && s.hostname == (if Truthy(purl.hostname) then purl.hostname else r.hostname)
  }

  /**
   * `fullUrl(u)` in write mode, given the parse of u: each component the
   * parse carries is assigned through its setter, in the order protocol,
   * hostname, port, path; the first setter that throws ends the update,
   * and what was assigned before it stays assigned.
   */
  function SetFullUrl(r: Request, purl: ParsedUrl): (u: Update)
    ensures u.req == r.(protocol := u.req.protocol, hostname := u.req.hostname, port := u.req.port, url := u.req.url)
    ensures u.thrown.None? <==> ProtocolWritable(purl) && PortWritable(purl) && PathWritable(purl)
    ensures u.thrown.None? ==>
      && AddressWritten(r, purl, u.req)
      && u.req.port == (if Truthy(purl.port) then ParseInt(purl.port.value) else r.port)
      && u.req.url == (if Truthy(purl.path) then purl.path else r.url)
    ensures !ProtocolWritable(purl) ==> u == Update(r, Some(InvalidProtocol(purl.protocol.value)))
    ensures ProtocolWritable(purl) && !PortWritable(purl) ==>
      && u.thrown == Some(InvalidPort(purl.port.value))
      && AddressWritten(r, purl, u.req) && u.req.port == r.port && u.req.url == r.url
    ensures ProtocolWritable(purl) && PortWritable(purl) && !PathWritable(purl) ==>
      && u.thrown == Some(InvalidUrl)
      && AddressWritten(r, purl, u.req)
      && u.req.port == (if Truthy(purl.port) then ParseInt(purl.port.value) else r.port)
      && u.req.url == r.url
    ensures Valid(r) ==> Valid(u.req)
  {
    var u1 := WriteAddress(r, purl);
    if u1.thrown.Some? then u1 else WritePortAndPath(u1.req, purl)
  }

  /** The protocol, then the hostname, of write mode. */
  function WriteAddress(r: Request, purl: ParsedUrl): (u: Update)
    ensures !ProtocolWritable(purl) ==> u == Update(r, Some(InvalidProtocol(purl.protocol.value)))
    ensures ProtocolWritable(purl) ==>
      && u.thrown.None? && AddressWritten(r, purl, u.req)
      && u.req == r.(protocol := u.req.protocol, hostname := u.req.hostname)
    ensures Valid(r) ==> Valid(u.req)
  {
    var u1 := if Truthy(purl.protocol) then Lift(r, SetProtocol(r, purl.protocol.value)) else Update(r, None);
    if u1.thrown.Some? then u1
    else if Truthy(purl.hostname) then Lift(u1.req, SetHostname(u1.req, purl.hostname))
    else u1
  }

  /** The port, then the path, of write mode. */
  function WritePortAndPath(r: Request, purl: ParsedUrl): (u: Update)
    ensures u.req == r.(port := u.req.port, url := u.req.url)
    ensures !PortWritable(purl) ==> u == Update(r, Some(InvalidPort(purl.port.value)))
    ensures PortWritable(purl) ==> u.req.port == (if Truthy(purl.port) then ParseInt(purl.port.value) else r.port)
    ensures PortWritable(purl) && !PathWritable(purl) ==> u.thrown == Some(InvalidUrl) && u.req.url == r.url
    ensures PortWritable(purl) && PathWritable(purl) ==>
      u.thrown.None? && u.req.url == (if Truthy(purl.path) then purl.path else r.url)
    ensures Valid(r) ==> Valid(u.req)
  {
    var u1 := if Truthy(purl.port) then Lift(r, SetPort(r, purl.port.value)) else Update(r, None);
    if u1.thrown.Some? then u1
    else if Truthy(purl.path) then Lift(u1.req, SetUrl(u1.req, purl.path))
    else u1
  }

  /**
   * The components `fullUrl()` renders, each in the form write mode takes
   * it: the protocol text, the hostname, the declared port as a decimal
   * string, and the url as the path.
   */
  function RenderedParts(r: Request): ParsedUrl {
    var d := DeclaredPort(r);
    var port := if d.Some? && d.value != 0 then Some(IntToString(d.value)) else None;
    ParsedUrl(ProtocolText(r), r.hostname, port, None, r.url)
  }

  /** The getter's text names the protocol it came from. */
  lemma ProtocolNamedText(p: Protocol)
    ensures ProtocolNamed(p.Text()) == Some(p)
  {
  }

  /**
   * Write mode accepts the components read mode renders and, handed them
   * back, changes nothing on a valid request whose address fields are all
   * set. Whether `url.parse` of the rendered text yields exactly these
   * components is outside the model.
   */
  lemma FullUrlRoundTrip(r: Request)
    requires Valid(r)
    requires r.protocol.Some? && r.hostname.Some? && r.url.Some?
    ensures SetFullUrl(r, RenderedParts(r)) == Update(r, None)
  {
    var p := RenderedParts(r);
    assert Truthy(p.protocol) && SetProtocol(r, p.protocol.value) == Success(r) by {
      ProtocolNamedText(r.protocol.value);
    }
    assert Truthy(p.hostname) && SetHostname(r, p.hostname) == Success(r);
    assert Truthy(p.port) ==> SetPort(r, p.port.value) == Success(r) by {
      var d := DeclaredPort(r);
      if d.Some? && d.value != 0 {
        assert d == r.port;
        SetPortOfNumber(r, d.value);
      }
    }
    assert !Truthy(p.port) ==> p.port.None?;
    assert Truthy(p.path) && SetUrl(r, p.path) == Success(r);
  }

  /** An https request on port 8443 names the port in its URL, whatever its headers. */
  lemma FullUrlNonDefaultPortExample(r: Request)
    requires r.protocol == Some(Https) && r.hostname == Some("a.com") && r.port == Some(8443) && r.url == Some("/x")
    ensures FullUrl(r) == "https://a.com:8443/x"
  {
    assert DeclaredPort(r) == Some(8443);
    assert PortSuffix(Some(8443)) == ":8443" by {
      RenderedPortExamples();
    }
    assert ProtocolText(r) == Some("https:");
    assert "https:" + "//" + "a.com" + ":8443" + "/x" == "https://a.com:8443/x";
  }

  /** Port 443 on https is left out of the URL when a `host` header without a port is present. */
  lemma FullUrlDefaultPortExample(r: Request)
    requires r.protocol == Some(Https) && r.hostname == Some("a.com") && r.port == Some(443) && r.url == Some("/x")
    requires "host" in r.headers && r.headers["host"] == Some("a.com")
    ensures FullUrl(r) == "https://a.com/x"
  {
    HostHeader.NoExplicitPortOfName("a.com");
    assert DeclaredPort(r) == None;
  }

  /** Without a `host` header, even the default port 443 is written out. */
  lemma FullUrlNoHostHeaderExample(r: Request)
    requires r.protocol == Some(Https) && r.hostname == Some("a.com") && r.port == Some(443) && r.url == Some("/x")
    requires "host" !in r.headers
    ensures FullUrl(r) == "https://a.com:443/x"
  {
    assert DeclaredPort(r) == Some(443);
    assert PortSuffix(Some(443)) == ":443" by {
      RenderedPortExamples();
    }
  }

  /** With protocol http and port 80, `host: example.com` hides the port. */
  lemma DeclaredPortHiddenExample(r: Request)
    requires r.protocol == Some(Http) && r.port == Some(80)
    requires "host" in r.headers && r.headers["host"] == Some("example.com")
    ensures DeclaredPort(r) == None
  {
    HostHeader.NoExplicitPortOfName("example.com");
  }

  /** With protocol http and port 80, `host: example.com:80` keeps the port. */
  lemma DeclaredPortKeptExample(r: Request)
    requires r.protocol == Some(Http) && r.port == Some(80)
    requires "host" in r.headers && r.headers["host"] == Some("example.com:80")
    ensures DeclaredPort(r) == Some(80)
  {
    RenderedPortExamples();
    HostHeader.ExplicitPortOfJoin("example.com", 80);
    assert "example.com:80" == "example.com" + ":" + IntToString(80);
  }
}
