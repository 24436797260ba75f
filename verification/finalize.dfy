/**
 * Finalization: the normalisation a request gets once, just before it is
 * sent on. It empties the body of GET/HEAD/TRACE, recomputes
 * `content-length` for a rewritten body, strips headers that must not
 * cross the proxy and tombstoned headers, and rewrites `host` from the
 * hostname and declared port.
 */
module Finalization {
  import opened Wrappers
  import opened JsText
  import HostHeader
  import opened Requests
  import Ingestion

  /** Headers never forwarded: no gzip handling yet, and the proxy-only pair. */
  const RemoveHeaders: set<string> := {"accept-encoding", "proxy-connection", "proxy-authorization"}

  /** Methods whose body is emptied before sending. */
  const NonEntityMethods: set<string> := {"GET", "HEAD", "TRACE"}

  predicate IsNonEntity(m: Option<string>) {
    m.Some? && m.value in NonEntityMethods
  }

  /** The headers with the removed names and the tombstones deleted; every other entry kept. */
  function StripHeaders(h: Headers): (s: Headers)
    ensures forall k :: k in s ==> k !in RemoveHeaders && s[k].Some?
    ensures forall k :: k in h ==> (k in s <==> k !in RemoveHeaders && h[k].Some?)
    ensures forall k :: k in s ==> k in h && s[k] == h[k]
  {
    map k | k in h && k !in RemoveHeaders && h[k].Some? :: h[k]
  }

  /**
   * `content-length` for the body source: kept as it came when the body source
   * is the original inbound message; otherwise deleted and set again from
   * the body source's size when it reports one.
   */
  function BodyLengthHeaders(h: Headers, src: Source): (r: Headers)
    ensures src.original ==> r == h
    ensures !src.original ==> r.Keys - {"content-length"} == h.Keys - {"content-length"}
    ensures !src.original ==> ("content-length" in r <==> src.size.Some?)
    ensures !src.original && src.size.Some? ==> r["content-length"] == Some(IntToString(src.size.value))
    ensures forall k :: k in h && k != "content-length" ==> k in r && r[k] == h[k]
  {
    if src.original then h
    else
      var dropped := h - {"content-length"};
      match src.size
      case Some(n) => dropped["content-length" := Some(IntToString(n))]
      case None => dropped
  }

  /** The declared port reads only the port, the protocol and the `host` header's truthy value. */
  lemma DeclaredPortReadsHost(r: Request, s: Request)
    requires r.port == s.port && r.protocol == s.protocol
    requires HostHeaderValue(r.headers) == HostHeaderValue(s.headers)
    ensures DeclaredPort(r) == DeclaredPort(s)
  {
  }

  /**
   * `_finalize()`. A request with no body source throws, as reading
   * `_source._isOriginal` does in lib/request.js, after its body was emptied.
   */
  function Finalize(r: Request): (u: Update)
    ensures u.thrown.Some? <==> r.source.None?
    ensures u.thrown.Some? ==> u.thrown == Some(MissingSource) && u.req == r.(bodyCleared := true)
    ensures u.req == r.(headers := u.req.headers, bodyCleared := u.req.bodyCleared)
    ensures u.req.bodyCleared <==> r.bodyCleared || IsNonEntity(r.httpMethod) || r.source.None?
    ensures u.thrown.None? ==>
      && (forall k :: k in u.req.headers ==> k !in RemoveHeaders && u.req.headers[k].Some?)
      && (forall k :: k in u.req.headers ==> k in r.headers || k == "host" || k == "content-length")
      && (forall k :: k in r.headers && k != "host" && k != "content-length" ==>
            (k in u.req.headers <==> k !in RemoveHeaders && r.headers[k].Some?))
      && (forall k :: k in u.req.headers && k != "host" && k != "content-length" ==> u.req.headers[k] == r.headers[k])
      && "host" in u.req.headers
      && u.req.headers["host"] == Some(Show(r.hostname) + PortSuffix(DeclaredPort(r)))
    ensures u.thrown.None? && r.source.value.original ==>
      && ("content-length" in u.req.headers <==> "content-length" in r.headers && r.headers["content-length"].Some?)
      && ("content-length" in u.req.headers ==> u.req.headers["content-length"] == r.headers["content-length"])
    ensures u.thrown.None? && !r.source.value.original ==>
      && ("content-length" in u.req.headers <==> r.source.value.size.Some?)
      && ("content-length" in u.req.headers ==> u.req.headers["content-length"] == Some(IntToString(r.source.value.size.value)))
    ensures Valid(r) ==> Valid(u.req)
  {
    var r1 := if IsNonEntity(r.httpMethod) || r.source.None? then r.(bodyCleared := true) else r;
    if r1.source.None? then Update(r1, Some(MissingSource))
    else
      var h := StripHeaders(BodyLengthHeaders(r1.headers, r1.source.value));
      var r2 := r1.(headers := h);
      assert HostHeaderValue(h) == HostHeaderValue(r.headers);
      DeclaredPortReadsHost(r2, r);
      var host := Show(r2.hostname) + PortSuffix(DeclaredPort(r2));
      Update(r2.(headers := h["host" := Some(host)]), None)
  }

  /** A hostname the rewritten `host` header can be read back from: unset, or non-empty without a colon. */
  predicate PlainHostname(h: Option<string>) {
    h.None? || (h.value != "" && ':' !in h.value)
  }

  /**
   * Rewriting `host` as hostname plus declared port leaves the declared port
   * as it was, when the hostname has no colon.
   */
  lemma HostRewriteKeepsDeclaredPort(r: Request, s: Request)
    requires PlainHostname(r.hostname)
    requires s.port == r.port && s.protocol == r.protocol
    requires HostHeaderValue(s.headers) == Some(Show(r.hostname) + PortSuffix(DeclaredPort(r)))
    ensures DeclaredPort(s) == DeclaredPort(r)
  {
    var name := Show(r.hostname);
    assert name != [] && ':' !in name;
    var host := name + PortSuffix(DeclaredPort(r));
    DeclaredPortOfHost(s, host);
    if r.port == Some(DefaultPort(r)) {
      var p := r.port.value;
      assert p == 80 || p == 443;
      if DeclaredPort(r) == None {
        assert host == name;
        HostHeader.NoExplicitPortOfName(name);
      } else {
        assert host == name + ":" + IntToString(p);
        HostHeader.ExplicitPortOfJoin(name, p);
      }
    }
  }

  /** The declared port given the `host` header's value. */
  lemma DeclaredPortOfHost(s: Request, host: string)
    requires HostHeaderValue(s.headers) == Some(host)
    ensures DeclaredPort(s) == (if s.port == Some(DefaultPort(s)) && !HostHeader.HasExplicitPort(host) then None else s.port)
  {
  }

  /** Headers with nothing left to strip are kept as they are. */
  lemma StripClean(h: Headers)
    requires forall k :: k in h ==> k !in RemoveHeaders && h[k].Some?
    ensures StripHeaders(h) == h
  {
  }

  /** A `content-length` that already agrees with the body source is kept as it is. */
  lemma BodyLengthStable(h: Headers, src: Source)
    requires !src.original ==> ("content-length" in h <==> src.size.Some?)
    requires !src.original && src.size.Some? ==> h["content-length"] == Some(IntToString(src.size.value))
    ensures BodyLengthHeaders(h, src) == h
  {
  }

  /**
   * Finalizing twice is finalizing once, for a request whose hostname has
   * no colon: the rewritten `host` header yields the same declared port again.
   */
  lemma FinalizeIdempotent(r: Request)
    requires r.source.Some?
    requires PlainHostname(r.hostname)
    ensures Finalize(Finalize(r).req) == Finalize(r)
  {
    var r1 := Finalize(r).req;
    var host := Some(Show(r.hostname) + PortSuffix(DeclaredPort(r)));
    assert r1.headers["host"] == host;
    BodyLengthStable(r1.headers, r1.source.value);
    StripClean(r1.headers);
    assert HostHeaderValue(r1.headers) == host;
    HostRewriteKeepsDeclaredPort(r, r1);
    assert r1.headers["host" := host] == r1.headers;
  }

  /**
   * Finalizing is not idempotent for a hostname with a colon: the first pass
   * writes `host: ::1:80`, which no longer reads as naming a port, so the
   * second pass drops the port.
   */
  lemma FinalizeTwiceDiffersOnColonHostname(r: Request)
    requires r.protocol == Some(Http) && r.hostname == Some("::1") && r.port == Some(80)
    requires r.source.Some? && "host" !in r.headers
    ensures Finalize(r).req.headers["host"] == Some("::1:80")
    ensures Finalize(Finalize(r).req).req.headers["host"] == Some("::1")
  {
    assert DeclaredPort(r) == Some(80);
    assert PortSuffix(Some(80)) == ":80" by {
      RenderedPortExamples();
    }
    assert Show(r.hostname) + PortSuffix(DeclaredPort(r)) == "::1:80";
    var r1 := Finalize(r).req;
    assert r1.hostname == Some("::1") && r1.port == Some(80) && r1.protocol == Some(Http);
    assert HostHeaderValue(r1.headers) == Some("::1:80");
    assert !HostHeader.HasExplicitPort("::1:80") by {
      ColonHostHasNoPort();
    }
    assert DeclaredPort(r1) == None;
    assert Show(r1.hostname) + PortSuffix(DeclaredPort(r1)) == "::1";
  }

  /** `::1:80` starts with a colon, so `^[^:]+:(\d+)$` does not match it. */
  lemma ColonHostHasNoPort()
    ensures !HostHeader.HasExplicitPort("::1:80")
  {
    assert HostHeader.IndexOf("::1:80", ':') == Some(0);
  }

  /**
   * A request fresh from ingestion finalizes without error, and its body
   * source is the original message, so `content-length` passes through.
   */
  lemma IngestedRequestFinalizes(r: Request, inReq: Ingestion.Inbound, reverse: bool, purl: ParsedUrl)
    requires Ingestion.SetHttpSource(r, inReq, reverse, purl).thrown.None?
    ensures var h := Ingestion.IngestedHeaders(inReq, reverse, purl);
      var u := Finalize(Ingestion.SetHttpSource(r, inReq, reverse, purl).req);
      && u.thrown.None?
      && ("content-length" in u.req.headers <==> "content-length" in h && h["content-length"].Some?)
      && ("content-length" in u.req.headers ==> u.req.headers["content-length"] == h["content-length"])
  {
  }
}
