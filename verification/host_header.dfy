/**
 * The two regular expressions the request entity applies to a `host`
 * header value: `^([^:]+)(:(\d+))?$` when a request is ingested, and
 * `^[^:]+:(\d+)$` when it decides whether the header spells out a port.
 * Each is computed by splitting at the first colon and is proved equal to
 * a declarative reading of its pattern.
 */
module HostHeader {
  import opened Wrappers
  import opened JsText

  /** The first index of c in s. */
  function IndexOf(s: string, c: char): (r: Option<nat>)
    ensures r.Some? ==> r.value < |s| && s[r.value] == c && c !in s[..r.value]
    ensures r.None? ==> c !in s
  {
    if s == [] then None
    else if s[0] == c then Some(0)
    else
      match IndexOf(s[1..], c)
      case None => None
      case Some(i) =>
        assert s[..i + 1] == [s[0]] + s[1..][..i];
        Some(i + 1)
  }

  /** An occurrence with none before it is the first one. */
  lemma {:induction false} IndexOfFirst(s: string, c: char, j: nat)
    requires j < |s| && s[j] == c && c !in s[..j]
    ensures IndexOf(s, c) == Some(j)
  {
    if j > 0 {
      assert s[0] in s[..j];
      assert s[1..][..j - 1] == s[1..j];
      assert forall k :: 0 <= k < j - 1 ==> s[1..j][k] == s[..j][k + 1];
      IndexOfFirst(s[1..], c, j - 1);
    }
  }

  /** The capture groups of `^([^:]+)(:(\d+))?$`: group 1 and group 3 (absent when the port part is). */
  datatype HostParts = HostParts(name: string, port: Option<string>)

  /** The string the pattern matches with the given groups. */
  function Join(p: HostParts): string {
    p.name + (if p.port.Some? then ":" + p.port.value else "")
  }

  /** h matches `^([^:]+)(:(\d+))?$` with exactly these groups. */
  predicate MatchesHostPattern(h: string, p: HostParts) {
    && p.name != [] && ':' !in p.name
    && (p.port.Some? ==> p.port.value != [] && AllDecimal(p.port.value))
    && h == Join(p)
  }

  /** Where the first colon of h sits in a match: right after the name. */
  lemma FirstColonOfMatch(h: string, p: HostParts)
    requires MatchesHostPattern(h, p)
    ensures p.port.None? ==> IndexOf(h, ':') == None
    ensures p.port.Some? ==> IndexOf(h, ':') == Some(|p.name|)
  {
    var n := |p.name|;
    if p.port.Some? {
      assert h[n] == ':';
      assert h[..n] == p.name;
      IndexOfFirst(h, ':', n);
    } else {
      assert h == p.name;
    }
  }

  /** Splits h at its first colon, when what surrounds it fits the pattern. */
  function SplitHost(h: string): Option<HostParts> {
    match IndexOf(h, ':')
    case None => if h == [] then None else Some(HostParts(h, None))
    case Some(i) =>
      if 0 < i && i + 1 < |h| && AllDecimal(h[i + 1..]) then Some(HostParts(h[..i], Some(h[i + 1..])))
      else None
  }

  lemma SplitHostSound(h: string)
    ensures SplitHost(h).Some? ==> MatchesHostPattern(h, SplitHost(h).value)
  {
    var r := SplitHost(h);
    if r.Some? && r.value.port.Some? {
      var i := IndexOf(h, ':').value;
      assert h == h[..i] + ":" + h[i + 1..];
    }
  }

  lemma SplitHostComplete(h: string, p: HostParts)
    requires MatchesHostPattern(h, p)
    ensures SplitHost(h) == Some(p)
  {
    FirstColonOfMatch(h, p);
    if p.port.Some? {
      var n := |p.name|;
      assert h[..n] == p.name;
      assert h[n + 1..] == p.port.value;
    } else {
      assert h == p.name;
    }
  }

  /**
   * `aHost.match(/^([^:]+)(:([\d]+))?$/)`: None when the header does not
   * match, otherwise the name and the optional digit group.
   */
  function ParseHostHeader(h: string): (r: Option<HostParts>)
    ensures r.Some? ==> MatchesHostPattern(h, r.value)
    ensures forall p :: MatchesHostPattern(h, p) ==> r == Some(p)
  {
    SplitHostSound(h);
    assert forall p :: MatchesHostPattern(h, p) ==> SplitHost(h) == Some(p) by {
      forall p | MatchesHostPattern(h, p)
        ensures SplitHost(h) == Some(p)
      {
        SplitHostComplete(h, p);
      }
    }
    SplitHost(h)
  }

  /**
   * `host.match(/^[^:]+:(\d+)$/)` finds a port: a non-empty name without a
   * colon, a colon, then one or more digits. Exactly the matches of the
   * ingestion pattern that carry the port group.
   */
  function HasExplicitPort(h: string): (b: bool)
    ensures b <==> exists p :: MatchesHostPattern(h, p) && p.port.Some?
  {
    var r := ParseHostHeader(h);
    assert r.Some? ==> MatchesHostPattern(h, r.value);
    r.Some? && r.value.port.Some?
  }

  /** A name without colons followed by a rendered non-negative number spells out a port. */
  lemma ExplicitPortOfJoin(name: string, port: nat)
    requires name != [] && ':' !in name
    ensures HasExplicitPort(name + ":" + IntToString(port))
  {
    var p := HostParts(name, Some(IntToString(port)));
    assert MatchesHostPattern(name + ":" + IntToString(port), p);
  }

  /** A non-empty name without colons spells out no port. */
  lemma NoExplicitPortOfName(name: string)
    requires name != [] && ':' !in name
    ensures !HasExplicitPort(name)
  {
  }
}
