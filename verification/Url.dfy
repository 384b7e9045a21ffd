/** URLs: a parser that goes by the positions of a few separators, and what it makes of printed URLs. */
module Urls {
  import opened Wrappers
  import opened Decimals

  // ---- Texts ----

  /** The first place of a character at or after a position. A position beyond the end finds nothing. */
  function Find(s: string, c: char, from: nat): (r: Option<nat>)
    ensures r.Some? ==> from <= r.value < |s| && s[r.value] == c
    decreases |s| - from
  {
    if from >= |s| then None else if s[from] == c then Some(from) else Find(s, c, from + 1)
  }

  /** The first place of "://". */
  function FindScheme(s: string, from: nat): (r: Option<nat>)
    ensures r.Some? ==> from <= r.value && r.value + 3 <= |s|
    decreases |s| - from
  {
    if from + 3 > |s| then None else if s[from..from + 3] == "://" then Some(from) else FindScheme(s, from + 1)
  }

  /** The part of a text from a position on. A count that runs below zero wraps around, and so reaches the end. */
  function Substr(s: string, pos: nat, count: int): string
    requires pos <= |s|
  {
    if count < 0 || pos + count > |s| then s[pos..] else s[pos..pos + count]
  }

  lemma SubstrPrefix(s: string, n: nat)
    requires n <= |s|
    ensures Substr(s, 0, n) == s[..n]
  {
  }

  lemma {:induction false} FindIs(x: string, c: char, y: string, from: nat)
    requires from <= |x| && forall i | from <= i < |x| :: x[i] != c
    ensures Find(x + [c] + y, c, from) == Some(|x|)
    decreases |x| - from
  {
    if from < |x| { FindIs(x, c, y, from + 1); }
  }

  lemma {:induction false} FindNone(s: string, c: char, from: nat)
    requires forall i | from <= i < |s| :: s[i] != c
    ensures Find(s, c, from).None?
    decreases |s| - from
  {
    if from < |s| { FindNone(s, c, from + 1); }
  }

  lemma {:induction false} FindSchemeIs(p: string, rest: string, from: nat)
    requires from <= |p| && FindScheme(p, from).None?
    ensures FindScheme(p + "://" + rest, from) == Some(|p|)
    decreases |p| - from
  {
    var s := p + "://" + rest;
    if from < |p| {
      FindSchemeIs(p, rest, from + 1);
      if from + 3 <= |p| {
        assert s[from..from + 3] == p[from..from + 3];
      } else {
        assert s[|p|] == ':' && (from + 1 == |p| || from + 2 == |p|);
        assert s[from..from + 3] == [s[from], s[from + 1], s[from + 2]];
      }
    } else {
      assert s[from..from + 3] == "://";
    }
  }

  // ---- The parser ----

  class Url {
    var protocol: string
    var credentials: string
    var host: string
    var query: string
    var port: int
    var resource: string

    constructor (url: string, defPort: nat)
      requires defPort < 0x1_0000
      ensures State() == Parse(url, defPort)
    {
      protocol, credentials, host, query, port, resource := "", "", "", "", 0, "";
      new;
      ParseUrl(url, defPort);
    }

    function State(): Parts
      reads this
    {
      Parts(protocol, credentials, host, port, resource, query)
    }

    /** parse; without "://" nothing is set. */
    method ParseUrl(url: string, defPort: nat)
      requires State() == NOTHING
      modifies this
      ensures State() == Parse(url, defPort)
    {
      var protoEnd := FindScheme(url, 0);
      if protoEnd.None? { return; }
      var start := protoEnd.value + 3;
      SubstrPrefix(url, protoEnd.value);
      protocol := Substr(url, 0, protoEnd.value);
      var portLoc := Find(url, ':', start);
      var firstSlash := FindSlash(url, start, portLoc);
      ParseRest(url, defPort, protoEnd.value, portLoc, firstSlash);
    }

    method ParseRest(url: string, defPort: nat, end: nat, portLoc: Option<nat>, firstSlash: Option<nat>)
      requires end + 3 <= |url| && protocol == url[..end]
      requires (portLoc.Some? ==> portLoc.value < |url|) && (firstSlash.Some? ==> firstSlash.value < |url|)
      modifies this`credentials, this`host, this`port, this`resource, this`query
      ensures State() == ParseAt(url, defPort, end, portLoc, firstSlash)
    {
      ParseAuthority(url, defPort, end + 3, portLoc, firstSlash);
      ParsePath(url, firstSlash);
    }

    method ParseAuthority(url: string, defPort: nat, start: nat, portLoc: Option<nat>, firstSlash: Option<nat>)
      requires start <= |url| && (portLoc.Some? ==> portLoc.value < |url|)
      modifies this`credentials, this`host, this`port
      ensures credentials == LoginOf(url, start, Find(url, '@', start))
      ensures host == HostOf(url, HostStart(start, Find(url, '@', start)), portLoc, firstSlash)
      ensures port == PortOf(url, portLoc, firstSlash, defPort)
    {
      var credentialStart := Find(url, '@', start);
      var offsetCredentials := HostStart(start, credentialStart);
      if credentialStart.Some? {
        credentials := Substr(url, start, offsetCredentials - start - 1);
      } else {
        credentials := "";
      }
      assert credentials == LoginOf(url, start, credentialStart);
      if portLoc.Some? {
        host := Substr(url, offsetCredentials, portLoc.value - offsetCredentials);
        port := Atoi(Upto(url, portLoc.value + 1, firstSlash)) % 0x1_0000;
      } else {
        host := Upto(url, offsetCredentials, firstSlash);
        port := defPort;
      }
      assert host == HostOf(url, offsetCredentials, portLoc, firstSlash);
    }

    /** Without a slash the path starts at the very beginning. */
    method ParsePath(url: string, firstSlash: Option<nat>)
      requires firstSlash.Some? ==> firstSlash.value < |url|
      modifies this`resource, this`query
      ensures (resource, query) == PathOf(url, firstSlash)
    {
      var path := if firstSlash.Some? then firstSlash.value + 1 else 0;
      var queryStart := Find(url, '?', path);
      if queryStart.None? {
        resource := Substr(url, path, |url|);
        assert resource == url[path..];
        query := "";
      } else {
        resource := Substr(url, path, queryStart.value - path);
        query := Substr(url, queryStart.value + 1, |url|);
      }
    }

    method GetNumFields() returns (numFields: nat)
      ensures numFields == NumFields(query)
    {
      var l := |query|;
      numFields := if l != 0 then 1 else 0;
      for i := 0 to l
        invariant numFields == (if l != 0 then 1 else 0) + Ampersands(query[..i])
      {
        assert query[..i + 1] == query[..i] + [query[i]];
        AmpersandsMore(query[..i], query[i]);
        if query[i] == '&' { numFields := numFields + 1; }
      }
      assert query[..l] == query;
    }
  }

  /** The text from a position up to another, or to the end when there is none. */
  function Upto(s: string, pos: nat, end: Option<nat>): string
    requires pos <= |s|
  {
    if end.None? then s[pos..] else Substr(s, pos, end.value - pos)
  }

  datatype Parts = Parts(protocol: string, credentials: string, host: string, port: int, resource: string,
                         query: string)

  const NOTHING := Parts("", "", "", 0, "", "")

  /** What comes before the first at sign, if there is one. */
  function LoginOf(url: string, start: nat, at: Option<nat>): string
    requires start <= |url| && (at.Some? ==> start <= at.value < |url|)
  {
    if at.Some? then url[start..at.value] else ""
  }

  function HostStart(start: nat, at: Option<nat>): nat {
    if at.Some? then at.value + 1 else start
  }

  /** What comes then, up to the place of the port, or to the slash. */
  function HostOf(url: string, hostStart: nat, portLoc: Option<nat>, firstSlash: Option<nat>): string
    requires hostStart <= |url|
  {
    if portLoc.Some? then Substr(url, hostStart, portLoc.value - hostStart) else Upto(url, hostStart, firstSlash)
  }

  function PortOf(url: string, portLoc: Option<nat>, firstSlash: Option<nat>, defPort: nat): int
    requires portLoc.Some? ==> portLoc.value < |url|
  {
    if portLoc.Some? then Atoi(Upto(url, portLoc.value + 1, firstSlash)) % 0x1_0000 else defPort
  }

  /** Resource and query; without a slash they are looked for from the very beginning. */
  function PathOf(url: string, firstSlash: Option<nat>): (string, string)
    requires firstSlash.Some? ==> firstSlash.value < |url|
  {
    var path := if firstSlash.Some? then firstSlash.value + 1 else 0;
    var mark := Find(url, '?', path);
    if mark.None? then (url[path..], "") else (url[path..mark.value], url[mark.value + 1..])
  }

  /** All components, once the separators are found. */
  function ParseAt(url: string, defPort: nat, end: nat, portLoc: Option<nat>, firstSlash: Option<nat>): Parts
    requires end + 3 <= |url| && (portLoc.Some? ==> portLoc.value < |url|)
      && (firstSlash.Some? ==> firstSlash.value < |url|)
  {
    var at := Find(url, '@', end + 3);
    var path := PathOf(url, firstSlash);
    Parts(url[..end], LoginOf(url, end + 3, at), HostOf(url, HostStart(end + 3, at), portLoc, firstSlash),
          PortOf(url, portLoc, firstSlash, defPort), path.0, path.1)
  }

  function FindSlash(url: string, start: nat, portLoc: Option<nat>): (r: Option<nat>)
    ensures r.Some? ==> r.value < |url|
  {
    Find(url, '/', if portLoc.None? then start else portLoc.value + 1)
  }

  /** What the parser makes of a text. */
  function Parse(url: string, defPort: nat): Parts {
    var protoEnd := FindScheme(url, 0);
    if protoEnd.None? then NOTHING
    else
      var portLoc := Find(url, ':', protoEnd.value + 3);
      ParseAt(url, defPort, protoEnd.value, portLoc, FindSlash(url, protoEnd.value + 3, portLoc))
  }

  // ---- Printing ----

  /** The components of a URL, after section 3 of RFC 3986; credentials, port and query may be missing. */
  datatype Components = Components(protocol: string, credentials: Option<string>, host: string, port: Option<nat>,
                                   resource: string, query: Option<string>)

  function Authority(u: Components): string {
    Login(u) + u.host + PortText(u)
  }

  function Path(u: Components): string {
    u.resource + if u.query.Some? then "?" + u.query.value else ""
  }

  function Print(u: Components): string {
    u.protocol + "://" + Authority(u) + "/" + Path(u)
  }

  predicate Free(s: string, c: char) {
    forall i | 0 <= i < |s| :: s[i] != c
  }

  /** The components as section 3 of RFC 3986 separates them: no "://" in the protocol, no slash or at sign before the
      path but the one that ends the credentials, and no question mark before the query. */
  predicate WellSeparated(u: Components) {
    && FindScheme(u.protocol, 0).None?
    && Free(u.host, '@') && Free(u.host, '/') && Free(u.resource, '?')
    && (u.credentials.Some? ==> Free(u.credentials.value, '@') && Free(u.credentials.value, '/'))
    && (u.port.Some? ==> u.port.value < 0x1_0000)
  }

  /** The at sign the parser takes for the end of the credentials is that end, if there is one. */
  predicate LoginIsPlain(u: Components) {
    u.credentials.None? ==> Free(Path(u), '@')
  }

  /** The colon the parser takes for that of the port is that one, if there is one. */
  predicate PortIsPlain(u: Components) {
    && (u.credentials.Some? ==> Free(u.credentials.value, ':')) && Free(u.host, ':')
    && (u.port.None? ==> Free(Path(u), ':'))
  }

  function Meant(u: Components, defPort: nat): Parts {
    Parts(u.protocol, if u.credentials.Some? then u.credentials.value else "", u.host,
          if u.port.Some? then u.port.value else defPort, u.resource, if u.query.Some? then u.query.value else "")
  }

  function Start(u: Components): string {
    u.protocol + "://"
  }

  function Login(u: Components): string {
    if u.credentials.Some? then u.credentials.value + "@" else ""
  }

  function PortText(u: Components): string {
    if u.port.Some? then ":" + Decimal(u.port.value) else ""
  }

  /** What comes before the path, and before the port. */
  function BeforePort(u: Components): string {
    Start(u) + Login(u) + u.host
  }

  /** Where the printed separators are. */
  function PortLoc(u: Components): Option<nat> {
    if u.port.Some? then Some(|BeforePort(u)|) else None
  }

  function SlashLoc(u: Components): nat {
    |BeforePort(u)| + |PortText(u)|
  }

  lemma PrintIs(u: Components)
    ensures Print(u) == BeforePort(u) + PortText(u) + "/" + Path(u)
  {
    assert Authority(u) == Login(u) + u.host + PortText(u);
    assert Print(u) == Start(u) + (Login(u) + u.host + PortText(u)) + "/" + Path(u);
  }

  lemma FreeParts(s: string, t: string, c: char)
    ensures Free(s + t, c) <==> Free(s, c) && Free(t, c)
  {
    if Free(s + t, c) {
      assert forall i | 0 <= i < |s| :: s[i] == (s + t)[i];
      assert forall i | 0 <= i < |t| :: t[i] == (s + t)[|s| + i];
    }
  }

  lemma DigitsFree(n: nat, c: char)
    requires !IsDigit(c)
    ensures Free(Decimal(n), c)
  {
  }

  /** A character that the text after `x` is free of is found at the end of it. */
  lemma FindAfter(x: string, y: string, c: char, z: string)
    requires Free(y, c)
    ensures Find(x + y + [c] + z, c, |x|) == Some(|x| + |y|)
  {
    FindIs(x + y, c, z, |x|);
  }

  lemma FindNowhere(x: string, y: string, c: char)
    requires Free(y, c)
    ensures Find(x + y, c, |x|).None?
  {
    FindNone(x + y, c, |x|);
  }

  lemma SchemeFound(u: Components)
    requires FindScheme(u.protocol, 0).None?
    ensures FindScheme(Print(u), 0) == Some(|u.protocol|)
    ensures Print(u)[..|u.protocol|] == u.protocol && |Start(u)| == |u.protocol| + 3
  {
    FindSchemeIs(u.protocol, Authority(u) + "/" + Path(u), 0);
    assert Print(u) == u.protocol + "://" + (Authority(u) + "/" + Path(u));
  }

  /** What comes after the credentials. */
  function AfterLogin(u: Components): string {
    u.host + PortText(u) + "/" + Path(u)
  }

  lemma PrintedWithLogin(u: Components)
    requires u.credentials.Some?
    ensures Print(u) == Start(u) + u.credentials.value + ['@'] + AfterLogin(u)
  {
    PrintIs(u);
  }

  lemma PrintedWithoutLogin(u: Components)
    requires u.credentials.None?
    ensures Print(u) == Start(u) + AfterLogin(u)
  {
    PrintIs(u);
  }

  lemma PrintedWithPort(u: Components)
    requires u.port.Some?
    ensures Print(u) == Start(u) + (Login(u) + u.host) + [':'] + (Decimal(u.port.value) + "/" + Path(u))
  {
    PrintIs(u);
  }

  lemma PrintedWithoutPort(u: Components)
    requires u.port.None?
    ensures Print(u) == Start(u) + (Login(u) + u.host + ("/" + Path(u)))
  {
    PrintIs(u);
  }

  lemma NoColon(u: Components)
    requires PortIsPlain(u)
    ensures Free(Login(u) + u.host, ':') && (u.port.None? ==> Free(Login(u) + u.host + ("/" + Path(u)), ':'))
  {
    FreeParts(Login(u), u.host, ':');
    FreeParts("/", Path(u), ':');
    FreeParts(Login(u) + u.host, "/" + Path(u), ':');
  }

  /** Where the parser finds a port: after the host, if one is printed and no other colon can be taken for it. */
  lemma PortFound(u: Components)
    requires WellSeparated(u) && PortIsPlain(u)
    ensures Find(Print(u), ':', |Start(u)|) == PortLoc(u)
  {
    NoColon(u);
    if u.port.Some? {
      PrintedWithPort(u);
      FindAfter(Start(u), Login(u) + u.host, ':', Decimal(u.port.value) + "/" + Path(u));
    } else {
      PrintedWithoutPort(u);
      FindNowhere(Start(u), Login(u) + u.host + ("/" + Path(u)), ':');
    }
  }

  /** The first slash after the host, or after the colon of the port, ends the authority. */
  lemma SlashFound(u: Components)
    requires WellSeparated(u)
    ensures FindSlash(Print(u), |Start(u)|, PortLoc(u)) == Some(SlashLoc(u))
  {
    if u.port.Some? { SlashAfterPort(u); } else { SlashAfterHost(u); }
  }

  lemma SlashAfterPort(u: Components)
    requires u.port.Some?
    ensures Find(Print(u), '/', |BeforePort(u)| + 1) == Some(SlashLoc(u))
  {
    DigitsFree(u.port.value, '/');
    PrintedPastPort(u);
    PortEnds(u);
    FindAfter(BeforePort(u) + ":", Decimal(u.port.value), '/', Path(u));
  }

  lemma SlashAfterHost(u: Components)
    requires u.port.None? && Free(Login(u), '/') && Free(u.host, '/')
    ensures Find(Print(u), '/', |Start(u)|) == Some(SlashLoc(u))
  {
    FreeParts(Login(u), u.host, '/');
    PrintedPortless(u);
    FindAfter(Start(u), Login(u) + u.host, '/', Path(u));
  }

  lemma PrintedPastPort(u: Components)
    requires u.port.Some?
    ensures Print(u) == BeforePort(u) + ":" + Decimal(u.port.value) + ['/'] + Path(u)
  {
    PrintIs(u);
    Assoc(BeforePort(u), ":", Decimal(u.port.value));
  }

  lemma PortEnds(u: Components)
    requires u.port.Some?
    ensures |BeforePort(u) + ":"| == |BeforePort(u)| + 1
    ensures |BeforePort(u) + ":"| + |Decimal(u.port.value)| == SlashLoc(u)
  {
  }

  lemma PrintedPortless(u: Components)
    requires u.port.None?
    ensures Print(u) == Start(u) + (Login(u) + u.host) + ['/'] + Path(u)
    ensures |Start(u)| + |Login(u) + u.host| == SlashLoc(u)
  {
    PrintIs(u);
  }

  lemma LoginFound(u: Components)
    requires WellSeparated(u) && LoginIsPlain(u)
    ensures Find(Print(u), '@', |Start(u)|) == if u.credentials.Some? then Some(|Start(u)| + |u.credentials.value|)
      else None
  {
    if u.credentials.Some? {
      PrintedWithLogin(u);
      FindAfter(Start(u), u.credentials.value, '@', AfterLogin(u));
    } else {
      PrintedWithoutLogin(u);
      NoAtSign(u);
      FindNowhere(Start(u), AfterLogin(u), '@');
    }
  }

  lemma NoAtSign(u: Components)
    requires Free(u.host, '@') && Free(Path(u), '@')
    ensures Free(AfterLogin(u), '@')
  {
    if u.port.Some? { DigitsFree(u.port.value, '@'); }
    FreeParts(u.host, PortText(u), '@');
    FreeParts(u.host + PortText(u), "/", '@');
    FreeParts(u.host + PortText(u) + "/", Path(u), '@');
  }

  lemma PathParses(u: Components)
    requires WellSeparated(u)
    ensures SlashLoc(u) < |Print(u)|
    ensures PathOf(Print(u), Some(SlashLoc(u))) == (Meant(u, 0).resource, Meant(u, 0).query)
  {
    PrintIs(u);
    var x := BeforePort(u) + PortText(u) + "/";
    if u.query.Some? {
      PathWithQuery(u, x);
      MarkedPath(x, u.resource, u.query.value);
    } else {
      PathWithoutQuery(u);
      PlainPath(x, u.resource);
    }
  }

  lemma PathWithQuery(u: Components, x: string)
    requires u.query.Some?
    ensures x + Path(u) == x + u.resource + ['?'] + u.query.value
  {
    Assoc(x + u.resource, "?", u.query.value);
    Assoc(x, u.resource, "?" + u.query.value);
  }

  lemma PathWithoutQuery(u: Components)
    requires u.query.None?
    ensures Path(u) == u.resource
  {
  }

  lemma PlainPath(x: string, r: string)
    requires Free(r, '?') && x != ""
    ensures PathOf(x + r, Some(|x| - 1)) == (r, "")
  {
    FindNowhere(x, r, '?');
    assert (x + r)[|x|..] == r;
  }

  lemma MarkedPath(x: string, r: string, q: string)
    requires Free(r, '?') && x != ""
    ensures PathOf(x + r + ['?'] + q, Some(|x| - 1)) == (r, q)
  {
    var url := x + r + ['?'] + q;
    FindAfter(x, r, '?', q);
    assert url[|x|..|x| + |r|] == r && url[|x| + |r| + 1..] == q;
  }

  lemma HostParses(u: Components)
    ensures var start := |Start(u)| + |Login(u)|;
      && start + |u.host| <= |Print(u)| && Print(u)[start..start + |u.host|] == u.host
      && (u.credentials.Some? ==> Print(u)[|Start(u)|..|Start(u)| + |u.credentials.value|] == u.credentials.value)
  {
    PrintIs(u);
    assert Print(u) == Start(u) + Login(u) + u.host + (PortText(u) + "/" + Path(u));
  }

  lemma PortParses(u: Components)
    requires u.port.Some?
    ensures |BeforePort(u)| + |PortText(u)| < |Print(u)|
    ensures Atoi(Print(u)[|BeforePort(u)| + 1..|BeforePort(u)| + |PortText(u)|]) == u.port.value
  {
    PrintIs(u);
    assert Print(u) == BeforePort(u) + ":" + Decimal(u.port.value) + ("/" + Path(u));
    assert Print(u)[|BeforePort(u)| + 1..|BeforePort(u)| + |PortText(u)|] == Decimal(u.port.value);
    ReadsBack(u.port.value, "");
    assert Decimal(u.port.value) + "" == Decimal(u.port.value);
  }

  /** What the credentials and the host are read as, once the separators are found where they were printed. */
  lemma AuthorityParses(u: Components)
    requires WellSeparated(u) && LoginIsPlain(u)
    ensures |Start(u)| <= |Print(u)| && SlashLoc(u) < |Print(u)|
    ensures var at := Find(Print(u), '@', |Start(u)|);
      && LoginOf(Print(u), |Start(u)|, at) == (if u.credentials.Some? then u.credentials.value else "")
      && HostOf(Print(u), HostStart(|Start(u)|, at), PortLoc(u), Some(SlashLoc(u))) == u.host
  {
    PrintLength(u);
    LoginReads(u);
    HostReads(u);
  }

  lemma LoginReads(u: Components)
    requires WellSeparated(u) && LoginIsPlain(u) && |Start(u)| <= |Print(u)|
    ensures var at := Find(Print(u), '@', |Start(u)|);
      && LoginOf(Print(u), |Start(u)|, at) == (if u.credentials.Some? then u.credentials.value else "")
      && HostStart(|Start(u)|, at) == |Start(u)| + |Login(u)|
  {
    LoginFound(u);
    HostParses(u);
  }

  lemma HostReads(u: Components)
    requires |Start(u)| + |Login(u)| <= |Print(u)|
    ensures HostOf(Print(u), |Start(u)| + |Login(u)|, PortLoc(u), Some(SlashLoc(u))) == u.host
  {
    HostParses(u);
    PrintLength(u);
    HostBetween(Print(u), |Start(u)| + |Login(u)|, PortLoc(u), SlashLoc(u), |BeforePort(u)|);
  }

  lemma HostBetween(url: string, hostStart: nat, portLoc: Option<nat>, slash: nat, end: nat)
    requires hostStart <= end <= |url| && (if portLoc.Some? then portLoc.value else slash) == end
    ensures HostOf(url, hostStart, portLoc, Some(slash)) == url[hostStart..end]
  {
  }

  lemma PortReads(u: Components, defPort: nat)
    requires u.port.Some? ==> u.port.value < 0x1_0000
    ensures SlashLoc(u) < |Print(u)|
    ensures PortOf(Print(u), PortLoc(u), Some(SlashLoc(u)), defPort) == if u.port.Some? then u.port.value else defPort
  {
    PrintLength(u);
    if u.port.Some? {
      PortParses(u);
      PortBetween(Print(u), |BeforePort(u)|, SlashLoc(u), defPort, u.port.value);
    }
  }

  lemma PortBetween(url: string, colon: nat, slash: nat, defPort: nat, n: nat)
    requires colon < slash < |url| && Atoi(url[colon + 1..slash]) == n < 0x1_0000
    ensures PortOf(url, Some(colon), Some(slash), defPort) == n
  {
  }

  lemma PrintLength(u: Components)
    ensures |Print(u)| == |BeforePort(u)| + |PortText(u)| + 1 + |Path(u)|
    ensures |BeforePort(u)| == |Start(u)| + |Login(u)| + |u.host|
  {
    PrintIs(u);
  }

  /** A colon in the credentials is taken for that of a port, and what is left of it for the host. */
  lemma ColonMisleads(u: Components, defPort: nat)
    requires WellSeparated(u) && u.credentials.Some? && !Free(u.credentials.value, ':')
    ensures |Parse(Print(u), defPort).host| > |u.host|
  {
    var url, start := Print(u), |Start(u)|;
    var c := u.credentials.value;
    SchemeFound(u);
    LoginFound(u);
    PrintLength(u);
    ColonInLogin(u);
    MisreadHost(url, defPort, |u.protocol|, start + |c|);
  }

  lemma MisreadHost(url: string, defPort: nat, end: nat, at: nat)
    requires FindScheme(url, 0) == Some(end) && Find(url, '@', end + 3) == Some(at)
    requires var portLoc := Find(url, ':', end + 3); portLoc.Some? && portLoc.value < at
    ensures at < |url| && Parse(url, defPort).host == url[at + 1..]
  {
    var portLoc := Find(url, ':', end + 3);
    var slash := FindSlash(url, end + 3, portLoc);
    ParseFound(url, defPort, end, portLoc, slash);
    MisreadAt(url, defPort, end, portLoc.value, slash, at);
  }

  lemma MisreadAt(url: string, defPort: nat, end: nat, colon: nat, slash: Option<nat>, at: nat)
    requires end + 3 <= |url| && colon < at && Find(url, '@', end + 3) == Some(at)
      && (slash.Some? ==> slash.value < |url|)
    ensures at < |url| && ParseAt(url, defPort, end, Some(colon), slash).host == url[at + 1..]
  {
    HostAt(url, defPort, end, Some(colon), slash);
  }

  lemma ColonInLogin(u: Components)
    requires u.credentials.Some? && !Free(u.credentials.value, ':')
    ensures var portLoc := Find(Print(u), ':', |Start(u)|);
      portLoc.Some? && portLoc.value < |Start(u)| + |u.credentials.value|
  {
    PrintedWithLogin(u);
    FoundWithin(Start(u), u.credentials.value, ['@'], AfterLogin(u), ':');
  }

  /** A character that is missing in the first of some texts is found in the next that has it. */
  lemma FoundIn(x: string, y: string, z: string, rest: string, c: char)
    requires Free(y, c) && !Free(z, c)
    ensures var r := Find(x + y + z + rest, c, |x|); r.Some? && |x| + |y| <= r.value < |x| + |y| + |z|
  {
    var s := x + y + z + rest;
    var i :| 0 <= i < |z| && z[i] == c;
    assert s[|x| + |y| + i] == c;
    FoundBefore(s, c, |x|, |x| + |y| + i);
    assert forall k | |x| <= k < |x| + |y| :: s[k] == y[k - |x|];
  }

  lemma FoundWithin(x: string, z: string, t: string, rest: string, c: char)
    requires !Free(z, c)
    ensures var r := Find(x + z + t + rest, c, |x|); r.Some? && r.value < |x| + |z|
  {
    Assoc(x + z, t, rest);
    assert x + "" == x;
    FoundIn(x, "", z, t + rest, c);
  }

  /** The first place of a character is at or before any place of it. */
  lemma {:induction false} FoundBefore(s: string, c: char, from: nat, i: nat)
    requires from <= i < |s| && s[i] == c
    ensures Find(s, c, from).Some? && Find(s, c, from).value <= i
    decreases i - from
  {
    if s[from] != c { FoundBefore(s, c, from + 1, i); }
  }

  /** Without credentials, an at sign in the path or the query makes what stands before it the credentials. */
  lemma AtSignMisleads(u: Components, defPort: nat)
    requires WellSeparated(u) && u.credentials.None? && !Free(Path(u), '@')
    ensures Parse(Print(u), defPort).credentials != ""
  {
    SchemeFound(u);
    AtSignInPath(u);
    LoginReadUpTo(Print(u), defPort, |u.protocol|, Find(Print(u), '@', |Start(u)|).value);
  }

  lemma AtSignInPath(u: Components)
    requires Free(u.host, '@') && u.credentials.None? && !Free(Path(u), '@')
    ensures var at := Find(Print(u), '@', |Start(u)|); at.Some? && |Start(u)| < at.value
  {
    PrintedWithoutLogin(u);
    FreeParts(u.host + PortText(u) + "/", Path(u), '@');
    assert AfterLogin(u)[0] == (u.host + PortText(u) + "/")[0] != '@';
    FindInside(Start(u), AfterLogin(u), '@');
  }

  lemma FindInside(x: string, y: string, c: char)
    requires !Free(y, c) && y[0] != c
    ensures var r := Find(x + y, c, |x|); r.Some? && |x| < r.value
  {
    assert y == [y[0]] + y[1..];
    FreeParts([y[0]], y[1..], c);
    InTwo(x, y);
    FoundIn(x, [y[0]], y[1..], "", c);
  }

  lemma InTwo(x: string, y: string)
    requires y != ""
    ensures x + y == x + [y[0]] + y[1..] + ""
  {
  }

  lemma LoginReadUpTo(url: string, defPort: nat, end: nat, at: nat)
    requires FindScheme(url, 0) == Some(end) && Find(url, '@', end + 3) == Some(at)
    ensures Parse(url, defPort).credentials == url[end + 3..at]
  {
    var portLoc := Find(url, ':', end + 3);
    ParseFound(url, defPort, end, portLoc, FindSlash(url, end + 3, portLoc));
    LoginAt(url, defPort, end, portLoc, FindSlash(url, end + 3, portLoc));
  }

  lemma LoginAt(url: string, defPort: nat, end: nat, portLoc: Option<nat>, slash: Option<nat>)
    requires end + 3 <= |url| && (portLoc.Some? ==> portLoc.value < |url|) && (slash.Some? ==> slash.value < |url|)
    ensures ParseAt(url, defPort, end, portLoc, slash).credentials == LoginOf(url, end + 3, Find(url, '@', end + 3))
  {
  }

  /** A colon in the host, or one in the path or the query when no port is printed, is where the host is read up to. */
  lemma ColonMovesPort(u: Components)
    requires !Free(u.host, ':') || (u.port.None? && !Free(Path(u), ':'))
    requires u.credentials.Some? ==> Free(u.credentials.value, ':')
    ensures var portLoc := Find(Print(u), ':', |Start(u)|);
      portLoc.Some? && |Start(u)| + |Login(u)| <= portLoc.value != |BeforePort(u)|
  {
    PrintLength(u);
    if u.credentials.Some? { FreeParts(u.credentials.value, "@", ':'); }
    if !Free(u.host, ':') {
      PrintedAroundHost(u);
      FoundIn(Start(u), Login(u), u.host, PortText(u) + "/" + Path(u), ':');
    } else {
      FreeParts(Login(u), u.host, ':');
      FreeParts(Login(u) + u.host, "/", ':');
      PrintedToSlash(u);
      FoundIn(Start(u), Login(u) + u.host + "/", Path(u), "", ':');
    }
  }

  lemma PrintedAroundHost(u: Components)
    ensures Print(u) == Start(u) + Login(u) + u.host + (PortText(u) + "/" + Path(u))
  {
    PrintIs(u);
  }

  lemma PrintedToSlash(u: Components)
    requires u.port.None?
    ensures Print(u) == Start(u) + (Login(u) + u.host + "/") + Path(u) + ""
  {
    PrintIs(u);
  }

  /** So the host comes out shorter or longer than it was. */
  lemma ColonOutsideMisleads(u: Components, defPort: nat)
    requires WellSeparated(u) && LoginIsPlain(u) && (u.credentials.Some? ==> Free(u.credentials.value, ':'))
    requires !PortIsPlain(u)
    ensures |Parse(Print(u), defPort).host| != |u.host|
  {
    SchemeFound(u);
    LoginFound(u);
    PrintLength(u);
    ColonMovesPort(u);
    var portLoc := Find(Print(u), ':', |Start(u)|);
    HostReadUpTo(Print(u), defPort, |u.protocol|, |Start(u)| + |Login(u)|, portLoc.value);
  }

  lemma HostReadUpTo(url: string, defPort: nat, end: nat, hostStart: nat, colon: nat)
    requires FindScheme(url, 0) == Some(end) && end + 3 <= |url| && Find(url, ':', end + 3) == Some(colon)
    requires var at := Find(url, '@', end + 3); hostStart == if at.Some? then at.value + 1 else end + 3
    requires hostStart <= colon
    ensures Parse(url, defPort).host == url[hostStart..colon]
  {
    var slash := FindSlash(url, end + 3, Some(colon));
    ParseFound(url, defPort, end, Some(colon), slash);
    HostAt(url, defPort, end, Some(colon), slash);
  }

  lemma HostAt(url: string, defPort: nat, end: nat, portLoc: Option<nat>, slash: Option<nat>)
    requires end + 3 <= |url| && (portLoc.Some? ==> portLoc.value < |url|) && (slash.Some? ==> slash.value < |url|)
    ensures ParseAt(url, defPort, end, portLoc, slash).host
         == HostOf(url, HostStart(end + 3, Find(url, '@', end + 3)), portLoc, slash)
  {
  }

  /** The round trip: of well-separated components, parsing the printed URL gives all back exactly when no at sign is
      taken for the end of credentials that are not there, and no colon for that of a port. */
  lemma RoundTripIff(u: Components, defPort: nat)
    requires WellSeparated(u)
    ensures Parse(Print(u), defPort) == Meant(u, defPort) <==>
            && (u.credentials.None? ==> Free(Path(u), '@'))
            && (u.credentials.Some? ==> Free(u.credentials.value, ':')) && Free(u.host, ':')
            && (u.port.None? ==> Free(Path(u), ':'))
  {
    if !LoginIsPlain(u) {
      AtSignMisleads(u, defPort);
    } else if u.credentials.Some? && !Free(u.credentials.value, ':') {
      ColonMisleads(u, defPort);
    } else if !PortIsPlain(u) {
      ColonOutsideMisleads(u, defPort);
    } else {
      PrintedParses(u, defPort);
    }
  }

  // ---- One URL for each way the round trip fails ----

  lemma Assoc(x: string, y: string, z: string)
    ensures (x + y) + z == x + (y + z)
  {
  }

  lemma Middle(x: string, y: string, z: string)
    ensures (x + (y + z))[|x|..|x| + |y|] == y && (x + (y + z))[|x| + |y|..] == z
  {
  }

  lemma SchemeOf(protocol: string, before: string, c: char, after: string)
    requires FindScheme(protocol, 0).None?
    ensures |protocol + "://"| == |protocol| + 3
    ensures FindScheme(protocol + "://" + before + [c] + after, 0) == Some(|protocol|)
  {
    Assoc(protocol + "://" + before, [c], after);
    Assoc(protocol + "://", before, [c] + after);
    FindSchemeIs(protocol, before + ([c] + after), 0);
  }

  /** Where the parser finds a separator, and what stands before and after it. */
  lemma FirstOf(start: string, before: string, c: char, after: string)
    requires Free(before, c)
    ensures var url := start + before + [c] + after;
      && Find(url, c, |start|) == Some(|start| + |before|)
      && url[|start|..|start| + |before|] == before && url[|start| + |before| + 1..] == after
  {
    FindAfter(start, before, c, after);
    Assoc(start + before, [c], after);
    Assoc(start, before, [c] + after);
    Middle(start, before, [c] + after);
    Middle(start + before, [c], after);
  }

  lemma NoneOf(protocol: string, before: string, middle: string, after: string, c: char)
    requires Free(before + (middle + after), c)
    ensures Find(protocol + "://" + before + middle + after, c, |protocol| + 3).None?
  {
    var start := protocol + "://";
    Assoc(start + before, middle, after);
    Assoc(start, before, middle + after);
    FindNowhere(start, before + (middle + after), c);
  }

  /** The host reaches to the first colon, wherever that stands. */
  lemma HostEndsAtColon(protocol: string, before: string, after: string, defPort: nat)
    requires FindScheme(protocol, 0).None? && Free(before, ':') && Free(before + ([':'] + after), '@')
    ensures Parse(protocol + "://" + before + [':'] + after, defPort).host == before
  {
    SchemeOf(protocol, before, ':', after);
    FirstOf(protocol + "://", before, ':', after);
    NoneOf(protocol, before, [':'], after, '@');
    HostReadUpTo(protocol + "://" + before + [':'] + after, defPort, |protocol|, |protocol| + 3,
                 |protocol| + 3 + |before|);
  }

  /** The credentials reach to the first at sign. */
  lemma LoginEndsAtSign(protocol: string, before: string, after: string, defPort: nat)
    requires FindScheme(protocol, 0).None? && Free(before, '@')
    ensures Parse(protocol + "://" + before + ['@'] + after, defPort).credentials == before
  {
    SchemeOf(protocol, before, '@', after);
    FirstOf(protocol + "://", before, '@', after);
    LoginReadUpTo(protocol + "://" + before + ['@'] + after, defPort, |protocol|, |protocol| + 3 + |before|);
  }

  /** With a colon in them, the host reaches from behind them to the end. */
  lemma HostReachesEnd(protocol: string, login: string, after: string, defPort: nat)
    requires FindScheme(protocol, 0).None? && !Free(login, ':') && Free(login, '@')
    ensures Parse(protocol + "://" + login + ['@'] + after, defPort).host == after
  {
    SchemeOf(protocol, login, '@', after);
    FirstOf(protocol + "://", login, '@', after);
    ColonBefore(protocol, login, after);
    MisreadHost(protocol + "://" + login + ['@'] + after, defPort, |protocol|, |protocol| + 3 + |login|);
  }

  lemma ColonBefore(protocol: string, login: string, after: string)
    requires !Free(login, ':')
    ensures var colon := Find(protocol + "://" + login + ['@'] + after, ':', |protocol| + 3);
      colon.Some? && colon.value < |protocol| + 3 + |login|
  {
    FoundWithin(protocol + "://", login, ['@'], after, ':');
  }

  /** A colon in a path is taken for that of a port: of p://h/a:b the host is read as h/a. */
  function ColonInPath(p: string): Components {
    Components(p, None, "h", None, "a:b", None)
  }

  lemma ColonInPathPrinted(p: string)
    requires FindScheme(p, 0).None?
    ensures WellSeparated(ColonInPath(p)) && Print(ColonInPath(p)) == p + "://h/a:b"
  {
  }

  lemma ColonInPathParts(p: string)
    ensures Print(ColonInPath(p)) == p + "://" + "h/a" + [':'] + "b"
  {
  }

  lemma ColonInPathMisread(p: string, defPort: nat)
    requires FindScheme(p, 0).None?
    ensures WellSeparated(ColonInPath(p)) && Parse(Print(ColonInPath(p)), defPort).host == "h/a"
  {
    ColonInPathPrinted(p);
    ColonInPathParts(p);
    HostEndsAtColon(p, "h/a", "b", defPort);
  }

  /** So is the first colon of an IPv6 address: of p://[::1]/ the host is read as an opening bracket. */
  function ColonInAddress(p: string): Components {
    Components(p, None, "[::1]", None, "", None)
  }

  lemma ColonInAddressPrinted(p: string)
    requires FindScheme(p, 0).None?
    ensures WellSeparated(ColonInAddress(p)) && Print(ColonInAddress(p)) == p + "://[::1]/"
  {
  }

  lemma ColonInAddressParts(p: string)
    ensures Print(ColonInAddress(p)) == p + "://" + "[" + [':'] + ":1]/"
  {
  }

  lemma ColonInAddressMisread(p: string, defPort: nat)
    requires FindScheme(p, 0).None?
    ensures WellSeparated(ColonInAddress(p)) && Parse(Print(ColonInAddress(p)), defPort).host == "["
  {
    ColonInAddressPrinted(p);
    ColonInAddressParts(p);
    HostEndsAtColon(p, "[", ":1]/", defPort);
  }

  /** So is the colon before a password: of p://u:w@h/ the host is read as h/. */
  function ColonBeforeSecret(p: string): Components {
    Components(p, Some("u:w"), "h", None, "", None)
  }

  lemma ColonBeforeSecretPrinted(p: string)
    requires FindScheme(p, 0).None?
    ensures Print(ColonBeforeSecret(p)) == p + "://u:w@h/"
  {
    ColonBeforeSecretParts(p);
  }

  lemma ColonBeforeSecretSeparated(p: string)
    requires FindScheme(p, 0).None?
    ensures WellSeparated(ColonBeforeSecret(p))
  {
  }

  lemma SecretHasColon()
    ensures !Free("u:w", ':') && Free("u:w", '@')
  {
    assert "u:w"[1] == ':';
  }

  lemma ColonBeforeSecretParts(p: string)
    ensures Print(ColonBeforeSecret(p)) == p + "://" + "u:w" + ['@'] + "h/"
  {
  }

  lemma ColonBeforeSecretMisread(p: string, defPort: nat)
    requires FindScheme(p, 0).None?
    ensures WellSeparated(ColonBeforeSecret(p)) && Parse(Print(ColonBeforeSecret(p)), defPort).host == "h/"
  {
    ColonBeforeSecretSeparated(p);
    ColonBeforeSecretParts(p);
    SecretHasColon();
    HostReachesEnd(p, "u:w", "h/", defPort);
  }

  /** An at sign in a query is taken for the end of credentials: of p://h/?m=a@b they are read as h/?m=a. */
  function AtSignInQuery(p: string): Components {
    Components(p, None, "h", None, "", Some("m=a@b"))
  }

  lemma AtSignInQueryPrinted(p: string)
    requires FindScheme(p, 0).None?
    ensures WellSeparated(AtSignInQuery(p)) && Print(AtSignInQuery(p)) == p + "://h/?m=a@b"
  {
  }

  lemma AtSignInQueryParts(p: string)
    ensures Print(AtSignInQuery(p)) == p + "://" + "h/?m=a" + ['@'] + "b" && Free("h/?m=a", '@')
  {
  }

  lemma AtSignInQueryMisread(p: string, defPort: nat)
    requires FindScheme(p, 0).None?
    ensures WellSeparated(AtSignInQuery(p)) && Parse(Print(AtSignInQuery(p)), defPort).credentials == "h/?m=a"
  {
    AtSignInQueryPrinted(p);
    AtSignInQueryParts(p);
    LoginEndsAtSign(p, "h/?m=a", "b", defPort);
  }

  lemma PrintedParses(u: Components, defPort: nat)
    requires WellSeparated(u) && LoginIsPlain(u) && PortIsPlain(u)
    ensures Parse(Print(u), defPort) == Meant(u, defPort)
  {
    SeparatorsFound(u, defPort);
    PartsAreMeant(u, defPort);
  }

  lemma SeparatorsFound(u: Components, defPort: nat)
    requires WellSeparated(u) && PortIsPlain(u)
    ensures |u.protocol| + 3 <= |Print(u)| && SlashLoc(u) < |Print(u)|
    ensures Parse(Print(u), defPort) == ParseAt(Print(u), defPort, |u.protocol|, PortLoc(u), Some(SlashLoc(u)))
  {
    SchemeFound(u);
    PortFound(u);
    SlashFound(u);
    ParseFound(Print(u), defPort, |u.protocol|, PortLoc(u), Some(SlashLoc(u)));
  }

  lemma ParseFound(url: string, defPort: nat, end: nat, portLoc: Option<nat>, slash: Option<nat>)
    requires FindScheme(url, 0) == Some(end) && Find(url, ':', end + 3) == portLoc
    requires FindSlash(url, end + 3, portLoc) == slash
    ensures end + 3 <= |url| && (portLoc.Some? ==> portLoc.value < |url|) && (slash.Some? ==> slash.value < |url|)
    ensures Parse(url, defPort) == ParseAt(url, defPort, end, portLoc, slash)
  {
    ParseUnfolds(url, defPort, end);
  }

  lemma ParseUnfolds(url: string, defPort: nat, end: nat)
    requires FindScheme(url, 0) == Some(end)
    ensures var portLoc := Find(url, ':', end + 3);
      Parse(url, defPort) == ParseAt(url, defPort, end, portLoc, FindSlash(url, end + 3, portLoc))
  {
  }

  lemma PartsAreMeant(u: Components, defPort: nat)
    requires WellSeparated(u) && LoginIsPlain(u)
    ensures |u.protocol| + 3 <= |Print(u)| && SlashLoc(u) < |Print(u)|
    ensures ParseAt(Print(u), defPort, |u.protocol|, PortLoc(u), Some(SlashLoc(u))) == Meant(u, defPort)
  {
    SchemeFound(u);
    AuthorityParses(u);
    PortReads(u, defPort);
    PathParses(u);
    PartsAre(Print(u), defPort, |u.protocol|, PortLoc(u), Some(SlashLoc(u)), Meant(u, defPort));
  }

  /** The components one by one. */
  lemma PartsAre(url: string, defPort: nat, end: nat, portLoc: Option<nat>, slash: Option<nat>, p: Parts)
    requires end + 3 <= |url| && (portLoc.Some? ==> portLoc.value < |url|) && (slash.Some? ==> slash.value < |url|)
    requires url[..end] == p.protocol && LoginOf(url, end + 3, Find(url, '@', end + 3)) == p.credentials
    requires HostOf(url, HostStart(end + 3, Find(url, '@', end + 3)), portLoc, slash) == p.host
    requires PortOf(url, portLoc, slash, defPort) == p.port
    requires PathOf(url, slash).0 == p.resource && PathOf(url, slash).1 == p.query
    ensures ParseAt(url, defPort, end, portLoc, slash) == p
  {
  }

  // ---- Without a path ----

  /** A URL that ends with its host or its port. */
  function Bare(u: Components): string {
    BeforePort(u) + PortText(u)
  }

  predicate Unmarked(u: Components, c: char) {
    Free(u.protocol, c) && Free(Login(u), c) && Free(u.host, c)
  }

  /** Credentials, host and port are read as they were printed, with the end of the text for the slash; but the path is
      looked for from the very beginning, so that the resource is the whole text. */
  lemma BareParses(u: Components, defPort: nat)
    requires WellSeparated(u) && PortIsPlain(u) && Unmarked(u, '?')
    ensures Parse(Bare(u), defPort) == Meant(u, defPort).(resource := Bare(u), query := "")
  {
    var url, end := Bare(u), |u.protocol|;
    BareScheme(u);
    BarePort(u);
    BareSlash(u);
    ParseFound(url, defPort, end, PortLoc(u), None);
    BareLogin(u);
    BareHost(u);
    BarePortReads(u, defPort);
    BarePath(u);
    PartsAre(url, defPort, end, PortLoc(u), None, Meant(u, defPort).(resource := url, query := ""));
  }

  lemma BareScheme(u: Components)
    requires FindScheme(u.protocol, 0).None?
    ensures FindScheme(Bare(u), 0) == Some(|u.protocol|)
    ensures Bare(u)[..|u.protocol|] == u.protocol && |Start(u)| == |u.protocol| + 3 <= |Bare(u)|
  {
    FindSchemeIs(u.protocol, Login(u) + u.host + PortText(u), 0);
    BareIs(u);
    Assoc(u.protocol, "://", Login(u) + u.host + PortText(u));
  }

  lemma BareIs(u: Components)
    ensures Bare(u) == Start(u) + (Login(u) + u.host + PortText(u))
  {
    Assoc(Start(u), Login(u), u.host);
    Assoc(Start(u), Login(u) + u.host, PortText(u));
  }

  lemma BareWithPort(u: Components)
    requires u.port.Some?
    ensures Bare(u) == Start(u) + (Login(u) + u.host) + [':'] + Decimal(u.port.value)
    ensures Bare(u) == BeforePort(u) + ":" + Decimal(u.port.value)
    ensures |Start(u)| + |Login(u) + u.host| == |BeforePort(u)|
  {
    Assoc(BeforePort(u), ":", Decimal(u.port.value));
    Assoc(Start(u), Login(u), u.host);
  }

  lemma BareWithoutPort(u: Components)
    requires u.port.None?
    ensures Bare(u) == Start(u) + (Login(u) + u.host)
  {
    Assoc(Start(u), Login(u), u.host);
    assert BeforePort(u) + "" == BeforePort(u);
  }

  lemma BarePort(u: Components)
    requires PortIsPlain(u)
    ensures Find(Bare(u), ':', |Start(u)|) == PortLoc(u)
  {
    NoColon(u);
    if u.port.Some? {
      BareWithPort(u);
      FindAfter(Start(u), Login(u) + u.host, ':', Decimal(u.port.value));
    } else {
      BareWithoutPort(u);
      FindNowhere(Start(u), Login(u) + u.host, ':');
    }
  }

  lemma BareSlash(u: Components)
    requires Free(Login(u), '/') && Free(u.host, '/')
    ensures FindSlash(Bare(u), |Start(u)|, PortLoc(u)).None?
  {
    if u.port.Some? {
      BareWithPort(u);
      DigitsFree(u.port.value, '/');
      FindNowhere(BeforePort(u) + ":", Decimal(u.port.value), '/');
    } else {
      BareWithoutPort(u);
      FreeParts(Login(u), u.host, '/');
      FindNowhere(Start(u), Login(u) + u.host, '/');
    }
  }

  lemma BareLogin(u: Components)
    requires Free(u.host, '@') && (u.credentials.Some? ==> Free(u.credentials.value, '@'))
    ensures |Start(u)| + |Login(u)| + |u.host| == |BeforePort(u)| <= |Bare(u)|
    ensures var at := Find(Bare(u), '@', |Start(u)|);
      && LoginOf(Bare(u), |Start(u)|, at) == (if u.credentials.Some? then u.credentials.value else "")
      && HostStart(|Start(u)|, at) == |Start(u)| + |Login(u)|
  {
    if u.credentials.Some? {
      BareWithLogin(u);
      FirstOf(Start(u), u.credentials.value, '@', u.host + PortText(u));
    } else {
      BareWithoutLogin(u);
      if u.port.Some? { DigitsFree(u.port.value, '@'); }
      FreeParts(u.host, PortText(u), '@');
      FindNowhere(Start(u), u.host + PortText(u), '@');
    }
  }

  lemma BareWithLogin(u: Components)
    requires u.credentials.Some?
    ensures Bare(u) == Start(u) + u.credentials.value + ['@'] + (u.host + PortText(u))
  {
    Assoc(Start(u), u.credentials.value, "@");
    Assoc(Start(u) + Login(u), u.host, PortText(u));
  }

  lemma BareWithoutLogin(u: Components)
    requires u.credentials.None?
    ensures Bare(u) == Start(u) + (u.host + PortText(u))
  {
    assert Start(u) + "" == Start(u);
    Assoc(Start(u), u.host, PortText(u));
  }

  lemma BareHost(u: Components)
    requires |Start(u)| + |Login(u)| + |u.host| == |BeforePort(u)| <= |Bare(u)|
    ensures HostOf(Bare(u), |Start(u)| + |Login(u)|, PortLoc(u), None) == u.host
  {
    Assoc(Start(u) + Login(u), u.host, PortText(u));
    Middle(Start(u) + Login(u), u.host, PortText(u));
    assert u.port.None? ==> u.host + PortText(u) == u.host && Bare(u)[|Start(u)| + |Login(u)|..] == u.host;
  }

  lemma BarePortReads(u: Components, defPort: nat)
    requires u.port.Some? ==> u.port.value < 0x1_0000
    ensures u.port.Some? ==> |BeforePort(u)| < |Bare(u)|
    ensures PortOf(Bare(u), PortLoc(u), None, defPort) == if u.port.Some? then u.port.value else defPort
  {
    if u.port.Some? { BarePortWraps(u, defPort); }
  }

  /** A port is read modulo 65536. */
  lemma BarePortWraps(u: Components, defPort: nat)
    requires u.port.Some?
    ensures |BeforePort(u)| < |Bare(u)|
    ensures PortOf(Bare(u), PortLoc(u), None, defPort) == u.port.value % 0x1_0000
  {
    var d := Decimal(u.port.value);
    BareWithPort(u);
    assert Bare(u)[|BeforePort(u) + ":"|..] == d;
    ReadsBack(u.port.value, "");
    assert d + "" == d;
  }

  lemma BarePath(u: Components)
    requires Unmarked(u, '?')
    ensures PathOf(Bare(u), None) == (Bare(u), "")
  {
    FreeParts(u.protocol, "://", '?');
    FreeParts(Start(u), Login(u), '?');
    FreeParts(Start(u) + Login(u), u.host, '?');
    if u.port.Some? { DigitsFree(u.port.value, '?'); }
    FreeParts(BeforePort(u), PortText(u), '?');
    FindNone(Bare(u), '?', 0);
  }

  /** Without a slash, what stands before the first question mark of all is the resource, and the rest the query. */
  lemma SplitAtMark(x: string, q: string)
    requires Free(x, '?')
    ensures PathOf(x + ['?'] + q, None) == (x, q)
  {
    FindIs(x, '?', q, 0);
    assert (x + ['?'] + q)[..|x|] == x && (x + ['?'] + q)[|x| + 1..] == q;
  }

  /** The slash is looked for right behind the colon: a URL may have no digits between them. The port is zero then, and
      no default. */
  lemma EmptyPortParses(protocol: string, host: string, path: string, defPort: nat)
    requires FindScheme(protocol, 0).None? && Free(host, ':') && Free(host, '@') && Free(path, '@') && Free(path, '?')
    ensures Parse(protocol + "://" + host + [':'] + ("/" + path), defPort) == Parts(protocol, "", host, 0, path, "")
  {
    var url, end, colon := protocol + "://" + host + [':'] + ("/" + path), |protocol|, |protocol| + 3 + |host|;
    SchemeOf(protocol, host, ':', "/" + path);
    FirstOf(protocol + "://", host, ':', "/" + path);
    NoAtSignAfter(protocol, host, path);
    SlashAtOnce(protocol + "://" + host + [':'], path);
    ParseFound(url, defPort, end, Some(colon), Some(colon + 1));
    EmptyPortParts(protocol, host, path);
    EmptyPortPath(protocol + "://" + host + [':'], path);
    EmptyPort(url, end + 3, colon, defPort);
    PartsAre(url, defPort, end, Some(colon), Some(colon + 1), Parts(protocol, "", host, 0, path, ""));
  }

  lemma NoAtSignAfter(protocol: string, host: string, path: string)
    requires Free(host, '@') && Free(path, '@')
    ensures Find(protocol + "://" + host + [':'] + ("/" + path), '@', |protocol| + 3).None?
  {
    FreeParts("/", path, '@');
    FreeParts(":", "/" + path, '@');
    FreeParts(host, ":" + ("/" + path), '@');
    NoneOf(protocol, host, ":", "/" + path, '@');
  }

  lemma EmptyPortPath(x: string, path: string)
    requires Free(path, '?')
    ensures PathOf(x + ("/" + path), Some(|x|)) == (path, "")
  {
    Assoc(x, "/", path);
    PlainPath(x + "/", path);
  }

  lemma EmptyPort(url: string, start: nat, colon: nat, defPort: nat)
    requires start <= colon && colon + 1 < |url|
    ensures PortOf(url, Some(colon), Some(colon + 1), defPort) == 0
    ensures HostOf(url, start, Some(colon), Some(colon + 1)) == url[start..colon]
  {
    assert url[colon + 1..colon + 1] == "";
  }

  lemma SlashAtOnce(x: string, path: string)
    ensures Find(x + ("/" + path), '/', |x|) == Some(|x|)
  {
    assert (x + ("/" + path))[|x|] == '/';
  }

  lemma EmptyPortParts(protocol: string, host: string, path: string)
    ensures var url, colon := protocol + "://" + host + [':'] + ("/" + path), |protocol| + 3 + |host|;
      && colon + 1 < |url| && url[..|protocol|] == protocol && url[|protocol| + 3..colon] == host
  {
    Assoc(protocol + "://" + host, [':'], "/" + path);
    Assoc(protocol + "://", host, [':'] + ("/" + path));
    Middle(protocol + "://", host, [':'] + ("/" + path));
    Assoc(protocol, "://", host + ([':'] + ("/" + path)));
  }

  predicate SchemeAt(url: string, i: int) {
    0 <= i <= |url| - 3 && url[i..i + 3] == "://"
  }

  lemma {:induction false} SchemeNone(url: string, from: nat)
    ensures FindScheme(url, from).None? <==> forall i | from <= i :: !SchemeAt(url, i)
    decreases |url| - from
  {
    if from + 3 <= |url| {
      SchemeNone(url, from + 1);
      assert url[from..from + 3] == "://" <==> SchemeAt(url, from);
    }
  }

  /** Without "://" anywhere nothing is found at all. */
  lemma NothingWithoutScheme(url: string, defPort: nat)
    requires forall i :: !SchemeAt(url, i)
    ensures Parse(url, defPort) == Parts("", "", "", 0, "", "")
  {
    SchemeNone(url, 0);
  }

  // ---- Fields of the query ----

  function Ampersands(s: string): nat {
    if s == "" then 0 else (if s[0] == '&' then 1 else 0) + Ampersands(s[1..])
  }

  lemma {:induction false} AmpersandsMore(s: string, c: char)
    ensures Ampersands(s + [c]) == Ampersands(s) + if c == '&' then 1 else 0
  {
    if s == "" {
      assert s + [c] == [c] && [c][1..] == "";
    } else {
      AmpersandsMore(s[1..], c);
      assert (s + [c])[1..] == s[1..] + [c];
    }
  }

  lemma {:induction false} AmpersandsSum(s: string, t: string)
    ensures Ampersands(s + t) == Ampersands(s) + Ampersands(t)
  {
    if s == "" {
      assert s + t == t;
    } else {
      AmpersandsSum(s[1..], t);
      assert (s + t)[1..] == s[1..] + t;
    }
  }

  function NumFields(query: string): nat {
    if query == "" then 0 else 1 + Ampersands(query)
  }

  function Joined(fields: seq<string>): string
    requires fields != []
  {
    if |fields| == 1 then fields[0] else fields[0] + "&" + Joined(fields[1..])
  }

  /** A query joined from fields has as many as were joined, unless it is empty. */
  lemma {:induction false} FieldsCounted(fields: seq<string>)
    requires fields != [] && forall f <- fields :: Free(f, '&')
    ensures NumFields(Joined(fields)) == if Joined(fields) == "" then 0 else |fields|
    ensures Ampersands(Joined(fields)) == |fields| - 1
  {
    NoAmpersand(fields[0]);
    if |fields| > 1 {
      FieldsCounted(fields[1..]);
      AmpersandsSum(fields[0] + "&", Joined(fields[1..]));
      AmpersandsMore(fields[0], '&');
    }
  }

  lemma {:induction false} NoAmpersand(s: string)
    requires Free(s, '&')
    ensures Ampersands(s) == 0
  {
    if s != "" { NoAmpersand(s[1..]); }
  }
}
