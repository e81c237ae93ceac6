// WebSocket addresses: reading them and printing them.
module Uri {
  import opened Sequences
  import opened Texts

  datatype Scheme = Scheme(name: string, secure: bool)

  datatype Uri = Uri(scheme: Scheme, host: string, port: nat, resource: string)

  const DEFAULT_PORT := 80
  const DEFAULT_SECURE_PORT := 443

  function DefaultPortOf(secure: bool): nat { if secure then DEFAULT_SECURE_PORT else DEFAULT_PORT }

  const WSS := Scheme("wss", true)
  const WS := Scheme("ws", false)
  const HTTP := Scheme("http", false)
  const HTTPS := Scheme("https", true)

  // ----- reading, part by part

  function SchemeOf(s: string): Option<Scheme> {
    if |s| >= 7 && s[..6] == "wss://" then Some(WSS)
    else if |s| >= 6 && s[..5] == "ws://" then Some(WS)
    else if |s| >= 8 && s[..7] == "http://" then Some(HTTP)
    else if |s| >= 9 && s[..8] == "https://" then Some(HTTPS)
    else None
  }

  // A host, whether a port follows it, and what comes after the delimiter.
  datatype Authority = Authority(host: string, hasPort: bool, rest: string)

  function AfterBracket(host: string, after: string): Option<Authority> {
    if after == [] then Some(Authority(host, false, []))
    else if after[0] == '/' then Some(Authority(host, false, after[1..]))
    else if after[0] == ':' then Some(Authority(host, true, after[1..]))
    else None
  }

  function AuthorityOf(r: string): Option<Authority>
    requires r != []
  {
    if r[0] == '[' then
      match FindFirstOf(r, {']'}, 1)
      case None => None
      case Some(k) => AfterBracket(r[1..k], r[k + 1..])
    else
      match FindFirstOf(r, {'/', ':'}, 0)
      case None => Some(Authority(r, false, []))
      case Some(k) => Some(Authority(r[..k], r[k] == ':', r[k + 1..]))
  }

  // The text of the port, and the resource without its first slash.
  function PortAndResource(a: Authority): (string, string) {
    if !a.hasPort then ([], a.rest)
    else
      match FindFirstOf(a.rest, {'/'}, 0)
      case None => (a.rest, [])
      case Some(k) => (a.rest[..k], a.rest[k + 1..])
  }

  // std::atoi. Its value for a number that is no int is not defined: `beyond` stands for it.
  function Atoi(s: string, beyond: int): int {
    match FrontNumber(s)
    case None => 0
    case Some(n) => if INT_MIN <= n <= INT_MAX then n else beyond
  }

  function PortFromString(port: string, secure: bool, beyond: int): Option<nat> {
    if port == [] then Some(DefaultPortOf(secure))
    else
      var n := Atoi(port, beyond);
      if 0 < n <= 65535 then Some(n) else None
  }

  // Reads what follows the scheme.
  function ParseAfter(scheme: Scheme, r: string, beyond: int): Option<Uri>
    requires r != []
  {
    match AuthorityOf(r)
    case None => None
    case Some(a) =>
      var (port, resource) := PortAndResource(a);
      match PortFromString(port, scheme.secure, beyond)
      case None => None
      case Some(n) => Some(Uri(scheme, a.host, n, "/" + resource))
  }

  function Parse(s: string, beyond: int): Option<Uri> {
    match SchemeOf(s)
    case None => None
    case Some(scheme) => ParseAfter(scheme, s[|scheme.name| + 3..], beyond)
  }

  // ----- printing

  function PortText(u: Uri): string {
    if u.port != DefaultPortOf(u.scheme.secure) then ":" + Decimal(u.port) else []
  }

  function Str(u: Uri): string { u.scheme.name + ("://" + (u.host + (PortText(u) + u.resource))) }

  // ----- printing and reading again

  // What reading can make.
  predicate Readable(u: Uri) {
    && (u.scheme == WSS || u.scheme == WS || u.scheme == HTTP || u.scheme == HTTPS)
    && 0 < u.port <= 65535
    && u.resource != [] && u.resource[0] == '/'
  }

  // A host that needs no brackets.
  predicate Plain(host: string) {
    (host == [] || host[0] != '[') && forall i | 0 <= i < |host| :: host[i] != '/' && host[i] != ':'
  }

  lemma ParsedIsReadable(s: string, beyond: int)
    ensures Parse(s, beyond).Some? ==> Readable(Parse(s, beyond).value)
  {}

  lemma {:induction false} FoundIsFirst(s: string, chars: set<char>, pos: nat)
    ensures match FindFirstOf(s, chars, pos)
            case Some(k) => forall i | pos <= i < k :: s[i] !in chars
            case None => forall i | pos <= i < |s| :: s[i] !in chars
    decreases |s| - pos
  {
    if pos < |s| && s[pos] !in chars {
      FoundIsFirst(s, chars, pos + 1);
    }
  }

  // A host that was written without brackets needs none.
  lemma UnbracketedIsPlain(r: string)
    requires r != [] && r[0] != '['
    ensures AuthorityOf(r).Some? && Plain(AuthorityOf(r).value.host)
  {
    FoundIsFirst(r, {'/', ':'}, 0);
  }

  lemma DropTwo(a: string, b: string, c: string)
    ensures (a + (b + c))[|a| + |b|..] == c
  {
    assert a + (b + c) == (a + b) + c;
  }

  lemma SchemePrinted(scheme: Scheme, rest: string)
    requires scheme == WSS || scheme == WS || scheme == HTTP || scheme == HTTPS
    requires rest != []
    ensures var s := scheme.name + ("://" + rest); SchemeOf(s) == Some(scheme) && s[|scheme.name| + 3..] == rest
  {
    var s, n := scheme.name + ("://" + rest), |scheme.name|;
    DropTwo(scheme.name, "://", rest);
    assert s[..n + 3] == scheme.name + "://";
    assert s[0] == scheme.name[0] && s[1] == scheme.name[1] && s[n] == ':';
    if n > 2 { assert s[2] == scheme.name[2]; }
    if n > 3 { assert s[3] == scheme.name[3]; }
  }

  // The authority ends at the first delimiter behind the host.
  lemma AuthoritySplits(host: string, rest: string)
    requires Plain(host) && rest != [] && (rest[0] == '/' || rest[0] == ':')
    ensures AuthorityOf(host + rest) == Some(Authority(host, rest[0] == ':', rest[1..]))
  {
    HostEnds(host, rest);
    HostParts(host, rest);
  }

  lemma HostEnds(host: string, rest: string)
    requires Plain(host) && rest != [] && (rest[0] == '/' || rest[0] == ':')
    ensures FindFirstOf(host + rest, {'/', ':'}, 0) == Some(|host|)
  {
    var r := host + rest;
    assert forall i | 0 <= i < |host| :: r[i] == host[i];
    assert r[|host|] == rest[0];
    FindIs(r, {'/', ':'}, 0, |host|);
  }

  lemma HostParts(host: string, rest: string)
    requires rest != []
    ensures var r, n := host + rest, |host|; r[..n] == host && r[n] == rest[0] && r[n + 1..] == rest[1..]
    ensures (host + rest)[0] == if host == [] then rest[0] else host[0]
  {}

  lemma PortSplits(host: string, port: string, resource: string)
    requires resource != [] && resource[0] == '/' && forall i | 0 <= i < |port| :: port[i] != '/'
    ensures PortAndResource(Authority(host, true, port + resource)) == (port, resource[1..])
  {
    var rest := port + resource;
    FindIs(rest, {'/'}, 0, |port|);
    assert rest[..|port|] == port && rest[|port| + 1..] == resource[1..];
  }

  lemma PortPrinted(u: Uri, beyond: int)
    requires Readable(u)
    ensures PortFromString(if PortText(u) == [] then [] else PortText(u)[1..], u.scheme.secure, beyond) == Some(u.port)
  {
    if PortText(u) != [] {
      assert PortText(u)[1..] == Decimal(u.port) + [];
      FrontNumberDecimal(u.port, []);
    }
  }

  lemma AddressPrinted(u: Uri)
    requires Readable(u) && Plain(u.host)
    ensures var text := PortText(u); var a := AuthorityOf(u.host + (text + u.resource));
            && a.Some? && a.value.host == u.host
            && PortAndResource(a.value) == (if text == [] then [] else text[1..], u.resource[1..])
  {
    var text := PortText(u);
    AuthoritySplits(u.host, text + u.resource);
    if text == [] {
      assert text + u.resource == u.resource;
    } else {
      var digits := Decimal(u.port);
      assert text == [':'] + digits;
      assert (text + u.resource)[1..] == digits + u.resource && text[1..] == digits;
      PortSplits(u.host, digits, u.resource);
    }
  }

  // Reading what was printed gives the same address back, if the host needs no brackets.
  lemma PrintedReadsBack(u: Uri, beyond: int)
    requires Readable(u) && Plain(u.host)
    ensures Parse(Str(u), beyond) == Some(u)
  {
    SchemePrinted(u.scheme, u.host + (PortText(u) + u.resource));
    PrintedAfterScheme(u, beyond);
  }

  lemma PrintedAfterScheme(u: Uri, beyond: int)
    requires Readable(u) && Plain(u.host)
    ensures ParseAfter(u.scheme, u.host + (PortText(u) + u.resource), beyond) == Some(u)
  {
    AddressPrinted(u);
    PortPrinted(u, beyond);
    assert "/" + u.resource[1..] == u.resource;
  }

  // And only then: a host that came out of brackets is printed without them.
  lemma BracketsNeeded(u: Uri, beyond: int)
    requires Readable(u) && ']' !in u.host && !Plain(u.host)
    ensures Parse(Str(u), beyond) != Some(u)
  {
    var rest := PortText(u) + u.resource;
    SchemePrinted(u.scheme, u.host + rest);
    HostDiffers(u, rest, beyond);
  }

  lemma HostDiffers(u: Uri, rest: string, beyond: int)
    requires ']' !in u.host && !Plain(u.host) && rest != [] && rest[0] != '['
    ensures ParseAfter(u.scheme, u.host + rest, beyond) != Some(u)
  {
    assert (u.host + rest)[0] == u.host[0];
    if u.host[0] == '[' {
      ReadInBrackets(u.host, rest);
    } else {
      UnbracketedIsPlain(u.host + rest);
    }
  }

  // A host that starts with an opening bracket is read as another one.
  lemma ReadInBrackets(host: string, rest: string)
    requires host != [] && host[0] == '[' && ']' !in host && rest != [] && rest[0] != '['
    ensures var a := AuthorityOf(host + rest); a.Some? ==> a.value.host != host
  {
    var r, n := host + rest, |host|;
    match FindFirstOf(r, {']'}, 1) {
      case None =>
      case Some(k) =>
        if r[1..k] == host {
          assert forall i | 0 <= i < n :: host[i] == r[1..k][i] == r[i + 1];
          assert host[n - 1] == r[n] == rest[0];
          SameThroughout(host);
        }
    }
  }

  lemma {:induction false} SameThroughout(s: string)
    requires s != [] && forall i | 0 <= i < |s| - 1 :: s[i] == s[i + 1]
    ensures s[|s| - 1] == s[0]
  {
    if |s| > 1 {
      SameThroughout(s[1..]);
    }
  }

  lemma AuthorityHost(r: string)
    requires r != []
    ensures match AuthorityOf(r) case None => true case Some(a) => Plain(a.host) || ']' !in a.host
  {
    if r[0] == '[' {
      FoundIsFirst(r, {']'}, 1);
    } else {
      UnbracketedIsPlain(r);
    }
  }

  lemma ParsedHost(s: string, beyond: int)
    ensures match Parse(s, beyond) case None => true case Some(u) => Plain(u.host) || ']' !in u.host
  {
    match SchemeOf(s) {
      case None =>
      case Some(scheme) => AuthorityHost(s[|scheme.name| + 3..]);
    }
  }

  // An address that was read is printed so that reading it again gives the same address if and only
  // if its host needs no brackets.
  lemma PrintedReadsBackIff(s: string, beyond: int)
    requires Parse(s, beyond).Some?
    ensures var u := Parse(s, beyond).value; Parse(Str(u), beyond) == Some(u) <==> Plain(u.host)
  {
    var u := Parse(s, beyond).value;
    ParsedIsReadable(s, beyond);
    ParsedHost(s, beyond);
    if Plain(u.host) {
      PrintedReadsBack(u, beyond);
    } else {
      BracketsNeeded(u, beyond);
    }
  }

  // That is so for every address written without brackets.
  lemma UnbracketedReadsBack(s: string, beyond: int)
    requires Parse(s, beyond).Some? && s[|SchemeOf(s).value.name| + 3] != '['
    ensures var u := Parse(s, beyond).value; Parse(Str(u), beyond) == Some(u)
  {
    UnbracketedIsPlain(s[|SchemeOf(s).value.name| + 3..]);
    PrintedReadsBackIff(s, beyond);
  }

  // An address that is not read back, ws://[::1]/: without its brackets its port is no number.
  lemma LiteralNeedsBrackets(beyond: int)
    ensures var u := Uri(WS, "::1", 80, "/");
            Parse(WS.name + ("://" + "[::1]/"), beyond) == Some(u) && Parse(Str(u), beyond) == None
  {
    var u := Uri(WS, "::1", 80, "/");
    LiteralRead(beyond);
    BareLiteralRead(beyond);
    SchemePrinted(WS, "[::1]/");
    assert PortText(u) == [] && u.host + (PortText(u) + u.resource) == "::1/";
    SchemePrinted(WS, "::1/");
  }

  lemma LiteralRead(beyond: int)
    ensures ParseAfter(WS, "[::1]/", beyond) == Some(Uri(WS, "::1", 80, "/"))
  {
    var r := "[::1]/";
    FindIs(r, {']'}, 1, 4);
    assert r[1..4] == "::1" && r[5..] == "/" && "/"[1..] == "";
    assert AuthorityOf(r) == Some(Authority("::1", false, ""));
    assert "/" + "" == "/";
  }

  lemma BareLiteralRead(beyond: int)
    ensures ParseAfter(WS, "::1/", beyond) == None
  {
    var r := "::1/";
    FindIs(r, {'/', ':'}, 0, 0);
    assert r[1..] == ":1/";
    FindIs(":1/", {'/'}, 0, 2);
    assert ":1/"[..2] == ":1";
    assert FrontNumber(":1") == None;
  }

  // ----- addresses as they are written

  // A host name, or a literal in brackets, as it stands in an address.
  datatype Written = Name(host: string) | Literal(host: string)

  predicate Writable(w: Written) { if w.Name? then Plain(w.host) else ']' !in w.host }

  function HostText(w: Written): string { if w.Name? then w.host else "[" + w.host + "]" }

  // What may come behind the host and the port: nothing, or a slash and the rest of the resource.
  predicate Tail(tail: string) { tail == "" || tail[0] == '/' }

  // The authority of an address that starts with this host.
  lemma WrittenAuthority(w: Written, rest: string)
    requires Writable(w) && HostText(w) + rest != "" && (rest == "" || rest[0] == '/' || rest[0] == ':')
    ensures AuthorityOf(HostText(w) + rest) ==
            if rest == "" then Some(Authority(w.host, false, ""))
            else Some(Authority(w.host, rest[0] == ':', rest[1..]))
  {
    var r := HostText(w) + rest;
    if w.Name? {
      if rest == "" {
        assert r == w.host;
        FindNothing(r, {'/', ':'}, 0);
      } else {
        AuthoritySplits(w.host, rest);
      }
    } else {
      LiteralSplits(w.host, rest);
    }
  }

  lemma LiteralSplits(host: string, rest: string)
    requires ']' !in host && (rest == "" || rest[0] == '/' || rest[0] == ':')
    ensures AuthorityOf("[" + host + "]" + rest) ==
            if rest == "" then Some(Authority(host, false, ""))
            else Some(Authority(host, rest[0] == ':', rest[1..]))
  {
    var r, k := "[" + host + "]" + rest, 1 + |host|;
    forall i | 1 <= i < k
      ensures r[i] != ']'
    {
      assert r[i] == host[i - 1] && host[i - 1] in host;
    }
    assert r[0] == '[' && r[k] == ']';
    FindIs(r, {']'}, 1, k);
    assert r[1..k] == host && r[k + 1..] == rest;
  }

  lemma PortBeforeTail(host: string, port: string, tail: string)
    requires Tail(tail) && forall c | c in port :: c != '/'
    ensures PortAndResource(Authority(host, true, port + tail)) == (port, if tail == "" then "" else tail[1..])
  {
    assert forall i | 0 <= i < |port| :: port[i] in port;
    if tail == "" {
      assert port + tail == port;
      FindNothing(port, {'/'}, 0);
    } else {
      PortSplits(host, port, tail);
    }
  }

  predicate KnownScheme(scheme: Scheme) {
    || scheme == Scheme("ws", false) || scheme == Scheme("wss", true)
    || scheme == Scheme("http", false) || scheme == Scheme("https", true)
  }

  lemma SchemeThen(scheme: Scheme, r: string, beyond: int)
    requires KnownScheme(scheme) && r != ""
    ensures Parse(scheme.name + ("://" + r), beyond) == ParseAfter(scheme, r, beyond)
  {
    SchemePrinted(scheme, r);
  }

  // The resource of an address that goes on with this tail.
  function WholeResource(tail: string): (resource: string)
    requires Tail(tail)
    ensures resource == "/" + if tail == "" then "" else tail[1..]
  {
    if tail == "" then "/" else tail
  }

  lemma PortRead(scheme: Scheme, w: Written, port: string, tail: string, beyond: int)
    requires Writable(w) && Tail(tail) && forall c | c in port :: c != '/'
    ensures ParseAfter(scheme, HostText(w) + (":" + port + tail), beyond) ==
            match PortFromString(port, scheme.secure, beyond)
            case None => None
            case Some(n) => Some(Uri(scheme, w.host, n, WholeResource(tail)))
  {
    var rest := ":" + port + tail;
    assert rest[0] == ':' && rest[1..] == port + tail;
    WrittenAuthority(w, rest);
    PortBeforeTail(w.host, port, tail);
  }

  lemma DecimalPort(n: nat, secure: bool, beyond: int)
    ensures PortFromString(Decimal(n), secure, beyond) ==
            var value := if n <= INT_MAX then n else beyond;
            if 0 < value <= 65535 then Some(value) else None
  {
    FrontNumberDecimal(n, "");
    assert Decimal(n) + "" == Decimal(n);
  }

  // An address with a port, whatever its scheme, its host and what follows: the port is what its
  // digits say, and an address whose port is 0 or above 65535 is not valid. What digits say that are
  // no int is not defined.
  lemma AddressWithPort(scheme: Scheme, w: Written, n: nat, tail: string, beyond: int)
    requires KnownScheme(scheme) && Writable(w) && Tail(tail)
    ensures var value := if n <= INT_MAX then n else beyond;
            Parse(scheme.name + ("://" + (HostText(w) + (":" + Decimal(n) + tail))), beyond) ==
            if 0 < value <= 65535 then Some(Uri(scheme, w.host, value, if tail == "" then "/" else tail)) else None
  {
    SchemeThen(scheme, HostText(w) + (":" + Decimal(n) + tail), beyond);
    PortRead(scheme, w, Decimal(n), tail, beyond);
    DecimalPort(n, scheme.secure, beyond);
  }

  lemma NoPortRead(scheme: Scheme, w: Written, tail: string, beyond: int)
    requires Writable(w) && Tail(tail) && HostText(w) + tail != ""
    ensures ParseAfter(scheme, HostText(w) + tail, beyond) ==
            Some(Uri(scheme, w.host, if scheme.secure then 443 else 80, WholeResource(tail)))
  {
    WrittenAuthority(w, tail);
  }

  // Without a port it has the default port of its scheme.
  lemma AddressWithoutPort(scheme: Scheme, w: Written, tail: string, beyond: int)
    requires KnownScheme(scheme) && Writable(w) && Tail(tail) && HostText(w) + tail != ""
    ensures Parse(scheme.name + ("://" + (HostText(w) + tail)), beyond) ==
            Some(Uri(scheme, w.host, if scheme.secure then 443 else 80, if tail == "" then "/" else tail))
  {
    SchemeThen(scheme, HostText(w) + tail, beyond);
    NoPortRead(scheme, w, tail, beyond);
  }

  // What stands for a port must start with a number.
  lemma BadPortInvalid(scheme: Scheme, w: Written, port: string, tail: string, beyond: int)
    requires KnownScheme(scheme) && Writable(w) && Tail(tail) && port != ""
    requires forall c | c in port :: c != '/' && !IsDigit(c)
    ensures Parse(scheme.name + ("://" + (HostText(w) + (":" + port + tail))), beyond) == None
  {
    SchemeThen(scheme, HostText(w) + (":" + port + tail), beyond);
    PortRead(scheme, w, port, tail, beyond);
    NoFrontNumber(port);
  }

  // A literal must be closed, and nothing but a port or a resource may follow.
  lemma BadLiteralInvalid(scheme: Scheme, host: string, rest: string, beyond: int)
    requires KnownScheme(scheme) && ']' !in host
    ensures Parse(scheme.name + ("://" + ("[" + host)), beyond) == None
    ensures rest != "" && rest[0] != '/' && rest[0] != ':' ==>
              Parse(scheme.name + ("://" + ("[" + host + "]" + rest)), beyond) == None
  {
    SchemeThen(scheme, "[" + host, beyond);
    SchemeThen(scheme, "[" + host + "]" + rest, beyond);
    OpenLiteral(host);
    if rest != "" && rest[0] != '/' && rest[0] != ':' {
      LiteralFollowed(host, rest);
    }
  }

  lemma OpenLiteral(host: string)
    requires ']' !in host
    ensures AuthorityOf("[" + host) == None
  {
    var r := "[" + host;
    assert forall i | 1 <= i < |r| :: r[i] == host[i - 1] && host[i - 1] in host;
    FindNothing(r, {']'}, 1);
  }

  lemma LiteralFollowed(host: string, rest: string)
    requires ']' !in host && rest != "" && rest[0] != '/' && rest[0] != ':'
    ensures AuthorityOf("[" + host + "]" + rest) == None
  {
    var r, k := "[" + host + "]" + rest, 1 + |host|;
    assert forall i | 1 <= i < k :: r[i] == host[i - 1] && host[i - 1] in host;
    assert r[0] == '[' && r[k] == ']' && r[k + 1..] == rest;
    FindIs(r, {']'}, 1, k);
  }

  // Nothing else than these schemes is read.
  lemma OtherSchemeInvalid(s: string, beyond: int)
    requires !("ws://" <= s) && !("wss://" <= s) && !("http://" <= s) && !("https://" <= s)
    ensures Parse(s, beyond) == None
  {}

  // A default port is not printed; any other is.
  lemma DefaultPortOmitted(u: Uri)
    ensures |Str(u)| == |u.scheme.name| + 3 + |u.host| + |u.resource| <==> u.port == DefaultPortOf(u.scheme.secure)
  {}

  // ----- the parser

  method ParseUri(s: string, beyond: int) returns (r: Option<Uri>)
    ensures r == Parse(s, beyond)
  {
    var scheme := ReadScheme(s);
    if scheme.None? { return None; }
    r := ParseRest(scheme.value, s, |scheme.value.name| + 3, beyond);
  }

  method ReadScheme(s: string) returns (scheme: Option<Scheme>)
    ensures scheme == SchemeOf(s)
  {
    if |s| >= 7 && s[..6] == "wss://" {
      scheme := Some(WSS);
    } else if |s| >= 6 && s[..5] == "ws://" {
      scheme := Some(WS);
    } else if |s| >= 8 && s[..7] == "http://" {
      scheme := Some(HTTP);
    } else if |s| >= 9 && s[..8] == "https://" {
      scheme := Some(HTTPS);
    } else {
      scheme := None;
    }
  }

  method ParseRest(scheme: Scheme, s: string, it: nat, beyond: int) returns (r: Option<Uri>)
    requires it < |s|
    ensures r == ParseAfter(scheme, s[it..], beyond)
  {
    var found;
    if s[it] == '[' {
      found := BracketedHost(s, it);
    } else {
      found := PlainHost(s, it);
    }
    if found.None? { return None; }
    var authority := found.value;
    var port, resource := ExtractPort(authority);
    match PortFromString(port, scheme.secure, beyond) {
      case None => return None;
      case Some(n) => return Some(Uri(scheme, authority.host, n, "/" + resource));
    }
  }

  lemma SliceOfRest(s: string, start: nat, end: nat)
    requires start < end < |s|
    ensures var r, k := s[start..], end - start; r[1..k] == s[start + 1..end] && r[k + 1..] == s[end + 1..]
  {}

  // Reads an IPv6 literal: the host up to the closing bracket.
  method BracketedHost(s: string, start: nat) returns (found: Option<Authority>)
    requires start < |s| && s[start] == '['
    ensures found == AuthorityOf(s[start..])
  {
    var r := s[start..];
    var temp := start + 1;
    while temp < |s|
      invariant start + 1 <= temp <= |s|
      invariant FindFirstOf(r, {']'}, 1) == FindFirstOf(r, {']'}, temp - start)
    {
      if s[temp] == ']' { break; }
      temp := temp + 1;
    }
    if temp == |s| { return None; }
    SliceOfRest(s, start, temp);
    assert FindFirstOf(r, {']'}, 1) == Some(temp - start);
    var host, it := s[start + 1..temp], temp + 1;
    if it == |s| {
      return Some(Authority(host, false, []));
    } else if s[it] == '/' {
      return Some(Authority(host, false, s[it + 1..]));
    } else if s[it] == ':' {
      return Some(Authority(host, true, s[it + 1..]));
    } else {
      return None;
    }
  }

  // Reads a host name or an IPv4 address, up to a slash or a colon.
  method PlainHost(s: string, start: nat) returns (found: Option<Authority>)
    requires start < |s| && s[start] != '['
    ensures found == AuthorityOf(s[start..])
  {
    var r := s[start..];
    var it, host, state := start, "", 0;
    while state == 0
      invariant start <= it <= |s| && 0 <= state <= 2
      invariant state == 0 ==> host == s[start..it]
      invariant state == 0 ==> FindFirstOf(r, {'/', ':'}, 0) == FindFirstOf(r, {'/', ':'}, it - start)
      invariant state != 0 ==> AuthorityOf(r) == Some(Authority(host, state == 1, s[it..]))
      decreases state == 0, |s| - it
    {
      assert r[..it - start] == s[start..it];
      if it == |s| {
        state := 2;
        assert host == r && s[it..] == [];
        break;
      }
      assert r[it - start + 1..] == s[it + 1..];
      if s[it] == '/' {
        state := 2;
      } else if s[it] == ':' {
        state := 1;
      } else {
        host := host + [s[it]];
      }
      it := it + 1;
    }
    found := Some(Authority(host, state == 1, s[it..]));
  }

  // Reads the text of the port, up to a slash.
  method ExtractPort(a: Authority) returns (port: string, resource: string)
    ensures (port, resource) == PortAndResource(a)
  {
    var it := 0;
    port := "";
    var inPort := a.hasPort;
    while inPort
      invariant 0 <= it <= |a.rest| && (!a.hasPort ==> it == 0 && !inPort && port == "")
      invariant inPort ==> port == a.rest[..it] && FindFirstOf(a.rest, {'/'}, 0) == FindFirstOf(a.rest, {'/'}, it)
      invariant a.hasPort && !inPort ==> PortAndResource(a) == (port, a.rest[it..])
      decreases inPort, |a.rest| - it
    {
      if it == |a.rest| {
        assert port == a.rest && a.rest[it..] == [];
        assert PortAndResource(a) == (port, a.rest[it..]);
        break;
      } else if a.rest[it] == '/' {
        inPort := false;
      } else {
        port := port + [a.rest[it]];
      }
      it := it + 1;
    }
    resource := a.rest[it..];
    assert PortAndResource(a).0 == port;
    assert PortAndResource(a).1 == resource;
  }
}
