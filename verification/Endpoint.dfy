/** parse_endpoint of src/websocket_client.c, against the URLs it is meant to read. */
module Endpoint {
  import opened EventTypes
  import opened Text
  import opened Decimal

  /// The URLs: scheme "://" host [":" port] path

  datatype Url = Url(scheme: string, host: string, port: Option<string>, path: string)

  predicate IsHost(host: string) {
    ':' !in host && '/' !in host
  }

  predicate IsPath(path: string) {
    path == "" || path[0] == '/'
  }

  predicate Legal(u: Url) {
    && (CaseEq(u.scheme, "ws") || CaseEq(u.scheme, "wss"))
    && 0 < |u.host| < 256 && IsHost(u.host)
    && (u.port.Some? ==> '/' !in u.port.value)
    && IsPath(u.path)
  }

  function PrintPort(port: Option<string>): string {
    if port.Some? then ":" + port.value else ""
  }

  function Print(u: Url): string {
    u.scheme + ("://" + (u.host + (PrintPort(u.port) + u.path)))
  }

  // What the client connects to.
  datatype Target = Target(secure: bool, address: string, port: int, path: string)

  function Meaning(u: Url): Target {
    var secure := CaseEq(u.scheme, "wss");
    Target(secure,
           u.host,
           if u.port.Some? then Atoi(u.port.value) else if secure then 443 else 80,
           if u.path == "" then "/" else Truncate(u.path, 256))
  }

  /// The parts of a text

  // The end of the host: the first colon or slash.
  function HostEnd(s: string): (n: nat)
    ensures n <= |s| && IsHost(s[..n]) && (n < |s| ==> s[n] == ':' || s[n] == '/')
  {
    if s == "" || s[0] == ':' || s[0] == '/' then 0
    else
      var n := HostEnd(s[1..]);
      assert s[..n + 1] == [s[0]] + s[1..][..n];
      n + 1
  }

  function PathStart(s: string): (n: nat)
    ensures n <= |s| && '/' !in s[..n] && IsPath(s[n..])
  {
    if s == "" || s[0] == '/' then 0
    else
      var n := PathStart(s[1..]);
      assert s[..n + 1] == [s[0]] + s[1..][..n];
      n + 1
  }

  // A colon right after the host starts the port, which the path ends.
  function ReadTail(tail: string): (Option<string>, string) {
    if tail != "" && tail[0] == ':' then
      var n := PathStart(tail[1..]);
      (Some(tail[1..][..n]), tail[1..][n..])
    else (None, tail)
  }

  function ReadAfter(scheme: string, rest: string): Option<Url> {
    var n := HostEnd(rest);
    if (!CaseEq(scheme, "ws") && !CaseEq(scheme, "wss")) || n == 0 || n >= 256 then None
    else Some(Url(scheme, rest[..n], ReadTail(rest[n..]).0, ReadTail(rest[n..]).1))
  }

  function Read(url: string): Option<Url> {
    var separator := Find(url, "://");
    if separator.None? then None else ReadAfter(url[..separator.value], url[separator.value + 3..])
  }

  lemma PrintReadTail(tail: string)
    requires tail == "" || tail[0] == ':' || tail[0] == '/'
    ensures var r := ReadTail(tail);
            PrintPort(r.0) + r.1 == tail && IsPath(r.1) && (r.0.Some? ==> '/' !in r.0.value)
  {
    if tail != "" && tail[0] == ':' {
      var n := PathStart(tail[1..]);
      assert tail[1..] == tail[1..][..n] + tail[1..][n..];
      assert tail == ":" + tail[1..];
      assert (":" + tail[1..][..n]) + tail[1..][n..] == tail;
    }
  }

  lemma PrintReadAfter(scheme: string, rest: string)
    requires ReadAfter(scheme, rest).Some?
    ensures Legal(ReadAfter(scheme, rest).value)
    ensures Print(ReadAfter(scheme, rest).value) == scheme + ("://" + rest)
  {
    var n := HostEnd(rest);
    PrintReadTail(rest[n..]);
    assert rest == rest[..n] + rest[n..];
  }

  lemma CutAround(s: string, pattern: string, at: nat)
    requires OccursAt(s, pattern, at)
    ensures s == s[..at] + (pattern + s[at + |pattern|..])
  {
  }

  // What is read is a legal URL and prints as it was written.
  lemma PrintRead(url: string)
    requires Read(url).Some?
    ensures Legal(Read(url).value) && Print(Read(url).value) == url
  {
    var at := Find(url, "://").value;
    PrintReadAfter(url[..at], url[at + 3..]);
    CutAround(url, "://", at);
  }

  lemma {:induction false} HostEndStops(host: string, tail: string)
    requires IsHost(host)
    requires tail == "" || tail[0] == ':' || tail[0] == '/'
    ensures HostEnd(host + tail) == |host|
  {
    if host == "" {
      assert host + tail == tail;
    } else {
      HostEndStops(host[1..], tail);
      assert (host + tail)[1..] == host[1..] + tail;
    }
  }

  lemma {:induction false} PathStartStops(port: string, path: string)
    requires '/' !in port && IsPath(path)
    ensures PathStart(port + path) == |port|
  {
    if port == "" {
      assert port + path == path;
    } else {
      PathStartStops(port[1..], path);
      assert (port + path)[1..] == port[1..] + path;
    }
  }

  lemma ReadPrintTail(port: Option<string>, path: string)
    requires IsPath(path) && (port.Some? ==> '/' !in port.value)
    ensures var tail := PrintPort(port) + path;
            (tail == "" || tail[0] == ':' || tail[0] == '/') && ReadTail(tail) == (port, path)
  {
    var tail := PrintPort(port) + path;
    if port.Some? {
      assert tail[1..] == port.value + path;
      PathStartStops(port.value, path);
      assert (port.value + path)[..|port.value|] == port.value;
      assert (port.value + path)[|port.value|..] == path;
    } else {
      assert tail == path;
    }
  }

  lemma FirstOfPattern(s: string, pattern: string, i: nat)
    requires i < |s| && pattern != "" && s[i] != pattern[0]
    ensures !OccursAt(s, pattern, i)
  {
    assert i + |pattern| <= |s| ==> s[i..i + |pattern|][0] == s[i];
  }

  lemma SchemeHasNoColon(scheme: string, i: nat)
    requires CaseEq(scheme, "ws") || CaseEq(scheme, "wss")
    requires i < |scheme|
    ensures scheme[i] != ':'
  {
    var pattern := if CaseEq(scheme, "ws") then "ws" else "wss";
    assert ToLower(scheme[i]) == ToLower(pattern[i]);
    assert i == 0 || i == 1 || i == 2;
  }

  // A scheme has no colon, so the first "://" is the one after it, whatever the path holds.
  lemma FirstSeparator(scheme: string, rest: string)
    requires CaseEq(scheme, "ws") || CaseEq(scheme, "wss")
    ensures Find(scheme + ("://" + rest), "://") == Some(|scheme|)
  {
    var url := scheme + ("://" + rest);
    assert url[|scheme|..|scheme| + 3] == "://";
    assert OccursAt(url, "://", |scheme|);
    forall i: nat | i < |scheme|
      ensures !OccursAt(url, "://", i)
    {
      SchemeHasNoColon(scheme, i);
      assert url[i] == scheme[i];
      FirstOfPattern(url, "://", i);
    }
  }

  // Printing a legal URL and reading it back gives it again, even when its path holds a colon or
  // another "://".
  lemma ReadPrint(u: Url)
    requires Legal(u)
    ensures Read(Print(u)) == Some(u)
  {
    var url := Print(u);
    var tail := PrintPort(u.port) + u.path;
    var rest := u.host + tail;
    FirstSeparator(u.scheme, rest);
    assert url[..|u.scheme|] == u.scheme;
    assert url[|u.scheme| + 3..] == rest;
    ReadPrintTail(u.port, u.path);
    HostEndStops(u.host, tail);
    assert rest[..|u.host|] == u.host && rest[|u.host|..] == tail;
  }

  // Hence a text is a legal URL in at most one way, and it is one if and only if it can be read.
  lemma ReadsExactlyTheLegal(url: string)
    ensures Read(url).Some? <==> exists u :: Legal(u) && Print(u) == url
    ensures forall u, v | Legal(u) && Legal(v) && Print(u) == url && Print(v) == url :: u == v
  {
    forall u | Legal(u) && Print(u) == url
      ensures Read(url) == Some(u)
    {
      ReadPrint(u);
    }
    if Read(url).Some? {
      PrintRead(url);
    }
  }

  // What a printed URL means: the scheme in any case of letters, its own host, the decimal port if
  // an int can hold it, the default one if there is none, and the path, "/" if it is empty, cut at
  // 255 characters.
  lemma MeaningOfPrinted(scheme: string, secure: bool, host: string, port: Option<nat>, path: string)
    requires CaseEq(scheme, if secure then "wss" else "ws")
    requires 0 < |host| < 256 && IsHost(host) && IsPath(path)
    requires port.Some? ==> port.value < 0x8000_0000
    ensures var digits := if port.Some? then Some(Show(port.value)) else None;
            var read := Read(Print(Url(scheme, host, digits, path)));
            && read.Some?
            && Meaning(read.value) == Target(secure, host,
                                             if port.Some? then port.value else if secure then 443 else 80,
                                             if path == "" then "/" else if |path| < 256 then path else path[..255])
  {
    var digits := if port.Some? then Some(Show(port.value)) else None;
    if port.Some? {
      AtoiDigits(Show(port.value), "");
      assert Show(port.value) + "" == Show(port.value);
      assert forall i | 0 <= i < |digits.value| :: digits.value[i] != '/';
    }
    ReadPrint(Url(scheme, host, digits, path));
  }

  /// The position of the host in the text

  // The first position of c, or the end of the text.
  function End(s: string, c: char): (n: nat)
    ensures n <= |s| && c !in s[..n] && (n < |s| ==> s[n] == c)
  {
    var at := FindChar(s, c);
    assert s[..|s|] == s;
    if at.Some? then at.value else |s|
  }

  lemma HostEndIs(s: string, n: nat)
    requires n <= |s| && IsHost(s[..n]) && (n < |s| ==> s[n] == ':' || s[n] == '/')
    ensures HostEnd(s) == n
  {
    assert s == s[..n] + s[n..];
    HostEndStops(s[..n], s[n..]);
  }

  lemma NotBefore(s: string, c: char, k: nat, n: nat)
    requires n <= k <= |s| && c !in s[..k]
    ensures c !in s[..n]
  {
    assert forall i | 0 <= i < n :: s[..n][i] == s[..k][i];
  }

  lemma HostEndIsFirst(s: string)
    ensures HostEnd(s) == if End(s, ':') < End(s, '/') then End(s, ':') else End(s, '/')
  {
    var n := if End(s, ':') < End(s, '/') then End(s, ':') else End(s, '/');
    NotBefore(s, '/', End(s, '/'), n);
    NotBefore(s, ':', End(s, ':'), n);
    HostEndIs(s, n);
  }

  // With a port, the tail after the host splits at the first slash of the whole text.
  lemma PortBeforePath(s: string, colon: nat, pathStart: nat)
    requires colon < pathStart <= |s| && s[colon] == ':'
    requires '/' !in s[..pathStart] && IsPath(s[pathStart..])
    ensures ReadTail(s[colon..]) == (Some(s[colon + 1..pathStart]), s[pathStart..])
    ensures Atoi(s[colon + 1..]) == Atoi(s[colon + 1..pathStart])
  {
    var port, path := s[colon + 1..pathStart], s[pathStart..];
    assert s[colon..][1..] == s[colon + 1..] == port + path;
    assert forall i | 0 <= i < |port| :: port[i] == s[..pathStart][colon + 1 + i];
    PathStartStops(port, path);
    assert (port + path)[..|port|] == port && (port + path)[|port|..] == path;
    AtoiStopsAtSlash(port, path);
  }

  lemma NoPort(tail: string)
    requires IsPath(tail)
    ensures ReadTail(tail) == (None, tail)
  {
  }

  // What follows the host when a colon comes before the first slash, and when none does.
  lemma TailWithPort(s: string)
    requires End(s, ':') < End(s, '/')
    ensures HostEnd(s) == End(s, ':')
    ensures var tail := ReadTail(s[End(s, ':')..]);
            tail.0.Some? && Atoi(tail.0.value) == Atoi(s[End(s, ':') + 1..]) && tail.1 == s[End(s, '/')..]
  {
    HostEndIsFirst(s);
    PortBeforePath(s, End(s, ':'), End(s, '/'));
  }

  lemma TailWithoutPort(s: string)
    requires End(s, '/') <= End(s, ':')
    ensures HostEnd(s) == End(s, '/') && ReadTail(s[End(s, '/')..]) == (None, s[End(s, '/')..])
  {
    HostEndIsFirst(s);
    NoPort(s[End(s, '/')..]);
  }

  class WsEndpoint {
    var address: string
    var path: string
    var port: int
    var secure: bool

    constructor ()
      ensures Value() == Target(false, "", 0, "")
    {
      address, path, port, secure := "", "", 0, false;
    }

    function Value(): Target
      reads this
    {
      Target(secure, address, port, path)
    }

    // Accepts the legal URLs and no other text, and then the fields say what the URL means.
    method Parse(url: string) returns (rc: int)
      modifies this
      ensures rc == if Read(url).Some? then 0 else -1
      ensures rc == 0 ==> Value() == Meaning(Read(url).value)
      ensures rc != 0 ==> address == "" && path == ""
    {
      address, path, port, secure := "", "", 0, false;
      var separator := Find(url, "://");
      if separator.None? {
        return -1;
      }
      var schemeLen := separator.value;
      if schemeLen >= 8 {
        return -1;
      }
      var scheme := url[..schemeLen];
      if CaseEq(scheme, "wss") {
        secure, port := true, 443;
      } else if CaseEq(scheme, "ws") {
        secure, port := false, 80;
      } else {
        return -1;
      }
      rc := ParseAddress(url[schemeLen + 3..]);
    }

    // The part after the scheme.
    method ParseAddress(rest: string) returns (rc: int)
      requires address == "" && path == ""
      modifies this`address, this`path, this`port
      ensures rc == if 0 < HostEnd(rest) < 256 then 0 else -1
      ensures rc == 0 ==>
                var tail := ReadTail(rest[HostEnd(rest)..]);
                && address == rest[..HostEnd(rest)]
                && port == (if tail.0.Some? then Atoi(tail.0.value) else old(port))
                && path == if tail.1 == "" then "/" else Truncate(tail.1, 256)
      ensures rc != 0 ==> address == "" && path == ""
    {
      var pathStart := End(rest, '/');
      var colon := FindChar(rest, ':');
      var hostLen;
      if colon.Some? && colon.value < pathStart {
        TailWithPort(rest);
        hostLen := colon.value;
        port := Atoi(rest[colon.value + 1..]);
      } else {
        TailWithoutPort(rest);
        hostLen := pathStart;
      }
      if hostLen == 0 || hostLen >= 256 {
        return -1;
      }
      address := rest[..hostLen];
      if pathStart < |rest| {
        path := Truncate(rest[pathStart..], 256);
      } else {
        path := "/";
      }
      return 0;
    }
  }
}
