/** Printing of the request that is forwarded upstream. */
module MessageBuilder {

  datatype Header = Header(name: string, value: string)

  // What the request parser hands over. The headers come from an unordered map: any order, no name twice.
  datatype Request = Request(
    verb: string, url: string, version: string, host: string, port: nat, isConnect: bool,
    headers: seq<Header>, body: string)

  const CRLF := "\r\n"

  // The first place at or after `from` that holds c, or the length.
  function Find(s: string, c: char, from: nat): (r: nat)
    requires from <= |s|
    ensures from <= r <= |s| && (r < |s| ==> s[r] == c)
    ensures forall i :: from <= i < r ==> s[i] != c
    decreases |s| - from
  {
    if from == |s| || s[from] == c then from else Find(s, c, from + 1)
  }

  // The path of an absolute URL whose host begins at `host`.
  function PathOf(url: string, host: nat): (r: string)
    requires host <= |url|
    ensures r != "" && r[0] == '/'
  {
    var slash := Find(url, '/', host);
    if slash == |url| then "/" else url[slash..]
  }

  function OriginForm(url: string): (r: string)
    ensures r == "*" || (r != "" && r[0] == '/')
  {
    if "http://" <= url then PathOf(url, 7)
    else if "https://" <= url then PathOf(url, 8)
    else if url == "" then "/"
    else if url == "*" then url
    else if url[0] != '/' then "/" + url
    else url
  }

  predicate HopByHop(name: string) {
    || name == "connection" || name == "proxy-connection" || name == "keep-alive" || name == "te"
    || name == "trailer" || name == "transfer-encoding" || name == "upgrade"
  }

  function Digit(d: nat): char
    requires d < 10
  {
    '0' + d as char
  }

  function Decimal(n: nat): string {
    if n < 10 then [Digit(n)] else Decimal(n / 10) + [Digit(n % 10)]
  }

  ghost function Kept(hs: seq<Header>): seq<Header> {
    if hs == [] then [] else
      var rest, last := Kept(hs[..|hs| - 1]), hs[|hs| - 1];
      if HopByHop(last.name) then rest else rest + [last]
  }

  ghost predicate Named(hs: seq<Header>, name: string) {
    exists h :: h in hs && h.name == name
  }

  ghost function HostValue(req: Request): string {
    req.host + if req.port != 0 && req.port != 80 then ":" + Decimal(req.port) else ""
  }

  ghost function HostField(req: Request): Header {
    Header("host", HostValue(req))
  }

  ghost function LengthField(req: Request): Header {
    Header("content-length", Decimal(|req.body|))
  }

  ghost const CLOSE := Header("connection", "close")

  ghost function WithHost(req: Request): seq<Header> {
    if Named(req.headers, "host") then Kept(req.headers) else Kept(req.headers) + [HostField(req)]
  }

  ghost function WithLength(req: Request): seq<Header> {
    if Named(req.headers, "content-length") || req.body == "" then WithHost(req)
    else WithHost(req) + [LengthField(req)]
  }

  // The header fields that go upstream.
  ghost function Fields(req: Request): seq<Header> {
    WithLength(req) + [CLOSE]
  }

  ghost function StartLine(req: Request): string {
    req.verb + " " + OriginForm(req.url) + " HTTP/" + if req.version == "" then "1.1" else req.version
  }

  ghost function Text(h: Header): string {
    h.name + ": " + h.value
  }

  ghost function Texts(hs: seq<Header>): (r: seq<string>)
    ensures |r| == |hs| && forall i :: 0 <= i < |r| ==> r[i] == Text(hs[i])
  {
    seq(|hs|, i requires 0 <= i < |hs| => Text(hs[i]))
  }

  // Every line with its line end.
  ghost function Ended(lines: seq<string>): string {
    if lines == [] then "" else Ended(lines[..|lines| - 1]) + lines[|lines| - 1] + CRLF
  }

  ghost predicate Forwards(req: Request) {
    req.verb != "" && req.host != "" && !req.isConnect
  }

  ghost function Head(req: Request): seq<string> {
    [StartLine(req)] + Texts(Fields(req))
  }

  ghost function Printed(req: Request): string {
    if Forwards(req) then Ended(Head(req)) + CRLF + req.body else ""
  }

  lemma EndedSnoc(lines: seq<string>, line: string)
    ensures Ended(lines + [line]) == Ended(lines) + line + CRLF
  {
    assert (lines + [line])[..|lines|] == lines;
  }

  lemma KeptSnoc(hs: seq<Header>, h: Header)
    ensures Kept(hs + [h]) == if HopByHop(h.name) then Kept(hs) else Kept(hs) + [h]
  {
    assert (hs + [h])[..|hs|] == hs;
  }

  lemma NamedSnoc(hs: seq<Header>, h: Header, name: string)
    ensures Named(hs + [h], name) <==> Named(hs, name) || h.name == name
  {
    if Named(hs, name) {
      var g :| g in hs && g.name == name;
      assert g in hs + [h];
    }
    assert h in hs + [h];
  }

  lemma EndedField(lines: seq<string>, hs: seq<Header>, h: Header)
    ensures Ended(lines + Texts(hs + [h])) == Ended(lines + Texts(hs)) + h.name + ": " + h.value + CRLF
  {
    EndedSnoc(lines + Texts(hs), Text(h));
    assert lines + Texts(hs + [h]) == lines + Texts(hs) + [Text(h)];
  }

  // What the loop over the headers has appended after some of them.
  ghost predicate Appended(out: string, lines: seq<string>, hs: seq<Header>, hasHost: bool, hasLength: bool) {
    && out == Ended(lines + Texts(Kept(hs)))
    && (hasHost <==> Named(hs, "host"))
    && (hasLength <==> Named(hs, "content-length"))
  }

  lemma AppendedSkip(out: string, lines: seq<string>, hs: seq<Header>, h: Header, hasHost: bool, hasLength: bool)
    requires Appended(out, lines, hs, hasHost, hasLength) && HopByHop(h.name)
    ensures Appended(out, lines, hs + [h], hasHost, hasLength)
  {
    KeptSnoc(hs, h);
    NamedSnoc(hs, h, "host");
    NamedSnoc(hs, h, "content-length");
  }

  lemma AppendedNext(out: string, lines: seq<string>, hs: seq<Header>, h: Header, hasHost: bool, hasLength: bool)
    requires Appended(out, lines, hs, hasHost, hasLength) && !HopByHop(h.name)
    ensures Appended(out + h.name + ": " + h.value + "\r\n", lines, hs + [h],
                     hasHost || h.name == "host", hasLength || h.name == "content-length")
  {
    KeptSnoc(hs, h);
    NamedSnoc(hs, h, "host");
    NamedSnoc(hs, h, "content-length");
    EndedField(lines, Kept(hs), h);
  }

  // The loop over the headers, with its two flags.
  method AppendHeaders(begun: string, headers: seq<Header>, ghost lines: seq<string>)
    returns (out: string, hasHost: bool, hasLength: bool)
    requires begun == Ended(lines)
    ensures out == Ended(lines + Texts(Kept(headers)))
    ensures hasHost <==> Named(headers, "host")
    ensures hasLength <==> Named(headers, "content-length")
  {
    out, hasHost, hasLength := begun, false, false;
    assert lines + Texts(Kept([])) == lines;
    for i := 0 to |headers|
      invariant Appended(out, lines, headers[..i], hasHost, hasLength)
    {
      var h := headers[i];
      assert headers[..i + 1] == headers[..i] + [h];
      if HopByHop(h.name) {
        AppendedSkip(out, lines, headers[..i], h, hasHost, hasLength);
        continue;
      }
      AppendedNext(out, lines, headers[..i], h, hasHost, hasLength);
      if h.name == "host" {
        hasHost := true;
      }
      if h.name == "content-length" {
        hasLength := true;
      }
      out := out + h.name;
      out := out + ": ";
      out := out + h.value;
      out := out + "\r\n";
    }
    assert headers[..|headers|] == headers;
  }

  method AppendHost(begun: string, req: Request, ghost lines: seq<string>, ghost hs: seq<Header>) returns (out: string)
    requires begun == Ended(lines + Texts(hs))
    ensures out == Ended(lines + Texts(hs + [HostField(req)]))
  {
    out := begun + "host: ";
    out := out + req.host;
    if req.port != 0 && req.port != 80 {
      out := out + ":";
      out := out + Decimal(req.port);
    }
    assert out == begun + "host" + ": " + HostValue(req);
    out := out + "\r\n";
    EndedField(lines, hs, HostField(req));
  }

  method AppendLength(begun: string, req: Request, ghost lines: seq<string>, ghost hs: seq<Header>)
    returns (out: string)
    requires begun == Ended(lines + Texts(hs))
    ensures out == Ended(lines + Texts(hs + [LengthField(req)]))
  {
    out := begun + "content-length: ";
    out := out + Decimal(|req.body|);
    assert out == begun + "content-length" + ": " + Decimal(|req.body|);
    out := out + "\r\n";
    EndedField(lines, hs, LengthField(req));
  }

  method AppendClose(begun: string, ghost lines: seq<string>, ghost hs: seq<Header>) returns (out: string)
    requires begun == Ended(lines + Texts(hs))
    ensures out == Ended(lines + Texts(hs + [CLOSE]))
  {
    out := begun + "connection: close\r\n";
    assert out == begun + "connection" + ": " + "close" + CRLF;
    EndedField(lines, hs, CLOSE);
  }

  method AppendStartLine(req: Request) returns (out: string)
    ensures out == Ended([StartLine(req)])
  {
    var target := OriginForm(req.url);
    var version := if req.version == "" then "1.1" else req.version;
    out := req.verb;
    out := out + " ";
    out := out + target;
    out := out + " HTTP/";
    out := out + version;
    assert out == StartLine(req);
    out := out + "\r\n";
  }

  // The fields that the request does not bring itself.
  method AppendMissing(begun: string, req: Request, hasHost: bool, hasLength: bool, ghost lines: seq<string>)
    returns (out: string)
    requires begun == Ended(lines + Texts(Kept(req.headers)))
    requires hasHost <==> Named(req.headers, "host")
    requires hasLength <==> Named(req.headers, "content-length")
    ensures out == Ended(lines + Texts(Fields(req)))
  {
    out := begun;
    if !hasHost {
      out := AppendHost(out, req, lines, Kept(req.headers));
    }
    assert out == Ended(lines + Texts(WithHost(req)));
    if !hasLength && req.body != "" {
      out := AppendLength(out, req, lines, WithHost(req));
    }
    assert out == Ended(lines + Texts(WithLength(req)));
    out := AppendClose(out, lines, WithLength(req));
  }

  method BuildForwardProxyRequest(req: Request) returns (out: string)
    ensures out == Printed(req)
    ensures out == "" <==> req.verb == "" || req.host == "" || req.isConnect
  {
    if req.verb == "" || req.host == "" || req.isConnect {
      return "";
    }
    out := AppendStartLine(req);
    var hasHost, hasLength;
    out, hasHost, hasLength := AppendHeaders(out, req.headers, [StartLine(req)]);
    out := AppendMissing(out, req, hasHost, hasLength, [StartLine(req)]);
    out := out + "\r\n";
    out := out + req.body;
  }
}
