/** What a reader of the forwarded request gets back, by the grammar of section 2.1 of RFC 9112. */
module MessageRoundTrip {
  import opened Basics
  import opened MessageBuilder

  ghost predicate NoBreak(s: string) {
    '\r' !in s && '\n' !in s
  }

  ghost predicate CleanHeader(h: Header) {
    NoBreak(h.name) && ':' !in h.name && NoBreak(h.value)
  }

  ghost predicate Clean(req: Request) {
    && NoBreak(req.verb) && NoBreak(req.url) && NoBreak(req.version) && NoBreak(req.host)
    && forall h :: h in req.headers ==> CleanHeader(h)
  }

  ghost predicate Unique(hs: seq<Header>) {
    forall i, j :: 0 <= i < j < |hs| ==> hs[i].name != hs[j].name
  }

  // ---- The reference splitter ----

  datatype Message = Malformed | Message(start: string, fields: seq<Header>, body: string)

  ghost predicate LineEndAt(s: string, i: nat) {
    i + 2 <= |s| && s[i] == '\r' && s[i + 1] == '\n'
  }

  ghost predicate HeadEndAt(s: string, i: nat) {
    LineEndAt(s, i) && LineEndAt(s, i + 2)
  }

  ghost function FindLineEnd(s: string, from: nat): (r: nat)
    requires from <= |s|
    ensures from <= r <= |s| && (r < |s| ==> LineEndAt(s, r))
    ensures forall i :: from <= i < r ==> !LineEndAt(s, i)
    decreases |s| - from
  {
    if from == |s| || LineEndAt(s, from) then from else FindLineEnd(s, from + 1)
  }

  ghost function FindHeadEnd(s: string, from: nat): (r: nat)
    requires from <= |s|
    ensures from <= r <= |s| && (r < |s| ==> HeadEndAt(s, r))
    ensures forall i :: from <= i < r ==> !HeadEndAt(s, i)
    decreases |s| - from
  {
    if from == |s| || HeadEndAt(s, from) then from else FindHeadEnd(s, from + 1)
  }

  ghost function SplitLines(s: string): seq<string>
    decreases |s|
  {
    if s == "" then [] else
      var i := FindLineEnd(s, 0);
      if i == |s| then [s] else [s[..i]] + SplitLines(s[i + 2..])
  }

  // A field line is cut at its first colon; one space after the colon is dropped.
  ghost function FieldOf(line: string): Header {
    var i := Find(line, ':', 0);
    var value := if i == |line| then "" else line[i + 1..];
    Header(line[..i], if value != "" && value[0] == ' ' then value[1..] else value)
  }

  ghost function FieldsOf(lines: seq<string>): (r: seq<Header>)
    ensures |r| == |lines| && forall i :: 0 <= i < |r| ==> r[i] == FieldOf(lines[i])
  {
    seq(|lines|, i requires 0 <= i < |lines| => FieldOf(lines[i]))
  }

  // The head ends at the first empty line; the body is all that follows.
  ghost function Split(s: string): Message {
    var end := FindHeadEnd(s, 0);
    if end == |s| then Malformed else
      var lines := SplitLines(s[..end + 2]);
      if lines == [] then Malformed else Message(lines[0], FieldsOf(lines[1..]), s[end + 4..])
  }

  // ---- Lines ----

  ghost predicate CleanLines(lines: seq<string>) {
    forall i :: 0 <= i < |lines| ==> lines[i] != "" && NoBreak(lines[i])
  }

  // In lines with their ends no line end stands right before another, except at the very end.
  lemma {:induction false} NoEarlyHeadEnd(lines: seq<string>, i: nat)
    requires CleanLines(lines) && i + 2 < |Ended(lines)| && Ended(lines)[i] == '\r'
    ensures Ended(lines)[i + 2] != '\r'
  {
    var front, last := lines[..|lines| - 1], lines[|lines| - 1];
    EndsInLineEnd(front);
    if i + 2 < |Ended(front)| {
      NoEarlyHeadEnd(front, i);
    }
    assert Ended(lines) == Ended(front) + last + CRLF;
  }

  lemma EndsInLineEnd(lines: seq<string>)
    ensures lines != [] ==> |Ended(lines)| >= 2 && LineEndAt(Ended(lines), |Ended(lines)| - 2)
  {}

  lemma {:induction false} EndedCons(line: string, rest: seq<string>)
    ensures Ended([line] + rest) == line + CRLF + Ended(rest)
  {
    var all := [line] + rest;
    if rest == [] {
      assert Ended(all) == Ended(all[..0]) + line + CRLF;
    } else {
      var n := |rest| - 1;
      assert all[..|all| - 1] == [line] + rest[..n];
      EndedCons(line, rest[..n]);
    }
  }

  lemma {:induction false} SplitLinesBack(lines: seq<string>)
    requires CleanLines(lines)
    ensures SplitLines(Ended(lines)) == lines
  {
    if lines != [] {
      var line, rest := lines[0], lines[1..];
      assert lines == [line] + rest;
      EndedCons(line, rest);
      var s := Ended(lines);
      assert forall i :: 0 <= i < |line| ==> s[i] == line[i];
      assert LineEndAt(s, |line|);
      assert FindLineEnd(s, 0) == |line|;
      assert s[..|line|] == line && s[|line| + 2..] == Ended(rest);
      SplitLinesBack(rest);
    }
  }

  lemma HeadEndFound(lines: seq<string>, body: string)
    requires CleanLines(lines) && lines != []
    ensures FindHeadEnd(Ended(lines) + CRLF + body, 0) == |Ended(lines)| - 2
  {
    var head := Ended(lines);
    var s := head + CRLF + body;
    EndsInLineEnd(lines);
    forall i: nat | i + 2 < |head|
      ensures !HeadEndAt(s, i)
    {
      if head[i] == '\r' {
        NoEarlyHeadEnd(lines, i);
      }
    }
    assert HeadEndAt(s, |head| - 2);
  }

  // ---- The theorem ----

  lemma FieldBack(h: Header)
    requires ':' !in h.name
    ensures FieldOf(Text(h)) == h
  {
    var line := Text(h);
    assert forall i :: 0 <= i < |h.name| ==> line[i] == h.name[i];
    assert line[|h.name|] == ':' && Find(line, ':', 0) == |h.name|;
    assert line[..|h.name|] == h.name && line[|h.name| + 1..] == " " + h.value;
  }

  lemma {:induction false} DecimalClean(n: nat)
    ensures NoBreak(Decimal(n)) && Decimal(n) != ""
  {
    if n >= 10 {
      DecimalClean(n / 10);
    }
  }

  lemma OriginFormClean(url: string)
    requires NoBreak(url)
    ensures NoBreak(OriginForm(url))
  {}

  lemma {:induction false} KeptMembers(hs: seq<Header>, h: Header)
    ensures h in Kept(hs) <==> h in hs && !HopByHop(h.name)
  {
    if hs != [] {
      KeptMembers(hs[..|hs| - 1], h);
      assert hs == hs[..|hs| - 1] + [hs[|hs| - 1]];
    }
  }

  lemma AddedClean(req: Request)
    requires Clean(req)
    ensures CleanHeader(HostField(req)) && CleanHeader(LengthField(req)) && CleanHeader(CLOSE)
  {
    DecimalClean(req.port);
    DecimalClean(|req.body|);
  }

  lemma FieldsClean(req: Request, h: Header)
    requires Clean(req) && h in Fields(req)
    ensures CleanHeader(h)
  {
    AddedClean(req);
    KeptMembers(req.headers, h);
  }

  lemma TextClean(h: Header)
    requires CleanHeader(h)
    ensures NoBreak(Text(h)) && Text(h) != ""
  {}

  lemma StartClean(req: Request)
    requires Clean(req)
    ensures NoBreak(StartLine(req)) && StartLine(req) != ""
  {
    OriginFormClean(req.url);
  }

  lemma Halves(a: string, b: string, c: string)
    ensures (a + b + c)[..|a|] == a && (a + b + c)[|a| + |b|..] == c
  {}

  lemma SplitAt(s: string, head: string, body: string)
    requires |head| >= 2 && FindHeadEnd(s, 0) == |head| - 2 && |s| >= |head| + 2
    requires s[..|head|] == head && s[|head| + 2..] == body && SplitLines(head) != []
    ensures Split(s) == Message(SplitLines(head)[0], FieldsOf(SplitLines(head)[1..]), body)
  {
  }

  lemma SplitEnded(lines: seq<string>, body: string)
    requires CleanLines(lines) && lines != []
    ensures Split(Ended(lines) + CRLF + body) == Message(lines[0], FieldsOf(lines[1..]), body)
  {
    EndsInLineEnd(lines);
    HeadEndFound(lines, body);
    SplitLinesBack(lines);
    Halves(Ended(lines), CRLF, body);
    SplitAt(Ended(lines) + CRLF + body, Ended(lines), body);
  }

  // Any start line, fields and body come back from their printed form.
  lemma SplitBack(start: string, hs: seq<Header>, body: string)
    requires start != "" && NoBreak(start) && forall h :: h in hs ==> CleanHeader(h)
    ensures Split(Ended([start] + Texts(hs)) + CRLF + body) == Message(start, hs, body)
  {
    var lines := [start] + Texts(hs);
    assert lines[1..] == Texts(hs);
    forall i | 0 <= i < |hs|
      ensures NoBreak(Text(hs[i])) && Text(hs[i]) != "" && FieldOf(Text(hs[i])) == hs[i]
    {
      TextClean(hs[i]);
      FieldBack(hs[i]);
    }
    assert FieldsOf(Texts(hs)) == hs;
    SplitEnded(lines, body);
  }

  lemma RoundTrip(req: Request)
    requires Forwards(req) && Clean(req)
    ensures Split(Printed(req)) == Message(StartLine(req), Fields(req), req.body)
  {
    StartClean(req);
    forall h | h in Fields(req)
      ensures CleanHeader(h)
    {
      FieldsClean(req, h);
    }
    SplitBack(StartLine(req), Fields(req), req.body);
  }

  // ---- Which fields there are ----

  ghost function Times(hs: seq<Header>, name: string): nat {
    if hs == [] then 0 else Times(hs[..|hs| - 1], name) + (if hs[|hs| - 1].name == name then 1 else 0)
  }

  lemma {:induction false} TimesConcat(a: seq<Header>, b: seq<Header>, name: string)
    ensures Times(a + b, name) == Times(a, name) + Times(b, name)
  {
    if b == [] {
      assert a + b == a;
    } else {
      var n := |b| - 1;
      assert (a + b)[..|a + b| - 1] == a + b[..n];
      TimesConcat(a, b[..n], name);
    }
  }

  lemma {:induction false} TimesKept(hs: seq<Header>, name: string)
    ensures Times(Kept(hs), name) == if HopByHop(name) then 0 else Times(hs, name)
  {
    if hs != [] {
      var front, last := hs[..|hs| - 1], hs[|hs| - 1];
      TimesKept(front, name);
      if !HopByHop(last.name) {
        assert (Kept(front) + [last])[..|Kept(front)|] == Kept(front);
      }
    }
  }

  lemma {:induction false} TimesUnique(hs: seq<Header>, name: string)
    requires Unique(hs)
    ensures Times(hs, name) == if Named(hs, name) then 1 else 0
  {
    if hs != [] {
      var front, last := hs[..|hs| - 1], hs[|hs| - 1];
      TimesUnique(front, name);
      assert hs == front + [last];
      NamedSnoc(front, last, name);
      assert last.name == name ==> !Named(front, name);
    }
  }

  // How often a name occurs among the fields sent.
  lemma TimesFields(req: Request, name: string)
    ensures Times(Fields(req), name)
         == One(name == "connection")
          + One(name == "host" && !Named(req.headers, "host"))
          + One(name == "content-length" && !Named(req.headers, "content-length") && req.body != "")
          + if HopByHop(name) then 0 else Times(req.headers, name)
  {
    TimesConcat(WithLength(req), [CLOSE], name);
    TimesConcat(WithHost(req), [LengthField(req)], name);
    TimesConcat(Kept(req.headers), [HostField(req)], name);
    TimesKept(req.headers, name);
  }

  // Host and connection go out exactly once, a length exactly when there is a body or the client gave one.
  lemma FieldCounts(req: Request)
    requires Unique(req.headers)
    ensures Times(Fields(req), "host") == 1
    ensures Times(Fields(req), "connection") == 1
    ensures Times(Fields(req), "content-length") == One(Named(req.headers, "content-length") || req.body != "")
  {
    TimesFields(req, "host");
    TimesUnique(req.headers, "host");
    TimesFields(req, "connection");
    TimesFields(req, "content-length");
    TimesUnique(req.headers, "content-length");
  }

  lemma FieldsHold(req: Request)
    ensures Kept(req.headers) <= Fields(req) && CLOSE in Fields(req)
    ensures !Named(req.headers, "host") ==> HostField(req) in Fields(req)
    ensures req.body != "" && !Named(req.headers, "content-length") ==> LengthField(req) in Fields(req)
  {
    assert Fields(req)[|Fields(req)| - 1] == CLOSE;
  }

  // The original headers less the connection-specific ones of section 7.6.1 of RFC 9110 come first and in order,
  // and the fields that are added hold what the request says.
  lemma ReceivedFields(req: Request)
    requires Forwards(req) && Clean(req) && Unique(req.headers)
    ensures var m := Split(Printed(req));
            && m.Message? && m.body == req.body
            && Kept(req.headers) <= m.fields
            && Header("connection", "close") in m.fields && Times(m.fields, "connection") == 1
            && Times(m.fields, "host") == 1
            && (!Named(req.headers, "host") ==> HostField(req) in m.fields)
            && Times(m.fields, "content-length") == One(Named(req.headers, "content-length") || req.body != "")
            && (req.body != "" && !Named(req.headers, "content-length") ==> LengthField(req) in m.fields)
  {
    RoundTrip(req);
    FieldCounts(req);
    FieldsHold(req);
  }

  // Every other name arrives as often as it was sent, or not at all when it is hop-by-hop.
  lemma OtherFields(req: Request, name: string)
    requires Forwards(req) && Clean(req)
    requires name != "host" && name != "connection" && name != "content-length"
    ensures Split(Printed(req)).Message?
    ensures Times(Split(Printed(req)).fields, name) == if HopByHop(name) then 0 else Times(req.headers, name)
  {
    RoundTrip(req);
    TimesFields(req, name);
  }

  ghost function Number(s: string): int {
    if s == "" then 0 else 10 * Number(s[..|s| - 1]) + (s[|s| - 1] as int - '0' as int)
  }

  // The length sent, read as a number, is the length of the body.
  lemma {:induction false} DecimalBack(n: nat)
    ensures Number(Decimal(n)) == n
  {
    if n < 10 {
      assert Number([Digit(n)]) == 10 * Number("") + n;
    } else {
      DecimalBack(n / 10);
      assert (Decimal(n / 10) + [Digit(n % 10)])[..|Decimal(n / 10)|] == Decimal(n / 10);
    }
  }

  // The port a reader takes from a host value, 80 being the default of section 4.2.1 of RFC 9110.
  ghost function PortOf(v: string): int {
    var i := Find(v, ':', 0);
    if i == |v| then 80 else Number(v[i + 1..])
  }

  /** The host is what stands before the first colon exactly if it has none itself; then the port comes back too. */
  lemma HostBack(req: Request)
    ensures HostValue(req)[..Find(HostValue(req), ':', 0)] == req.host <==> ':' !in req.host
    ensures ':' !in req.host ==> PortOf(HostValue(req)) == if req.port == 0 then 80 else req.port
  {
    var v := HostValue(req);
    if req.port != 0 && req.port != 80 {
      assert v == req.host + [':'] + Decimal(req.port);
      CutExactly(req.host, ':', Decimal(req.port));
      assert v[|req.host| + 1..] == Decimal(req.port);
      DecimalBack(req.port);
    } else {
      assert v == req.host;
    }
  }

  lemma KeptSame(a: seq<Header>, b: seq<Header>)
    requires multiset(a) == multiset(b)
    ensures multiset(Kept(a)) == multiset(Kept(b))
  {
    forall h ensures multiset(Kept(a))[h] == multiset(Kept(b))[h] {
      KeptOften(a, h);
      KeptOften(b, h);
    }
  }

  lemma WithHostSame(a: Request, b: Request)
    requires a.(headers := []) == b.(headers := []) && multiset(a.headers) == multiset(b.headers)
    ensures multiset(WithHost(a)) == multiset(WithHost(b))
  {
    KeptSame(a.headers, b.headers);
    SameNames(a.headers, b.headers, "host");
  }

  // The headers come out of an unordered map; their order is the only thing that order changes.
  lemma OrderIsImmaterial(a: Request, b: Request)
    requires a.(headers := []) == b.(headers := []) && multiset(a.headers) == multiset(b.headers)
    ensures multiset(Fields(a)) == multiset(Fields(b))
  {
    WithHostSame(a, b);
    SameNames(a.headers, b.headers, "content-length");
    assert multiset(WithLength(a)) == multiset(WithLength(b));
  }

  lemma SameNames(a: seq<Header>, b: seq<Header>, name: string)
    requires multiset(a) == multiset(b)
    ensures Named(a, name) <==> Named(b, name)
  {
    assert forall h :: h in a <==> h in multiset(a);
    assert forall h :: h in b <==> h in multiset(b);
  }

  lemma {:induction false} KeptOften(hs: seq<Header>, h: Header)
    ensures multiset(Kept(hs))[h] == if HopByHop(h.name) then 0 else multiset(hs)[h]
  {
    if hs != [] {
      KeptOften(hs[..|hs| - 1], h);
      assert hs == hs[..|hs| - 1] + [hs[|hs| - 1]];
    }
  }

  // ---- The request target ----

  lemma OriginFormFixed(url: string)
    ensures OriginForm(OriginForm(url)) == OriginForm(url)
  {}

  // Without a scheme the target is the URL as it was, with a slash before it where one is missing.
  lemma OriginFormKeeps(url: string)
    requires !("http://" <= url) && !("https://" <= url)
    ensures OriginForm(url) == url <==> url == "*" || (url != "" && url[0] == '/')
    ensures OriginForm(url) == url || OriginForm(url) == "/" + url
  {
    if url == "" {
      assert "/" + url == "/";
    }
  }

  // An absolute URL is cut before the first slash after its host; without one the target is the root.
  lemma OriginFormCuts(scheme: string, authority: string, path: string)
    requires scheme == "http://" || scheme == "https://"
    requires '/' !in authority && (path == "" || path[0] == '/')
    ensures OriginForm(scheme + authority + path) == if path == "" then "/" else path
  {
    var url := scheme + authority + path;
    assert url[4] == scheme[4] && scheme <= url;
    var n := |scheme| + |authority|;
    assert forall i :: |scheme| <= i < n ==> url[i] == authority[i - |scheme|];
    assert url[n..] == path;
    assert Find(url, '/', |scheme|) == n;
  }

  lemma {:induction false} CutAt(a: string, c: char, b: string, from: nat)
    requires c !in a && from <= |a|
    ensures Find(a + [c] + b, c, from) == |a|
    decreases |a| - from
  {
    if from < |a| {
      CutAt(a, c, b, from + 1);
    }
  }

  // Cutting at the first c gives back what was put before a c exactly if that has no c itself.
  lemma CutExactly(a: string, c: char, b: string)
    ensures var s := a + [c] + b; s[..Find(s, c, 0)] == a <==> c !in a
    ensures c !in a ==> Find(a + [c] + b, c, 0) == |a|
  {
    var s := a + [c] + b;
    if c in a {
      var k :| 0 <= k < |a| && a[k] == c;
      assert s[k] == c;
    } else {
      CutAt(a, c, b, 0);
    }
  }

  /** Cut at spaces, the start line gives back method, target and version exactly if the first two have no space. */
  lemma StartLineBack(req: Request)
    ensures var line := StartLine(req); line[..Find(line, ' ', 0)] == req.verb <==> ' ' !in req.verb
    ensures ' ' !in req.verb ==>
      var i := |req.verb| + 1;
      && i <= |StartLine(req)|
      && var rest := StartLine(req)[i..]; var j := Find(rest, ' ', 0);
         && (rest[..j] == OriginForm(req.url) <==> ' ' !in OriginForm(req.url))
         && (' ' !in OriginForm(req.url) ==>
               j < |rest| && rest[j + 1..] == "HTTP/" + if req.version == "" then "1.1" else req.version)
  {
    var target := OriginForm(req.url);
    var version := "HTTP/" + if req.version == "" then "1.1" else req.version;
    var rest := target + [' '] + version;
    assert StartLine(req) == req.verb + [' '] + rest;
    CutExactly(req.verb, ' ', rest);
    assert StartLine(req)[|req.verb| + 1..] == rest;
    CutExactly(target, ' ', version);
  }
}
