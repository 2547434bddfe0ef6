/** What the upstream server reads in the forwarded request, said of the message alone. */
module MessageReading {
  import opened MessageBuilder
  import opened MessageRoundTrip

  // ---- The length of the body ----

  ghost predicate AllDigits(s: string) {
    s != "" && forall i :: 0 <= i < |s| ==> '0' <= s[i] <= '9'
  }

  lemma {:induction false} DecimalDigits(n: nat)
    ensures AllDigits(Decimal(n))
  {
    if n >= 10 {
      DecimalDigits(n / 10);
    }
  }

  /** A body that comes without a length is announced with its own, in decimal digits, once. */
  lemma LengthReceived(req: Request)
    requires Forwards(req) && Clean(req) && req.body != "" && !Named(req.headers, "content-length")
    ensures var m := Split(Printed(req));
      && m.Message? && m.body == req.body && Times(m.fields, "content-length") == 1
      && exists h :: h in m.fields && h.name == "content-length" && AllDigits(h.value) && Number(h.value) == |m.body|
  {
    RoundTrip(req);
    FieldsHold(req);
    DecimalDigits(|req.body|);
    DecimalBack(|req.body|);
    TimesFields(req, "content-length");
    Unnamed(req.headers, "content-length");
    assert LengthField(req) in Split(Printed(req)).fields;
  }

  lemma {:induction false} Unnamed(hs: seq<Header>, name: string)
    requires !Named(hs, name)
    ensures Times(hs, name) == 0
  {
    if hs != [] {
      var front, last := hs[..|hs| - 1], hs[|hs| - 1];
      assert hs == front + [last];
      NamedSnoc(front, last, name);
      Unnamed(front, name);
    }
  }

  // ---- The host ----

  /** A request that names no host itself arrives with the host and port it is for. */
  lemma HostReceived(req: Request)
    requires Forwards(req) && Clean(req) && !Named(req.headers, "host") && ':' !in req.host
    ensures var m := Split(Printed(req));
      && m.Message? && Times(m.fields, "host") == 1
      && exists h :: h in m.fields && h.name == "host"
           && h.value[..Find(h.value, ':', 0)] == req.host
           && PortOf(h.value) == if req.port == 0 then 80 else req.port
  {
    RoundTrip(req);
    FieldsHold(req);
    HostBack(req);
    TimesFields(req, "host");
    Unnamed(req.headers, "host");
    assert HostField(req) in Split(Printed(req)).fields;
  }

  // ---- The other fields ----

  /** The connection-specific fields do not arrive, except for one that asks to close. */
  lemma HopsReceived(req: Request)
    requires Forwards(req) && Clean(req)
    ensures var m := Split(Printed(req));
      && m.Message?
      && Header("connection", "close") in m.fields && Times(m.fields, "connection") == 1
      && Times(m.fields, "proxy-connection") == 0 && Times(m.fields, "keep-alive") == 0
      && Times(m.fields, "te") == 0 && Times(m.fields, "trailer") == 0
      && Times(m.fields, "transfer-encoding") == 0 && Times(m.fields, "upgrade") == 0
  {
    RoundTrip(req);
    FieldsHold(req);
    TimesFields(req, "connection");
    TimesFields(req, "proxy-connection");
    TimesFields(req, "keep-alive");
    TimesFields(req, "te");
    TimesFields(req, "trailer");
    TimesFields(req, "transfer-encoding");
    TimesFields(req, "upgrade");
  }

  // A given header and its name among the fields sent.
  lemma SentAsGiven(req: Request, h: Header)
    requires h in req.headers && !HopByHop(h.name)
    ensures h in Fields(req) && Times(Fields(req), h.name) == Times(req.headers, h.name)
  {
    KeptMembers(req.headers, h);
    FieldsHold(req);
    TimesFields(req, h.name);
    assert Named(req.headers, h.name);
  }

  /** Every other header arrives with its value, and its name as often as it was given. */
  lemma HeaderReceived(req: Request, h: Header)
    requires Forwards(req) && Clean(req) && h in req.headers
    requires h.name != "connection" && h.name != "proxy-connection" && h.name != "keep-alive" && h.name != "te"
    requires h.name != "trailer" && h.name != "transfer-encoding" && h.name != "upgrade"
    ensures var m := Split(Printed(req));
      && m.Message? && h in m.fields && Times(m.fields, h.name) == Times(req.headers, h.name)
  {
    RoundTrip(req);
    SentAsGiven(req, h);
  }

  lemma Sent(req: Request, h: Header)
    requires h in Fields(req)
    ensures h in Kept(req.headers) || h == HostField(req) || h == LengthField(req) || h == CLOSE
  {
    assert h in WithLength(req) || h == CLOSE;
    assert h in WithLength(req) ==> h in WithHost(req) || h == LengthField(req);
  }

  /** Nothing arrives that was not given, except host, length and the request to close. */
  lemma NothingInvented(req: Request, h: Header)
    requires Forwards(req) && Clean(req) && Split(Printed(req)).Message? && h in Split(Printed(req)).fields
    ensures h in req.headers || h.name == "host" || h.name == "content-length" || h == Header("connection", "close")
  {
    RoundTrip(req);
    Sent(req, h);
    KeptMembers(req.headers, h);
  }
}
