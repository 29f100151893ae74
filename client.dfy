/**
  The request executor: which body is sent, how the outgoing header set is
  assembled, the shape of every failure, and how the response headers are
  flattened. The network itself is a parameter (a Transport).
*/
module HttpClient {
  import opened Wrappers
  import opened Text

  /** What the session asks to send. */
  datatype Request = Request(methodName: string, url: string, headers: map<string, string>, body: string)

  /** What comes back to the session; an error response carries only its error. */
  datatype Response = Response(
    statusCode: int,
    headers: map<string, string>,
    body: string,
    responseTime: int,
    error: Option<string>)

  /** The request as it leaves the program: header names in canonical form, one value each. */
  datatype WireRequest = WireRequest(methodName: string, url: string, header: map<string, string>, body: Option<string>)

  /** What the network does with a request: it fails, or answers with a body that cannot be read, or answers. */
  datatype Exchange =
    | TransportFailed(reason: string)
    | BodyUnreadable(reason: string)
    | Received(status: int, header: map<string, seq<string>>, body: string, elapsed: int)

  /**
    The parts of net/http the executor cannot see: the reason a request
    cannot even be built (an unusable method or URL), and the round trip,
    which includes the 30-second timeout of the client.
  */
  datatype Transport = Transport(buildError: (string, string) -> Option<string>, roundTrip: WireRequest -> Exchange)

  const UserAgent := "Quest/1.0"
  const DefaultContentType := "application/json"

  /** The methods whose body is transmitted. */
  predicate CarriesBody(methodName: string) {
    methodName == "POST" || methodName == "PUT" || methodName == "PATCH"
  }

  /** The body is transmitted only when it is non-empty and the method carries one. */
  function BodyToSend(req: Request): (b: Option<string>)
    ensures b.Some? <==> req.body != "" && CarriesBody(req.methodName)
    ensures b.Some? ==> b.value == req.body
  {
    if req.body != "" && CarriesBody(req.methodName) then Some(req.body) else None
  }

  // ---------------------------------------------------------------------
  // Header names (net/textproto's canonical form)

  /** A character allowed in a header name (an RFC 7230 token character). */
  predicate IsTokenChar(c: char) {
    ('a' <= c <= 'z') || ('A' <= c <= 'Z') || ('0' <= c <= '9')
    || c == '!' || c == '#' || c == '$' || c == '%' || c == '&' || c == '\'' || c == '*'
    || c == '+' || c == '-' || c == '.' || c == '^' || c == '_' || c == '`' || c == '|' || c == '~'
  }

  function UpperChar(c: char): char {
    if 'a' <= c <= 'z' then (c as int - 32) as char else c
  }

  /** Position i of the name starts a word: it is the first character or follows a '-'. */
  predicate AtWordStart(s: string, i: nat)
    requires i < |s|
  {
    i == 0 || s[i - 1] == '-'
  }

  /** Letters upper-cased at the start and after each '-', lower-cased elsewhere. */
  function Capitalised(s: string): (r: string)
    ensures |r| == |s|
  {
    seq(|s|, i requires 0 <= i < |s| => if AtWordStart(s, i) then UpperChar(s[i]) else LowerChar(s[i]))
  }

  /** Every character of the name is a token character. */
  predicate IsToken(k: string) {
    forall c :: c in k ==> IsTokenChar(c)
  }

  /** The canonical form of a header name; a name with a character outside the token set is kept as it is. */
  function CanonicalKey(k: string): (r: string)
    ensures |r| == |k|
    ensures !IsToken(k) ==> r == k
    ensures ToLower(r) == ToLower(k)
  {
    if IsToken(k) then
      var r := Capitalised(k);
      CapitalisedKeepsLower(k);
      r
    else k
  }

  /** Capitalising changes letter case only. */
  lemma CapitalisedKeepsLower(k: string)
    ensures ToLower(Capitalised(k)) == ToLower(k)
  {
    forall i | 0 <= i < |k| ensures LowerChar(Capitalised(k)[i]) == LowerChar(k[i]) {
    }
  }

  /** Canonicalising a canonical name changes nothing. */
  lemma CanonicalKeyIdempotent(k: string)
    ensures CanonicalKey(CanonicalKey(k)) == CanonicalKey(k)
  {
    if IsToken(k) {
      var r := Capitalised(k);
      forall i | 0 <= i < |k| ensures IsTokenChar(r[i]) && (r[i] == '-' <==> k[i] == '-') {
        assert k[i] in k;
      }
      assert IsToken(r);
      assert Capitalised(r) == r;
    }
  }

  /** Two token characters that agree once lower-cased capitalise alike, and are '-' alike. */
  lemma SameLowerSameCase(x: char, y: char)
    requires IsTokenChar(x) && LowerChar(x) == LowerChar(y)
    ensures IsTokenChar(y) && UpperChar(x) == UpperChar(y) && (x == '-' <==> y == '-')
  {
  }

  /**
    Header names are case-insensitive: two token names that differ only in
    the case of their ASCII letters reach the same header.
  */
  lemma CanonicalKeyIgnoresCase(a: string, b: string)
    requires IsToken(a) && ToLower(a) == ToLower(b)
    ensures IsToken(b) && CanonicalKey(a) == CanonicalKey(b)
  {
    assert |a| == |ToLower(a)| == |b|;
    forall i | 0 <= i < |a|
      ensures IsTokenChar(b[i]) && UpperChar(a[i]) == UpperChar(b[i]) && LowerChar(a[i]) == LowerChar(b[i])
      ensures (a[i] == '-' <==> b[i] == '-')
    {
      assert a[i] in a;
      assert ToLower(a)[i] == ToLower(b)[i];
      SameLowerSameCase(a[i], b[i]);
    }
    forall c | c in b ensures IsTokenChar(c) {
      var i :| 0 <= i < |b| && b[i] == c;
    }
    forall i | 0 <= i < |a| ensures Capitalised(a)[i] == Capitalised(b)[i] {
      if i > 0 {
        assert (a[i - 1] == '-' <==> b[i - 1] == '-');
      }
    }
  }

  /**
    Two names, the first a token, reach the same header exactly when they
    agree once lower-cased: names that differ beyond letter case never
    collide.
  */
  lemma CanonicalKeySameIffSameLower(a: string, b: string)
    requires IsToken(a)
    ensures CanonicalKey(a) == CanonicalKey(b) <==> ToLower(a) == ToLower(b)
  {
    if ToLower(a) == ToLower(b) {
      CanonicalKeyIgnoresCase(a, b);
    }
  }

  /** A name typed in lower case reaches the same header as its canonical spelling. */
  lemma LowerCaseNameCanonicalised()
    ensures CanonicalKey("content-type") == "Content-Type"
  {
    LowerCaseNameCanonicalisedIsToken();
    LowerCaseNameCanonicalisedCapitalised();
  }

  lemma LowerCaseNameCanonicalisedIsToken()
    ensures IsToken("content-type")
  {
  }

  lemma LowerCaseNameCanonicalisedCapitalised()
    ensures Capitalised("content-type") == "Content-Type"
  {
  }

  /** A name with a space is not a token and is kept as typed. */
  lemma NameWithSpaceKept()
    ensures CanonicalKey("x api key") == "x api key"
  {
    assert !IsTokenChar("x api key"[1]);
  }

  /** Header.Set: the value replaces whatever the canonical name held. */
  function HeaderSet(h: map<string, string>, k: string, v: string): map<string, string> {
    h[CanonicalKey(k) := v]
  }

  /** Header.Get: the value under the canonical name, or "" when it is absent. */
  function HeaderGet(h: map<string, string>, k: string): string {
    if CanonicalKey(k) in h then h[CanonicalKey(k)] else ""
  }

  /**
    Header.Get after Header.Set: any spelling of the name that agrees once
    lower-cased reads the new value, and a name that differs beyond letter
    case reads what it read before.
  */
  lemma SetThenGet(h: map<string, string>, k: string, v: string, n: string)
    ensures IsToken(k) && ToLower(n) == ToLower(k) ==> HeaderGet(HeaderSet(h, k, v), n) == v
    ensures ToLower(n) != ToLower(k) ==> HeaderGet(HeaderSet(h, k, v), n) == HeaderGet(h, n)
  {
    if IsToken(k) && ToLower(n) == ToLower(k) {
      CanonicalKeyIgnoresCase(k, n);
    }
    if ToLower(n) != ToLower(k) {
      assert ToLower(CanonicalKey(n)) == ToLower(n) && ToLower(CanonicalKey(k)) == ToLower(k);
    }
  }

  /**
    The default headers: the user agent, then the JSON content type when a
    body is sent and the set holds no content type yet (both names are
    already in canonical form).
  */
  function DefaultHeaders(bodySent: bool): (h: map<string, string>)
    ensures h.Keys == if bodySent then {"User-Agent", "Content-Type"} else {"User-Agent"}
    ensures h["User-Agent"] == UserAgent
    ensures bodySent ==> h["Content-Type"] == DefaultContentType
  {
    var base := map["User-Agent" := UserAgent];
    if bodySent && "Content-Type" !in base then base["Content-Type" := DefaultContentType]
    else base
  }

  /** The two default names are in canonical form, so Header.Set and Header.Get reach them as spelled. */
  lemma UserAgentNameCanonical()
    ensures CanonicalKey("User-Agent") == "User-Agent"
  {
    assert IsToken("User-Agent");
  }

  lemma ContentTypeNameCanonical()
    ensures CanonicalKey("Content-Type") == "Content-Type"
  {
    ContentTypeNameCanonicalIsToken();
    ContentTypeNameCanonicalCapitalised();
  }

  lemma ContentTypeNameCanonicalIsToken()
    ensures IsToken("Content-Type")
  {
  }

  lemma ContentTypeNameCanonicalCapitalised()
    ensures Capitalised("Content-Type") == "Content-Type"
  {
  }

  function CanonicalKeys(names: set<string>): set<string> {
    set c | c in names :: CanonicalKey(c)
  }

  /**
    The header set after the custom headers named in `done` have been set
    over the defaults, in some order: every default or set name is present; a
    name none of them reaches keeps its default; a name some of them reach
    holds the value of one of those.
  */
  ghost predicate AssembledOver(defaults: map<string, string>, custom: map<string, string>, done: set<string>, h: map<string, string>)
    requires done <= custom.Keys
  {
    && h.Keys == defaults.Keys + CanonicalKeys(done)
    && (forall k :: k in h && k !in CanonicalKeys(done) ==> h[k] == defaults[k])
    && (forall k :: k in h && k in CanonicalKeys(done) ==>
          exists c :: c in done && CanonicalKey(c) == k && h[k] == custom[c])
  }

  /** The header set once every custom header has been set over the defaults. */
  ghost predicate AssembledFrom(defaults: map<string, string>, custom: map<string, string>, h: map<string, string>) {
    AssembledOver(defaults, custom, custom.Keys, h)
  }

  /** Before any custom header is set, the defaults are the whole set. */
  lemma AssembleStart(defaults: map<string, string>, custom: map<string, string>)
    ensures AssembledOver(defaults, custom, {}, defaults)
  {
    assert CanonicalKeys({}) == {};
  }

  /** Setting one more custom header keeps the description true. */
  lemma AssembleStep(defaults: map<string, string>, custom: map<string, string>, done: set<string>, h: map<string, string>, c: string)
    requires done <= custom.Keys && c in custom && c !in done
    requires AssembledOver(defaults, custom, done, h)
    ensures AssembledOver(defaults, custom, done + {c}, HeaderSet(h, c, custom[c]))
  {
    var h' := HeaderSet(h, c, custom[c]);
    var k0 := CanonicalKey(c);
    assert CanonicalKeys(done + {c}) == CanonicalKeys(done) + {k0};
    forall k | k in h' && k in CanonicalKeys(done + {c})
      ensures exists d :: d in done + {c} && CanonicalKey(d) == k && h'[k] == custom[d]
    {
      if k == k0 {
        assert c in done + {c} && CanonicalKey(c) == k && h'[k] == custom[c];
      } else {
        var d :| d in done && CanonicalKey(d) == k && h[k] == custom[d];
        assert d in done + {c};
      }
    }
  }

  /** The loop that sets the custom headers over the defaults, in the map's (unspecified) order. */
  method SetCustomHeaders(defaults: map<string, string>, custom: map<string, string>) returns (h: map<string, string>)
    ensures AssembledFrom(defaults, custom, h)
  {
    h := defaults;
    var rest := custom.Keys;
    ghost var done: set<string> := {};
    AssembleStart(defaults, custom);
    while rest != {}
      invariant done <= custom.Keys && rest == custom.Keys - done
      invariant AssembledOver(defaults, custom, done, h)
      decreases |rest|
    {
      var c :| c in rest;
      AssembleStep(defaults, custom, done, h, c);
      h := HeaderSet(h, c, custom[c]);
      rest := rest - {c};
      done := done + {c};
    }
    assert done == custom.Keys;
  }

  /**
    Custom headers override the defaults: when no two custom names share a
    canonical form, each custom header is sent with exactly its value.
  */
  lemma CustomHeaderWins(defaults: map<string, string>, custom: map<string, string>, h: map<string, string>, c: string)
    requires AssembledFrom(defaults, custom, h)
    requires forall c1, c2 :: c1 in custom && c2 in custom && CanonicalKey(c1) == CanonicalKey(c2) ==> c1 == c2
    requires c in custom
    ensures CanonicalKey(c) in h && h[CanonicalKey(c)] == custom[c]
  {
    assert CanonicalKey(c) in CanonicalKeys(custom.Keys);
    var c' :| c' in custom && CanonicalKey(c') == CanonicalKey(c) && h[CanonicalKey(c)] == custom[c'];
  }

  /** A default no custom header reaches is sent with its default value. */
  lemma DefaultKeptUnlessOverridden(defaults: map<string, string>, custom: map<string, string>, h: map<string, string>, k: string)
    requires AssembledFrom(defaults, custom, h)
    requires k in defaults && forall c :: c in custom ==> CanonicalKey(c) != k
    ensures k in h && h[k] == defaults[k]
  {
    assert k !in CanonicalKeys(custom.Keys);
  }

  /** A default whose name no custom header spells, in any letter case, is sent with its default value. */
  lemma DefaultKeptUnlessNamedInAnyCase(defaults: map<string, string>, custom: map<string, string>, h: map<string, string>, k: string)
    requires AssembledFrom(defaults, custom, h)
    requires k in defaults && forall c :: c in custom ==> ToLower(c) != ToLower(k)
    ensures k in h && h[k] == defaults[k]
  {
    forall c | c in custom ensures CanonicalKey(c) != k {
      assert ToLower(CanonicalKey(c)) == ToLower(c);
    }
    DefaultKeptUnlessOverridden(defaults, custom, h, k);
  }

  /** A content type the user sets, in any letter case, replaces the JSON default. */
  lemma CustomContentTypeOverridesDefault(h: map<string, string>)
    requires AssembledFrom(DefaultHeaders(true), map["content-type" := "text/xml"], h)
    ensures h["Content-Type"] == "text/xml"
    ensures h["User-Agent"] == UserAgent
  {
    var custom := map["content-type" := "text/xml"];
    LowerCaseNameCanonicalised();
    CustomHeaderWins(DefaultHeaders(true), custom, h, "content-type");
    DefaultKeptUnlessOverridden(DefaultHeaders(true), custom, h, "User-Agent");
  }

  /** Without custom headers the defaults are sent as they are. */
  lemma NoCustomHeadersSendsDefaults(defaults: map<string, string>, h: map<string, string>)
    requires AssembledFrom(defaults, map[], h)
    ensures h == defaults
  {
    assert CanonicalKeys({}) == {};
  }

  // ---------------------------------------------------------------------
  // Responses

  /** The response that carries only an error: status 0, no headers, no body, no time. */
  function Failure(message: string): (r: Response)
    ensures r.error == Some(message)
    ensures r.statusCode == 0 && r.headers == map[] && r.body == "" && r.responseTime == 0
  {
    Response(0, map[], "", 0, Some(message))
  }

  /** Each response header name with its values joined by ", ". */
  function Flatten(header: map<string, seq<string>>): map<string, string> {
    map k | k in header :: Join(header[k], ", ")
  }

  /** The loop that flattens the response headers one name at a time. */
  method FlattenHeaders(header: map<string, seq<string>>) returns (flat: map<string, string>)
    ensures flat == Flatten(header)
  {
    flat := map[];
    var rest := header.Keys;
    while rest != {}
      invariant rest <= header.Keys
      invariant flat == map k | k in header && k !in rest :: Join(header[k], ", ")
      decreases |rest|
    {
      var k :| k in rest;
      flat := flat[k := Join(header[k], ", ")];
      rest := rest - {k};
    }
  }

  /** Flattening keeps every header name, keeps a single value verbatim and joins two with ", ". */
  lemma FlattenJoinsValues(header: map<string, seq<string>>, k: string)
    requires k in header
    ensures Flatten(header).Keys == header.Keys
    ensures |header[k]| == 1 ==> Flatten(header)[k] == header[k][0]
    ensures |header[k]| == 2 ==> Flatten(header)[k] == header[k][0] + ", " + header[k][1]
  {
    if |header[k]| == 2 {
      assert header[k][1..] == [header[k][1]];
      assert Join(header[k][1..], ", ") == header[k][1];
    }
  }

  /** What an exchange turns into: an error with its prefix, or the status, flattened headers, body and time. */
  function Interpret(ex: Exchange): (r: Response)
    ensures ex.TransportFailed? ==> r == Failure("request failed: " + ex.reason)
    ensures ex.BodyUnreadable? ==> r == Failure("failed to read response body: " + ex.reason)
    ensures ex.Received? ==>
      && r.error == None && r.statusCode == ex.status && r.body == ex.body
      && r.headers == Flatten(ex.header) && r.headers.Keys == ex.header.Keys && r.responseTime == ex.elapsed
  {
    match ex
    case TransportFailed(reason) => Failure("request failed: " + reason)
    case BodyUnreadable(reason) => Failure("failed to read response body: " + reason)
    case Received(status, header, body, elapsed) => Response(status, Flatten(header), body, elapsed, None)
  }

  /** The request as sent: same method and URL, the body rule, and the assembled headers. */
  ghost predicate Prepared(req: Request, w: WireRequest) {
    && w.methodName == req.methodName
    && w.url == req.url
    && w.body == BodyToSend(req)
    && AssembledFrom(DefaultHeaders(BodyToSend(req).Some?), req.headers, w.header)
  }

  /**
    SendRequest: build the request (failing with "failed to create request: "
    when the transport refuses it), set the default and then the custom
    headers, exchange it, and turn the exchange into a Response.
  */
  method SendRequest(transport: Transport, req: Request) returns (resp: Response, ghost sent: Option<WireRequest>)
    ensures transport.buildError(req.methodName, req.url).Some? ==>
      sent == None && resp == Failure("failed to create request: " + transport.buildError(req.methodName, req.url).value)
    ensures transport.buildError(req.methodName, req.url).None? ==>
      sent.Some? && Prepared(req, sent.value) && resp == Interpret(transport.roundTrip(sent.value))
    ensures resp.error.Some? ==> resp.statusCode == 0 && resp.headers == map[] && resp.body == ""
  {
    var body := BodyToSend(req);
    var refused := transport.buildError(req.methodName, req.url);
    if refused.Some? {
      return Failure("failed to create request: " + refused.value), None;
    }
    var header := SetCustomHeaders(DefaultHeaders(body.Some?), req.headers);
    var wire := WireRequest(req.methodName, req.url, header, body);
    sent := Some(wire);
    match transport.roundTrip(wire)
    case TransportFailed(reason) =>
      resp := Failure("request failed: " + reason);
    case BodyUnreadable(reason) =>
      resp := Failure("failed to read response body: " + reason);
    case Received(status, h, text, elapsed) =>
      var flat := FlattenHeaders(h);
      resp := Response(status, flat, text, elapsed, None);
  }

  /** A request with a body it may not carry goes out without one, whatever its headers say. */
  lemma GetSendsNoBody(req: Request)
    requires req.methodName == "GET" || req.methodName == "DELETE" || req.methodName == "HEAD"
    ensures BodyToSend(req) == None
    ensures DefaultHeaders(BodyToSend(req).Some?).Keys == {"User-Agent"}
  {
  }

  // ---------------------------------------------------------------------
  // URL validation

  /** ValidateURL: an error for an empty URL and for one without an http:// or https:// prefix. */
  function ValidateUrl(url: string): (err: Option<string>)
    ensures url == "" ==> err == Some("URL cannot be empty")
    ensures url != "" && !HasPrefix(url, "http://") && !HasPrefix(url, "https://") ==>
      err == Some("URL must start with http:// or https://")
  {
    if url == "" then Some("URL cannot be empty")
    else if !HasPrefix(url, "http://") && !HasPrefix(url, "https://") then Some("URL must start with http:// or https://")
    else None
  }

  /** A URL is accepted exactly when it starts with one of the two schemes. */
  lemma ValidUrlIffScheme(url: string)
    ensures ValidateUrl(url) == None <==> HasPrefix(url, "http://") || HasPrefix(url, "https://")
  {
  }
}
