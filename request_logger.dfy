/** Model of the log formatter of RequestLogger.swift: the two renderings of
    a `URLRequest` (`curlString` and `string`), the response-body renderer
    `prettyPrint`, and the per-level text that `RequestLogger.parse` hands to
    `log` for one completed task. */
module RequestLogger {
  import opened Text

  datatype Option<T> = None | Some(value: T)

  type Byte = b: int | 0 <= b < 256
  type Bytes = seq<Byte>

  /** The object `JSONSerialization.jsonObject(with:)` returns; its shape is
      of no concern to the logger, which only hands it back for printing. */
  type JsonObject

  /** The Foundation calls the logger makes. `None` stands for a `nil`
      result (`String(data:encoding:)`) or a thrown error (the two
      `JSONSerialization` calls). */
  datatype Foundation = Foundation(
    utf8String: Bytes -> Option<string>,
    jsonObject: Bytes -> Option<JsonObject>,
    prettyPrintedData: JsonObject -> Option<Bytes>)

  /** The entries of `allHTTPHeaderFields`, in the dictionary's iteration
      order (which Swift leaves unspecified). */
  type Headers = seq<(string, string)>

  /** The fields of a `URLRequest` the renderers read; the URL is held as
      its `absoluteString`. */
  datatype Request = Request(
    url: Option<string>,
    httpMethod: Option<string>,
    allHTTPHeaderFields: Option<Headers>,
    httpBody: Option<Bytes>)

  /** A task's response when it is an `HTTPURLResponse`; any other response
      fails the `as? HTTPURLResponse` cast and is modelled as no response. */
  datatype HttpResponse = HttpResponse(statusCode: int, mimeType: Option<string>)

  /** One completed task: its identifier, original request, error (as its
      `localizedDescription`), response, and the body bytes its delegate
      accumulated. */
  datatype Exchange = Exchange(
    taskIdentifier: int,
    originalRequest: Option<Request>,
    error: Option<string>,
    response: Option<HttpResponse>,
    data: Option<Bytes>)

  /** The configured level; it only selects the template `parse` uses. */
  datatype Level = Verbose | Debug | Error

  const CookieHeader := "Cookie"
  const HtmlMimeType := "text/html"
  const CurlSeparator := " \\\n\t"
  const LineSeparator := "\n"
  const DataLine := "\nData :\n"
  const HtmlSuppressed := "\nData : HTML (for print html responce enable logHTMLResponse to true)"

  // ---------------------------------------------------------------------
  // Body renderer

  /** `String(data:encoding: .utf8) ?? ""`. */
  function Utf8OrEmpty(data: Bytes, fd: Foundation): string
  {
    match fd.utf8String(data)
    case Some(s) => s
    case None => ""
  }

  /** `prettyPrint(with:)`: the pretty-printed JSON text when both
      `JSONSerialization` calls succeed; the raw UTF-8 text when either of
      them throws; the empty string otherwise. It never fails, and it never
      shows text other than a UTF-8 decoding of the body or of its
      pretty-printed form. */
  function PrettyPrint(data: Bytes, fd: Foundation): (r: string)
    ensures r == "" || fd.utf8String(data) == Some(r)
      || (fd.jsonObject(data).Some? && fd.prettyPrintedData(fd.jsonObject(data).value).Some?
          && fd.utf8String(fd.prettyPrintedData(fd.jsonObject(data).value).value) == Some(r))
  {
    match fd.jsonObject(data)
    case None => Utf8OrEmpty(data, fd)
    case Some(obj) =>
      match fd.prettyPrintedData(obj)
      case None => Utf8OrEmpty(data, fd)
      case Some(pretty) => Utf8OrEmpty(pretty, fd)
  }

  /** When the body is not JSON, or cannot be serialized back, the raw
      UTF-8 decoding of the body is shown, or nothing when it does not
      decode. */
  lemma PrettyPrintFallback(data: Bytes, fd: Foundation)
    requires fd.jsonObject(data).None? || fd.prettyPrintedData(fd.jsonObject(data).value).None?
    ensures fd.utf8String(data).Some? ==> PrettyPrint(data, fd) == fd.utf8String(data).value
    ensures fd.utf8String(data).None? ==> PrettyPrint(data, fd) == ""
  {
  }

  /** When both JSON calls succeed the pretty bytes are what is shown; if
      they do not decode as UTF-8 the result is empty, even when the raw
      body would have decoded. */
  lemma PrettyPrintParsed(data: Bytes, fd: Foundation, obj: JsonObject, pretty: Bytes)
    requires fd.jsonObject(data) == Some(obj) && fd.prettyPrintedData(obj) == Some(pretty)
    ensures fd.utf8String(pretty).Some? ==> PrettyPrint(data, fd) == fd.utf8String(pretty).value
    ensures fd.utf8String(pretty).None? ==> PrettyPrint(data, fd) == ""
  {
  }

  // ---------------------------------------------------------------------
  // Request renderers

  /** Which of the two renderings of a request is being built. */
  datatype Style = Curl | Summary

  /** The token one header contributes. */
  function HeaderToken(style: Style, key: string, value: string): string
  {
    match style
    case Curl => "-H '" + key + ": " + value + "'"
    case Summary => "HTTPHeader : " + key + ": " + value
  }

  /** The tokens of the headers in iteration order, the `Cookie` header
      skipped. */
  function HeaderTokens(style: Style, headers: Headers): seq<string>
  {
    if headers == [] then []
    else
      var (key, value) := headers[|headers| - 1];
      HeaderTokens(style, headers[..|headers| - 1])
        + (if key == CookieHeader then [] else [HeaderToken(style, key, value)])
  }

  /** The entries of an optional header dictionary; none when it is absent. */
  function HeadersOrEmpty(headers: Option<Headers>): Headers
  {
    match headers
    case None => []
    case Some(h) => h
  }

  function OptionalHeaderTokens(style: Style, headers: Option<Headers>): seq<string>
  {
    HeaderTokens(style, HeadersOrEmpty(headers))
  }

  /** The request body as text, when there is one and it decodes as UTF-8. */
  function BodyString(httpBody: Option<Bytes>, fd: Foundation): Option<string>
  {
    match httpBody
    case None => None
    case Some(data) => fd.utf8String(data)
  }

  /** Whether `curlString` adds a `-X <method>` token. */
  predicate HasMethodFlag(httpMethod: Option<string>)
  {
    httpMethod.Some? && httpMethod.value != "GET" && httpMethod.value != "HEAD"
  }

  /** The tokens before the headers: `curl <url>` (with ` --head` for
      `HEAD`) and a `-X <method>` flag, or the `URL` and `httpMethod`
      lines. */
  function LeadTokens(style: Style, url: string, httpMethod: Option<string>): seq<string>
  {
    match style
    case Curl =>
      ["curl " + url + (if httpMethod == Some("HEAD") then " --head" else "")]
      + (if HasMethodFlag(httpMethod) then ["-X " + httpMethod.value] else [])
    case Summary =>
      ["URL : " + url]
      + (match httpMethod case Some(m) => ["httpMethod : " + m] case None => [])
  }

  /** The token of a decodable request body: `-d '<body>'` or the
      `httpBody` line. */
  function BodyTokens(style: Style, body: Option<string>): seq<string>
  {
    match body
    case None => []
    case Some(b) => [match style case Curl => "-d '" + b + "'" case Summary => "httpBody: " + b]
  }

  /** The tokens `curlString` or `string` joins; none exactly when the
      request has no URL. */
  function Tokens(style: Style, req: Request, fd: Foundation): (r: seq<string>)
    ensures (r == []) <==> req.url.None?
  {
    match req.url
    case None => []
    case Some(url) =>
      LeadTokens(style, url, req.httpMethod)
      + OptionalHeaderTokens(style, req.allHTTPHeaderFields)
      + BodyTokens(style, BodyString(req.httpBody, fd))
  }

  /** `URLRequest.curlString`: a shell command that repeats the request,
      one token per continuation line. */
  method CurlString(req: Request, fd: Foundation) returns (s: string)
    ensures s == Join(Tokens(Curl, req, fd), CurlSeparator)
  {
    if req.url.None? {
      return "";
    }
    var baseCommand := "curl " + req.url.value;
    if req.httpMethod == Some("HEAD") {
      baseCommand := baseCommand + " --head";
    }
    assert baseCommand == "curl " + req.url.value + (if req.httpMethod == Some("HEAD") then " --head" else "");
    var command := [baseCommand];
    if req.httpMethod.Some? && req.httpMethod.value != "GET" && req.httpMethod.value != "HEAD" {
      command := command + ["-X " + req.httpMethod.value];
    }
    if req.allHTTPHeaderFields.Some? {
      var headers := req.allHTTPHeaderFields.value;
      ghost var before := command;
      for i := 0 to |headers|
        invariant command == before + HeaderTokens(Curl, headers[..i])
      {
        var (key, value) := headers[i];
        assert headers[..i + 1][..i] == headers[..i];
        if key != CookieHeader {
          command := command + ["-H '" + key + ": " + value + "'"];
        }
      }
      assert headers[..|headers|] == headers;
    }
    if req.httpBody.Some? && fd.utf8String(req.httpBody.value).Some? {
      command := command + ["-d '" + fd.utf8String(req.httpBody.value).value + "'"];
    }
    assert command == Tokens(Curl, req, fd);
    s := Join(command, CurlSeparator);
  }

  /** `URLRequest.string`: the request as one `name : value` line per
      field. */
  method SummaryString(req: Request, fd: Foundation) returns (s: string)
    ensures s == Join(Tokens(Summary, req, fd), LineSeparator)
  {
    if req.url.None? {
      return "";
    }
    var command: seq<string> := [];
    command := command + ["URL : " + req.url.value];
    if req.httpMethod.Some? {
      command := command + ["httpMethod : " + req.httpMethod.value];
    }
    if req.allHTTPHeaderFields.Some? {
      var headers := req.allHTTPHeaderFields.value;
      ghost var before := command;
      for i := 0 to |headers|
        invariant command == before + HeaderTokens(Summary, headers[..i])
      {
        var (key, value) := headers[i];
        assert headers[..i + 1][..i] == headers[..i];
        if key != CookieHeader {
          command := command + ["HTTPHeader : " + key + ": " + value];
        }
      }
      assert headers[..|headers|] == headers;
    }
    if req.httpBody.Some? && fd.utf8String(req.httpBody.value).Some? {
      command := command + ["httpBody: " + fd.utf8String(req.httpBody.value).value];
    }
    assert command == Tokens(Summary, req, fd);
    s := Join(command, LineSeparator);
  }

  // ---------------------------------------------------------------------
  // Properties of the request renderers

  predicate HasKey(headers: Headers, key: string)
  {
    exists i :: 0 <= i < |headers| && headers[i].0 == key
  }

  /** A dictionary never holds the same key twice. */
  predicate KeysDistinct(headers: Headers)
  {
    forall i, j :: 0 <= i < j < |headers| ==> headers[i].0 != headers[j].0
  }

  /** The headers with every `Cookie` entry taken out. */
  function WithoutCookie(headers: Headers): (r: Headers)
    ensures forall e :: e in r <==> e in headers && e.0 != CookieHeader
  {
    if headers == [] then []
    else
      var init := WithoutCookie(headers[..|headers| - 1]);
      var last := headers[|headers| - 1];
      assert forall e :: e in headers <==> e in headers[..|headers| - 1] || e == last;
      if last.0 == CookieHeader then init else init + [last]
  }

  lemma {:induction false} HeaderTokensAppend(style: Style, a: Headers, b: Headers)
    ensures HeaderTokens(style, a + b) == HeaderTokens(style, a) + HeaderTokens(style, b)
    decreases |b|
  {
    if b == [] {
      assert a + b == a;
    } else {
      var b' := b[..|b| - 1];
      assert (a + b)[..|a + b| - 1] == a + b';
      HeaderTokensAppend(style, a, b');
    }
  }

  /** Every non-`Cookie` header yields its token and every token comes from
      a non-`Cookie` header. */
  lemma {:induction false} HeaderTokensMembers(style: Style, headers: Headers)
    ensures forall t :: t in HeaderTokens(style, headers) <==>
      exists i :: 0 <= i < |headers| && headers[i].0 != CookieHeader && t == HeaderToken(style, headers[i].0, headers[i].1)
    decreases |headers|
  {
    if headers != [] {
      var init := headers[..|headers| - 1];
      HeaderTokensMembers(style, init);
      forall t | t in HeaderTokens(style, headers)
        ensures exists i :: 0 <= i < |headers| && headers[i].0 != CookieHeader && t == HeaderToken(style, headers[i].0, headers[i].1)
      {
        if t in HeaderTokens(style, init) {
          var i :| 0 <= i < |init| && init[i].0 != CookieHeader && t == HeaderToken(style, init[i].0, init[i].1);
          assert headers[i] == init[i];
        } else {
          assert headers[|headers| - 1].0 != CookieHeader;
        }
      }
      forall t | exists i :: 0 <= i < |headers| && headers[i].0 != CookieHeader && t == HeaderToken(style, headers[i].0, headers[i].1)
        ensures t in HeaderTokens(style, headers)
      {
        var i :| 0 <= i < |headers| && headers[i].0 != CookieHeader && t == HeaderToken(style, headers[i].0, headers[i].1);
        if i < |init| {
          assert init[i] == headers[i];
        }
      }
    }
  }

  /** With distinct keys, the headers yield one token each except the
      `Cookie` header, which yields none. */
  lemma {:induction false} HeaderTokensCount(style: Style, headers: Headers)
    requires KeysDistinct(headers)
    ensures |HeaderTokens(style, headers)| == |headers| - (if HasKey(headers, CookieHeader) then 1 else 0)
    decreases |headers|
  {
    if headers != [] {
      var init := headers[..|headers| - 1];
      var last := headers[|headers| - 1];
      HeaderTokensCount(style, init);
      if last.0 == CookieHeader {
        assert HasKey(headers, CookieHeader);
        forall i | 0 <= i < |init| ensures init[i].0 != CookieHeader {
          assert headers[i].0 != headers[|headers| - 1].0;
        }
      } else {
        assert HasKey(headers, CookieHeader) == HasKey(init, CookieHeader) by {
          if HasKey(headers, CookieHeader) {
            var i :| 0 <= i < |headers| && headers[i].0 == CookieHeader;
            assert init[i].0 == CookieHeader;
          }
          if HasKey(init, CookieHeader) {
            var i :| 0 <= i < |init| && init[i].0 == CookieHeader;
            assert headers[i].0 == CookieHeader;
          }
        }
      }
    }
  }

  /** The `Cookie` entries have no influence on the tokens: headers that
      agree once cookies are taken out render identically. */
  lemma {:induction false} HeaderTokensIgnoreCookie(style: Style, headers: Headers)
    ensures HeaderTokens(style, headers) == HeaderTokens(style, WithoutCookie(headers))
    decreases |headers|
  {
    if headers != [] {
      var init := headers[..|headers| - 1];
      var last := headers[|headers| - 1];
      HeaderTokensIgnoreCookie(style, init);
      if last.0 != CookieHeader {
        var w := WithoutCookie(init) + [last];
        assert w[..|w| - 1] == WithoutCookie(init);
      }
    }
  }

  /** Taking the entry at `j` out of `h` takes its one token (if any) out
      of the token list and leaves the rest in order. */
  lemma RemoveAt(style: Style, h: Headers, j: nat)
    requires j < |h|
    ensures multiset(h[..j] + h[j + 1..]) == multiset(h) - multiset{h[j]}
    ensures HeaderTokens(style, h) == HeaderTokens(style, h[..j]) + HeaderTokens(style, [h[j]]) + HeaderTokens(style, h[j + 1..])
    ensures HeaderTokens(style, h[..j] + h[j + 1..]) == HeaderTokens(style, h[..j]) + HeaderTokens(style, h[j + 1..])
  {
    var front, back := h[..j], h[j + 1..];
    assert h == front + [h[j]] + back;
    HeaderTokensAppend(style, front, back);
    HeaderTokensAppend(style, front + [h[j]], back);
    HeaderTokensAppend(style, front, [h[j]]);
  }

  /** Taking a middle part out of a list takes its elements out of the
      list's multiset. Stated once so that the permutation proof below
      stays cheap for the solver; it says nothing about the logger. */
  lemma MultisetSplit(a: seq<string>, x: seq<string>, c: seq<string>)
    ensures multiset(a + x + c) == multiset(a + c) + multiset(x)
  {
  }

  /** The tokens depend on the headers only as a multiset: any iteration
      order of the same dictionary gives the same tokens, in some order. */
  lemma {:induction false} HeaderTokensPermutation(style: Style, h1: Headers, h2: Headers)
    requires multiset(h1) == multiset(h2)
    ensures multiset(HeaderTokens(style, h1)) == multiset(HeaderTokens(style, h2))
    decreases |h1|
  {
    if h1 == [] {
      assert |h2| == |multiset(h2)| == 0;
    } else {
      var n := |h1| - 1;
      RemoveAt(style, h1, n);
      assert h1[..n] + h1[n + 1..] == h1[..n];
      assert h1[n] in multiset(h2);
      var j :| 0 <= j < |h2| && h2[j] == h1[n];
      RemoveAt(style, h2, j);
      var rest1, rest2 := h1[..n], h2[..j] + h2[j + 1..];
      HeaderTokensPermutation(style, rest1, rest2);
      var x := HeaderTokens(style, [h1[n]]);
      MultisetSplit(HeaderTokens(style, h1[..n]), x, HeaderTokens(style, h1[n + 1..]));
      MultisetSplit(HeaderTokens(style, h2[..j]), x, HeaderTokens(style, h2[j + 1..]));
    }
  }

  /** A request without a URL renders as the empty string both ways. */
  lemma NoUrlRendersEmpty(req: Request, fd: Foundation)
    requires req.url.None?
    ensures Join(Tokens(Curl, req, fd), CurlSeparator) == ""
    ensures Join(Tokens(Summary, req, fd), LineSeparator) == ""
  {
  }

  /** A bare `GET` renders as the single token `curl <url>`, with no
      continuation separator. */
  lemma CurlBareGet(req: Request, fd: Foundation)
    requires req.url.Some? && req.httpMethod == Some("GET")
    requires req.allHTTPHeaderFields.None? || req.allHTTPHeaderFields == Some([])
    requires req.httpBody.None?
    ensures Join(Tokens(Curl, req, fd), CurlSeparator) == "curl " + req.url.value
  {
  }

  /** A token `curlString` puts after its first: a header or a body flag. */
  predicate IsHeaderOrBodyFlag(token: string)
  {
    |token| >= 4 && (token[..4] == "-H '" || token[..4] == "-d '")
  }

  /** The first curl token is `curl <url>`, followed by ` --head` for
      `HEAD`; a `-X <method>` token comes right after it for any method
      other than `GET` and `HEAD`, and only then; every later token is a
      header or body flag. */
  lemma CurlTokensShape(req: Request, fd: Foundation)
    requires req.url.Some?
    ensures var t := Tokens(Curl, req, fd);
      && |t| >= 1
      && t[0] == "curl " + req.url.value + (if req.httpMethod == Some("HEAD") then " --head" else "")
      && (HasMethodFlag(req.httpMethod) ==> |t| >= 2 && t[1] == "-X " + req.httpMethod.value)
      && (forall i :: (if HasMethodFlag(req.httpMethod) then 2 else 1) <= i < |t| ==> IsHeaderOrBodyFlag(t[i]))
  {
    var t := Tokens(Curl, req, fd);
    var k := if HasMethodFlag(req.httpMethod) then 2 else 1;
    var hs := OptionalHeaderTokens(Curl, req.allHTTPHeaderFields);
    if req.allHTTPHeaderFields.Some? {
      HeaderTokensMembers(Curl, req.allHTTPHeaderFields.value);
    }
    forall i | k <= i < |t| ensures IsHeaderOrBodyFlag(t[i]) {
      if i < k + |hs| {
        assert t[i] == hs[i - k];
        assert t[i] in hs;
      }
    }
  }

  /** The token count of `curlString`: one for the command, one for a
      `-X` method, one per header except `Cookie`, one for a decodable
      body. */
  lemma CurlTokensCount(req: Request, fd: Foundation)
    requires req.url.Some?
    requires req.allHTTPHeaderFields.Some? ==> KeysDistinct(req.allHTTPHeaderFields.value)
    ensures |Tokens(Curl, req, fd)| ==
      1 + (if HasMethodFlag(req.httpMethod) then 1 else 0)
      + HeaderCount(req) - (if HasCookie(req) then 1 else 0)
      + (if BodyString(req.httpBody, fd).Some? then 1 else 0)
  {
    if req.allHTTPHeaderFields.Some? {
      HeaderTokensCount(Curl, req.allHTTPHeaderFields.value);
    }
  }

  function HeaderCount(req: Request): nat
  {
    |HeadersOrEmpty(req.allHTTPHeaderFields)|
  }

  predicate HasCookie(req: Request)
  {
    req.allHTTPHeaderFields.Some? && HasKey(req.allHTTPHeaderFields.value, CookieHeader)
  }

  /** The first line of `string` is `URL : <url>`, followed by the method
      line when there is a method, and the line count is one for the URL,
      one for a method, one per header except `Cookie` and one for a
      decodable body. */
  lemma SummaryTokensShape(req: Request, fd: Foundation)
    requires req.url.Some?
    requires req.allHTTPHeaderFields.Some? ==> KeysDistinct(req.allHTTPHeaderFields.value)
    ensures var t := Tokens(Summary, req, fd);
      && |t| == 1 + (if req.httpMethod.Some? then 1 else 0)
                  + HeaderCount(req) - (if HasCookie(req) then 1 else 0)
                  + (if BodyString(req.httpBody, fd).Some? then 1 else 0)
      && t[0] == "URL : " + req.url.value
      && (req.httpMethod.Some? ==> t[1] == "httpMethod : " + req.httpMethod.value)
  {
    if req.allHTTPHeaderFields.Some? {
      HeaderTokensCount(Summary, req.allHTTPHeaderFields.value);
    }
  }

  /** Neither rendering depends on the `Cookie` header: replacing the
      headers (or their absence) by ones that agree on everything but
      cookies leaves the token list unchanged. */
  lemma RenderersIgnoreCookie(style: Style, req: Request, fd: Foundation, other: Headers)
    requires WithoutCookie(other) == WithoutCookie(HeadersOrEmpty(req.allHTTPHeaderFields))
    ensures Tokens(style, req.(allHTTPHeaderFields := Some(other)), fd) == Tokens(style, req, fd)
  {
    HeaderTokensIgnoreCookie(style, HeadersOrEmpty(req.allHTTPHeaderFields));
    HeaderTokensIgnoreCookie(style, other);
  }

  /** Reordering the header dictionary permutes the tokens of both
      renderings and changes nothing else. */
  lemma RenderersIgnoreHeaderOrder(style: Style, req: Request, fd: Foundation, other: Headers)
    requires multiset(other) == multiset(HeadersOrEmpty(req.allHTTPHeaderFields))
    ensures multiset(Tokens(style, req.(allHTTPHeaderFields := Some(other)), fd)) == multiset(Tokens(style, req, fd))
  {
    var h := HeadersOrEmpty(req.allHTTPHeaderFields);
    HeaderTokensPermutation(style, other, h);
    if req.url.Some? {
      var lead := LeadTokens(style, req.url.value, req.httpMethod);
      var body := BodyTokens(style, BodyString(req.httpBody, fd));
      assert OptionalHeaderTokens(style, req.allHTTPHeaderFields) == HeaderTokens(style, h);
      assert Tokens(style, req, fd) == lead + HeaderTokens(style, h) + body;
      assert Tokens(style, req.(allHTTPHeaderFields := Some(other)), fd) == lead + HeaderTokens(style, other) + body;
    }
  }

  // ---------------------------------------------------------------------
  // Exchange formatter

  /** `originalRequest?.string ?? ""`. */
  function RequestText(req: Option<Request>, fd: Foundation): string
  {
    match req
    case None => ""
    case Some(r) => Join(Tokens(Summary, r, fd), LineSeparator)
  }

  /** `originalRequest?.curlString ?? ""`. */
  function RequestCurl(req: Option<Request>, fd: Foundation): string
  {
    match req
    case None => ""
    case Some(r) => Join(Tokens(Curl, r, fd), CurlSeparator)
  }

  /** The opening of every entry: the task line, the request summary and,
      at verbose level, the curl command. */
  function Heading(ex: Exchange, level: Level, fd: Foundation): string
  {
    var id := IntToString(ex.taskIdentifier);
    var text := RequestText(ex.originalRequest, fd);
    if level == Verbose then "Request " + id + " : \n" + text + "\n" + ("\n" + RequestCurl(ex.originalRequest, fd) + "\n")
    else "Request " + id + ": \n" + text + "\n"
  }

  /** `s ?? ""`. */
  function OrEmpty(s: Option<string>): string
  {
    match s
    case Some(v) => v
    case None => ""
  }

  function ErrorLine(message: string): string
  {
    "\nResponse ERROR : " + message
  }

  const ResponseLine := "\nResponse :"

  function StatusLine(r: HttpResponse): string
  {
    "\nstatusCode : " + IntToString(r.statusCode)
  }

  function MimeLine(r: HttpResponse): string
  {
    "\nmimeType : " + OrEmpty(r.mimeType)
  }

  /** The outcome block: the error message (with the status code, and at
      error level also the MIME type, when a response came with it), or the
      response's status code and MIME type. */
  function Outcome(ex: Exchange, level: Level): string
  {
    match ex.error
    case Some(e) =>
      (match ex.response
       case None => ErrorLine(e)
       case Some(r) => ErrorLine(e) + (if level == Error then StatusLine(r) + MimeLine(r) else StatusLine(r)))
    case None =>
      match ex.response
      case None => ""
      case Some(r) => ResponseLine + (StatusLine(r) + MimeLine(r))
  }

  predicate IsHtml(response: Option<HttpResponse>)
  {
    response.Some? && response.value.mimeType == Some(HtmlMimeType)
  }

  /** The body block, only at verbose level for a task without error: the
      HTML marker for an HTML response, else the rendered data if any. */
  function BodyBlock(ex: Exchange, level: Level, fd: Foundation): string
  {
    if level != Verbose || ex.error.Some? then ""
    else if IsHtml(ex.response) then HtmlSuppressed
    else match ex.data
      case None => ""
      case Some(d) => DataLine + PrettyPrint(d, fd)
  }

  /** The text `parse` logs for one task at one level, or `None` when it
      logs nothing. Whatever is logged opens with the heading of its level. */
  function Format(ex: Exchange, level: Level, fd: Foundation): (r: Option<string>)
    ensures r.Some? ==> Heading(ex, level, fd) <= r.value
  {
    if level == Error && ex.error.None? then None
    else Some(Heading(ex, level, fd) + Outcome(ex, level) + BodyBlock(ex, level, fd))
  }

  /** `RequestLogger.parse` after the payload casts: switches on the
      configured level, builds the log text with `+=` along that level's
      branch, and records each call of `log` in `logged`. */
  method Parse(ex: Exchange, level: Level, fd: Foundation) returns (logged: seq<string>)
    ensures Format(ex, level, fd).None? ==> logged == []
    ensures Format(ex, level, fd).Some? ==> logged == [Format(ex, level, fd).value]
  {
    match level
    case Verbose => logged := ParseVerbose(ex, fd);
    case Debug => logged := ParseDebug(ex, fd);
    case Error => logged := ParseError(ex, fd);
  }

  /** The `.verbose` case of `parse`. For an HTML response it logs and
      leaves the switch with `break`, so that the text is logged once. */
  method ParseVerbose(ex: Exchange, fd: Foundation) returns (logged: seq<string>)
    ensures logged == [Format(ex, Verbose, fd).value]
  {
    logged := [];
    label verbose: {
      var summary := "";
      var curl := "";
      if ex.originalRequest.Some? {
        summary := SummaryString(ex.originalRequest.value, fd);
        curl := CurlString(ex.originalRequest.value, fd);
      }
      var logString := "Request " + IntToString(ex.taskIdentifier) + " : \n" + summary + "\n";
      logString := logString + ("\n" + curl + "\n");
      ghost var heading := logString;
      assert heading == Heading(ex, Verbose, fd);
      if ex.error.Some? {
        logString := logString + ErrorLine(ex.error.value);
        if ex.response.Some? {
          logString := logString + StatusLine(ex.response.value);
          AppendAssoc(heading, ErrorLine(ex.error.value), StatusLine(ex.response.value));
        }
        AppendEmpty(logString);
      } else {
        if ex.response.Some? {
          var response := ex.response.value;
          logString := logString + ResponseLine;
          logString := logString + StatusLine(response);
          logString := logString + MimeLine(response);
          AppendAssoc(heading + ResponseLine, StatusLine(response), MimeLine(response));
          AppendAssoc(heading, ResponseLine, StatusLine(response) + MimeLine(response));
          if response.mimeType.Some? && response.mimeType.value == HtmlMimeType {
            logString := logString + HtmlSuppressed;
            logged := logged + [logString];
            break verbose;
          }
        } else {
          AppendEmpty(logString);
        }
        ghost var front := logString;
        if ex.data.Some? {
          logString := logString + DataLine;
          logString := logString + PrettyPrint(ex.data.value, fd);
          AppendAssoc(front, DataLine, PrettyPrint(ex.data.value, fd));
        } else {
          AppendEmpty(logString);
        }
      }
      logged := logged + [logString];
    }
  }

  /** The `.debug` case of `parse`. */
  method ParseDebug(ex: Exchange, fd: Foundation) returns (logged: seq<string>)
    ensures logged == [Format(ex, Debug, fd).value]
  {
    logged := [];
    var summary := "";
    if ex.originalRequest.Some? {
      summary := SummaryString(ex.originalRequest.value, fd);
    }
    var logString := "Request " + IntToString(ex.taskIdentifier) + ": \n" + summary + "\n";
    ghost var heading := logString;
    assert heading == Heading(ex, Debug, fd);
    if ex.error.Some? {
      logString := logString + ErrorLine(ex.error.value);
      if ex.response.Some? {
        logString := logString + StatusLine(ex.response.value);
        AppendAssoc(heading, ErrorLine(ex.error.value), StatusLine(ex.response.value));
      }
    } else {
      if ex.response.Some? {
        var response := ex.response.value;
        logString := logString + ResponseLine;
        logString := logString + StatusLine(response);
        logString := logString + MimeLine(response);
        AppendAssoc(heading + ResponseLine, StatusLine(response), MimeLine(response));
        AppendAssoc(heading, ResponseLine, StatusLine(response) + MimeLine(response));
      } else {
        AppendEmpty(heading);
      }
    }
    AppendEmpty(logString);
    logged := logged + [logString];
  }

  /** The `.error` case of `parse`: nothing is logged without an error. */
  method ParseError(ex: Exchange, fd: Foundation) returns (logged: seq<string>)
    ensures ex.error.None? ==> logged == []
    ensures ex.error.Some? ==> logged == [Format(ex, Error, fd).value]
  {
    logged := [];
    if ex.error.Some? {
      var summary := "";
      if ex.originalRequest.Some? {
        summary := SummaryString(ex.originalRequest.value, fd);
      }
      var logString := "Request " + IntToString(ex.taskIdentifier) + ": \n" + summary + "\n";
      ghost var heading := logString;
      assert heading == Heading(ex, Error, fd);
      logString := logString + ErrorLine(ex.error.value);
      if ex.response.Some? {
        var response := ex.response.value;
        logString := logString + StatusLine(response);
        logString := logString + MimeLine(response);
        AppendAssoc(heading + ErrorLine(ex.error.value), StatusLine(response), MimeLine(response));
        AppendAssoc(heading, ErrorLine(ex.error.value), StatusLine(response) + MimeLine(response));
      }
      AppendEmpty(logString);
      logged := logged + [logString];
    }
  }

  // ---------------------------------------------------------------------
  // Properties of the exchange formatter

  /** At error level a task is logged exactly when it has an error,
      whatever its response and data. */
  lemma ErrorLevelLogsOnlyErrors(ex: Exchange, fd: Foundation)
    ensures Format(ex, Error, fd).Some? <==> ex.error.Some?
  {
  }

  /** Verbose and debug always log, once. */
  lemma VerboseAndDebugAlwaysLog(ex: Exchange, level: Level, fd: Foundation)
    requires level != Error
    ensures Format(ex, level, fd).Some?
  {
  }

  /** The response data never reaches the log of a task with an error, at
      any level, nor any log at debug or error level: replacing the data
      changes nothing. */
  lemma DataOnlyInVerboseSuccess(ex: Exchange, level: Level, fd: Foundation, other: Option<Bytes>)
    requires ex.error.Some? || level != Verbose
    ensures Format(ex.(data := other), level, fd) == Format(ex, level, fd)
  {
  }

  /** The task line reads `Request <id> : ` at verbose level and
      `Request <id>: ` at the other two. */
  lemma HeadingByLevel(ex: Exchange, level: Level, fd: Foundation)
    requires Format(ex, level, fd).Some?
    ensures level == Verbose ==> "Request " + IntToString(ex.taskIdentifier) + " : \n" <= Format(ex, level, fd).value
    ensures level != Verbose ==> "Request " + IntToString(ex.taskIdentifier) + ": \n" <= Format(ex, level, fd).value
  {
    var p := "Request " + IntToString(ex.taskIdentifier) + (if level == Verbose then " : \n" else ": \n");
    var text := RequestText(ex.originalRequest, fd);
    PrefixAppend(p, text);
    PrefixAppend(p + text, "\n");
    var h := Heading(ex, level, fd);
    if level == Verbose {
      PrefixAppend(p + text + "\n", "\n" + RequestCurl(ex.originalRequest, fd) + "\n");
    }
    assert p <= h;
  }

  lemma PrefixAppend(a: string, b: string)
    ensures a <= a + b
  {
  }

  predicate EndsWith(s: string, suffix: string)
  {
    |suffix| <= |s| && s[|s| - |suffix|..] == suffix
  }

  /** A task with an error is logged at every level, and its text ends
      with the error block: the error line alone when no HTTP response came
      with it; otherwise the status code, followed by the MIME type at
      error level only. No data block ever follows the error. */
  lemma ErrorEnding(ex: Exchange, level: Level, fd: Foundation)
    requires ex.error.Some?
    ensures Format(ex, level, fd).Some?
    ensures ex.response.None? ==> EndsWith(Format(ex, level, fd).value, ErrorLine(ex.error.value))
    ensures ex.response.Some? && level == Error ==>
      EndsWith(Format(ex, level, fd).value, StatusLine(ex.response.value) + MimeLine(ex.response.value))
    ensures ex.response.Some? && level != Error ==>
      EndsWith(Format(ex, level, fd).value, StatusLine(ex.response.value))
  {
    var e := ex.error.value;
    var tail := match ex.response
      case None => ErrorLine(e)
      case Some(r) => if level == Error then StatusLine(r) + MimeLine(r) else StatusLine(r);
    if ex.response.None? {
      EndsWithAppend("", tail);
      assert "" + tail == Outcome(ex, level);
    } else {
      EndsWithAppend(ErrorLine(e), tail);
    }
    EndsWithExtend(Heading(ex, level, fd), Outcome(ex, level), tail);
    AppendEmpty(Heading(ex, level, fd) + Outcome(ex, level));
  }

  /** A suffix of `tail` stays a suffix when text is put in front. */
  lemma EndsWithExtend(front: string, s: string, tail: string)
    requires EndsWith(s, tail)
    ensures EndsWith(front + s, tail)
  {
    assert (front + s)[|front + s| - |tail|..] == s[|s| - |tail|..];
  }

  lemma EndsWithAppend(front: string, tail: string)
    ensures EndsWith(front + tail, tail)
  {
    assert (front + tail)[|front|..] == tail;
  }

  /** At verbose level, a successful task whose response is `text/html`
      ends with the suppression marker and its data is never rendered. */
  lemma HtmlSuppressedAtVerbose(ex: Exchange, fd: Foundation, other: Option<Bytes>)
    requires ex.error.None? && IsHtml(ex.response)
    ensures EndsWith(Format(ex, Verbose, fd).value, HtmlSuppressed)
    ensures Format(ex.(data := other), Verbose, fd) == Format(ex, Verbose, fd)
  {
  }

  /** At verbose level, a successful task with data and a response that is
      not HTML ends with the data block holding the rendered body. */
  lemma DataShownAtVerbose(ex: Exchange, fd: Foundation)
    requires ex.error.None? && !IsHtml(ex.response) && ex.data.Some?
    ensures EndsWith(Format(ex, Verbose, fd).value, "\nData :\n" + PrettyPrint(ex.data.value, fd))
  {
  }
}
