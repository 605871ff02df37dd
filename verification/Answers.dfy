/** What a real server answers to the requests of each method, from the printed request to the printed response:
    status, header lines and body as they are spelled on the wire. */
module Answers {
  import opened Options
  import opened Text
  import opened Conversions
  import opened HttpWriter
  import opened HttpReader
  import opened Routing
  import Refusals

  /** A response as it is spelled; its body counts up to the first NUL. */
  function Spelled(status: string, ip: string, port: string, lines: string, body: string): string {
    ("HTTP/1.1 " + status + " \r\n") +
    ("Target-IP: " + ip + "\r\n" + "Target-Port: " + port + "\r\n") +
    (lines + "\r\n") +
    CStr(if body == "" then "" else body + "\r\n")
  }

  function Empty(r: Request, status: string): Reply {
    Sent(Spelled(status, r.sourceIp, r.sourcePort, "Content-Length: 0\r\n", ""))
  }

  function WithText(r: Request, status: string, more: string, length: nat, body: string): Reply {
    Sent(Spelled(status, r.sourceIp, r.sourcePort,
                 more + "Content-Type: text/plain\r\n" + "Content-Length: " + ConvertToString(length) + "\r\n", body))
  }

  function Allowing(r: Request, methods: string): Reply {
    Sent(Spelled("200 OK", r.sourceIp, r.sourcePort, "Content-Length: 0\r\n" + ("Allow: " + methods + "\r\n"), ""))
  }

  /** A request that is printed into its buffer, with words that can be told apart. */
  ghost predicate Printed(r: Request) {
    && r.WellFormed() && '\0' !in r.Text() && |r.Text()| < HTTP_MSG_SIZE
    && ' ' !in r.name && ' ' !in r.url && ' ' !in r.version
  }

  const METHODS := {"GET", "HEAD", "PUT", "POST", "TRACE", "OPTIONS", "DELETE", "SERVERCHECK"}

  /** The header lines that a method understands. */
  predicate Understands(name: string, header: string) {
    || header in {"Host", "Source-IP", "Source-Port"}
    || (header == "Accept" && name in {"GET", "HEAD", "TRACE", "OPTIONS"})
    || (header in {"Content-Type", "Content-Length"} && name in {"PUT", "POST"})
  }

  ghost predicate AllUnderstood(r: Request) {
    forall l :: l in r.third ==> Understands(r.name, l.name)
  }

  function Served(r: Request, maxLoad: string, file: FileResult): Reply
    requires |r.Text()| < HTTP_MSG_SIZE
  {
    ReplyTo(CStr(Pack(r.Text())), maxLoad, file)
  }

  // ------------------------------------------------------------------ spelling

  lemma CStrWhole(s: string)
    requires '\0' !in s
    ensures CStr(s) == s
  {
    CStrUnique(s, s);
  }

  lemma DraftSpelled(d: Draft, ip: string, port: string, lines: string)
    requires '\0' !in d.status && '\0' !in ip && '\0' !in port && '\0' !in lines
    requires HeaderText(d.lines) == lines
    ensures ResponseText(d, ip, port) == Spelled(d.status, ip, port, lines, d.body)
  {
    ResponseStarts(d, ip, port);
    CStrWhole(lines + CRLF);
    StatusSpelled(d.status);
    TargetsSpelled(ip, port);
    Reassociate4(StatusLine(d.status) + CRLF, TargetText(ip, port), lines + CRLF,
                 CStr(if d.body == "" then "" else d.body + CRLF));
  }

  lemma Reassociate4(a: string, b: string, c: string, d: string)
    ensures a + (b + (c + d)) == a + b + c + d
  {
  }

  lemma StatusSpelled(status: string)
    ensures StatusLine(status) + CRLF == "HTTP/1.1 " + status + " \r\n"
  {
    assert "HTTP/1.1" + " " == "HTTP/1.1 ";
  }

  lemma TargetsSpelled(ip: string, port: string)
    ensures TargetText(ip, port) == "Target-IP: " + ip + "\r\n" + "Target-Port: " + port + "\r\n"
  {
  }

  lemma ErrorSpelled(status: string, ip: string, port: string)
    requires '\0' !in status && '\0' !in ip && '\0' !in port
    ensures ResponseText(ErrorDraft(status), ip, port) == Spelled(status, ip, port, "Content-Length: 0\r\n", "")
  {
    HeaderOf("Content-Length", "0");
    DraftSpelled(ErrorDraft(status), ip, port, "Content-Length: 0\r\n");
  }

  lemma TextLines(before: seq<Line>, length: nat)
    ensures HeaderText(before + [Line("Content-Type", "text/plain"), Line("Content-Length", ConvertToString(length))])
         == HeaderText(before) + "Content-Type: text/plain\r\n" + "Content-Length: " + ConvertToString(length) + "\r\n"
  {
    var n := ConvertToString(length);
    HeaderConcat(before, [Line("Content-Type", "text/plain"), Line("Content-Length", n)]);
    TwoLineHeader("Content-Type", "text/plain", "Content-Length", n);
  }

  lemma TextSpelled(status: string, before: seq<Line>, more: string, length: nat, body: string,
                    ip: string, port: string)
    requires '\0' !in status && '\0' !in ip && '\0' !in port && '\0' !in more && HeaderText(before) == more
    ensures ResponseText(TextDraft(status, before, length, body), ip, port)
         == Spelled(status, ip, port,
                    more + "Content-Type: text/plain\r\n" + "Content-Length: " + ConvertToString(length) + "\r\n", body)
  {
    var lines := more + "Content-Type: text/plain\r\n" + "Content-Length: " + ConvertToString(length) + "\r\n";
    TextLines(before, length);
    TextLinesClean(more, length);
    DraftSpelled(TextDraft(status, before, length, body), ip, port, lines);
  }

  lemma TextLinesClean(more: string, length: nat)
    requires '\0' !in more
    ensures '\0' !in more + "Content-Type: text/plain\r\n" + "Content-Length: " + ConvertToString(length) + "\r\n"
  {
    DigitsAreClean(length);
  }

  /** A request as it is spelled. */
  lemma RequestIsSpelled(r: Request)
    ensures r.Text() ==
              (r.name + " " + r.url + " " + r.version + " " + "\r\n") +
              ("Host: " + r.hostname + "\r\n") + HeaderText(r.third) +
              ("Source-IP: " + r.sourceIp + "\r\n" + "Source-Port: " + r.sourcePort + "\r\n") + "\r\n" +
              if r.body == "" then "" else r.body + "\r\n"
  {
    ThreeWords(r.name, r.url, r.version);
    HostSpelled(r.hostname);
    SourcesSpelled(r.sourceIp, r.sourcePort);
    HeaderConcat([Line("Host", r.hostname)], r.third);
    HeaderConcat([Line("Host", r.hostname)] + r.third, SourceLines(r.sourceIp, r.sourcePort));
    assert r.Lines() == [Line("Host", r.hostname)] + r.third + SourceLines(r.sourceIp, r.sourcePort);
    FourParts(r.StartLine() + CRLF, "Host: " + r.hostname + "\r\n" + HeaderText(r.third),
              "Source-IP: " + r.sourceIp + "\r\n" + "Source-Port: " + r.sourcePort + "\r\n",
              if r.body == "" then "" else r.body + CRLF);
    Reassociate(r.StartLine() + CRLF, "Host: " + r.hostname + "\r\n", HeaderText(r.third));
  }

  lemma FourParts(a: string, b: string, c: string, d: string)
    ensures a + (b + c + CRLF) + d == a + b + c + "\r\n" + d
  {
  }

  lemma HostSpelled(host: string)
    ensures HeaderText([Line("Host", host)]) == "Host: " + host + "\r\n"
  {
    HeaderOf("Host", host);
    assert "Host" + ": " == "Host: ";
  }

  lemma SourcesSpelled(ip: string, port: string)
    ensures HeaderText(SourceLines(ip, port)) == "Source-IP: " + ip + "\r\n" + "Source-Port: " + port + "\r\n"
  {
    TwoLineHeader("Source-IP", ip, "Source-Port", port);
    assert SourceLines(ip, port) == [Line("Source-IP", ip), Line("Source-Port", port)];
    assert "Source-IP" + ": " == "Source-IP: " && "Source-Port" + ": " == "Source-Port: ";
    Reassociate("Source-IP: " + ip + "\r\n", "Source-Port: " + port, "\r\n");
    Reassociate("Source-IP: " + ip + "\r\n", "Source-Port: ", port);
  }

  // ------------------------------------------------------------------ from the request to the draft

  lemma WordsOf(r: Request)
    requires ' ' !in r.name && ' ' !in r.url && ' ' !in r.version
    ensures Words(r.StartLine()) == [r.name, r.url, r.version]
  {
    NoBlankIsFree(r.name);
    NoBlankIsFree(r.url);
    NoBlankIsFree(r.version);
    WordsOfJoin([r.name, r.url, r.version]);
  }

  function DemandIn(r: Request, maxLoad: string): Demand {
    DemandOf([r.name, r.url, r.version], Texts(r.Lines()), r.BodyRead(), r.Text(), maxLoad)
  }

  /** One unknown header anywhere makes the whole request a bad one. */
  lemma {:induction false} UnknownIsBad(lines: seq<Line>, after: seq<Line>, f: Fields, m: Method)
    requires AllOk(lines) && AllOk(after)
    requires f.errorCode == HEAD400 || exists l :: l in lines && !Known(m, l.name)
    ensures var g := HandleAll(Texts(lines + after), f, m); g.Some? ==> g.value.errorCode == HEAD400
    decreases |lines| + |after|
  {
    if lines + after == [] {
      assert HandleAll(Texts(lines + after), f, m) == Some(f);
    } else if lines == [] {
      BadStaysBad(after, f, m);
      assert lines + after == after;
    } else {
      var l, rest := lines[0], lines[1..];
      assert l in lines && LineOk(l);
      assert lines + after == [l] + (rest + after);
      HandlesLine(l, rest + after, f, m);
      UnknownIsBad(rest, after, Dispatch(f.(name := l.name, content := l.value), m), m);
    }
  }

  lemma DispatchKeepsBad(f: Fields, m: Method)
    requires f.errorCode == HEAD400
    ensures Dispatch(f, m).errorCode == HEAD400
  {
  }

  lemma {:induction false} BadStaysBad(lines: seq<Line>, f: Fields, m: Method)
    requires AllOk(lines) && f.errorCode == HEAD400
    ensures var g := HandleAll(Texts(lines), f, m); g.Some? ==> g.value.errorCode == HEAD400
    decreases |lines|
  {
    if lines != [] {
      var l, rest := lines[0], lines[1..];
      assert l in lines && LineOk(l);
      assert lines == [l] + rest;
      HandlesLine(l, rest, f, m);
      DispatchKeepsBad(f.(name := l.name, content := l.value), m);
      BadStaysBad(rest, Dispatch(f.(name := l.name, content := l.value), m), m);
    }
  }

  lemma SourceLinesOk(r: Request)
    requires r.WellFormed()
    ensures AllOk(SourceLines(r.sourceIp, r.sourcePort))
  {
    FixedNamesOk();
  }

  /** What the header lines of a request come to. */
  lemma HeadersOf(r: Request, m: Method) returns (f: Fields)
    requires r.WellFormed()
    ensures HandleAll(Texts(r.Lines()), BLANK, m) == Some(f)
    ensures f.targetIp == r.sourceIp && f.targetPort == r.sourcePort
    ensures (forall l :: l in r.third ==> Known(m, l.name)) ==> f.errorCode == ""
    ensures (exists l :: l in r.third && !Known(m, l.name)) ==> f.errorCode == "400 Bad Request"
  {
    var before := [Line("Host", r.hostname)] + r.third;
    assert r.Lines() == before + SourceLines(r.sourceIp, r.sourcePort);
    BeforeOk(r, before);
    SourceBecomesTarget(before, r.sourceIp, r.sourcePort, BLANK, m);
    f := HandleAll(Texts(r.Lines()), BLANK, m).value;
    if exists l :: l in r.third && !Known(m, l.name) {
      var l :| l in r.third && !Known(m, l.name);
      assert l in before;
      SourceLinesOk(r);
      UnknownIsBad(before, SourceLines(r.sourceIp, r.sourcePort), BLANK, m);
    }
  }

  ghost predicate Prints(r: Request, d: Draft, reply: Reply) {
    Sent(ResponseText(d, r.sourceIp, r.sourcePort)) == reply
  }

  /** The response is the printed answer to the demand, addressed to the source of the request. */
  lemma ServedIs(r: Request, maxLoad: string, file: FileResult) returns (f: Fields)
    requires Printed(r)
    ensures '\0' !in r.sourceIp && '\0' !in r.sourcePort
    ensures var d := DemandIn(r, maxLoad);
            && Prints(r, Answer(d, f, file), Served(r, maxLoad, file))
            && ((forall l :: l in r.third ==> Known(d.m, l.name)) ==> f.errorCode == "")
            && ((exists l :: l in r.third && !Known(d.m, l.name)) ==> f.errorCode == "400 Bad Request")
  {
    SourceIsClean(r);
    ReplyIsResponse(r, maxLoad, file);
    WordsOf(r);
    var d := DemandIn(r, maxLoad);
    f := HeadersOf(r, d.m);
    RespondIs(d, f, file);
  }

  lemma RespondIs(d: Demand, f: Fields, file: FileResult)
    requires HandleAll(d.lines, BLANK, d.m) == Some(f)
    ensures Respond(d, file) == Sent(ResponseText(Answer(d, f, file), f.targetIp, f.targetPort))
  {
  }

  /** The method of that name, and which header lines its table has. */
  lemma MethodNames(name: string)
    requires name in METHODS
    ensures MethodOf(name) == Some(
              match name
              case "GET" => GET
              case "HEAD" => HEAD
              case "PUT" => PUT
              case "POST" => POST
              case "TRACE" => TRACE
              case "OPTIONS" => OPTIONS
              case "DELETE" => DELETE
              case _ => SERVERCHECK)
  {
  }

  lemma TablesAgree(name: string, header: string)
    requires name in METHODS && MethodOf(name).Some?
    ensures Known(MethodOf(name).value, header) <==> Understands(name, header)
  {
  }

  lemma NamesAgree(r: Request)
    requires r.name in METHODS && AllUnderstood(r)
    ensures MethodOf(r.name).Some? && forall l :: l in r.third ==> Known(MethodOf(r.name).value, l.name)
  {
    MethodNames(r.name);
    forall l | l in r.third
      ensures Known(MethodOf(r.name).value, l.name)
    {
      TablesAgree(r.name, l.name);
    }
  }

  /** With known header lines: the answer of the method. */
  lemma MethodServed(r: Request, maxLoad: string, file: FileResult, m: Method) returns (d: Demand, f: Fields)
    requires Printed(r) && r.version == "HTTP/1.1" && MethodOf(r.name) == Some(m)
    requires forall l :: l in r.third ==> Known(m, l.name)
    ensures '\0' !in r.sourceIp && '\0' !in r.sourcePort && f.errorCode == ""
    ensures d == Demand(m, r.url, Texts(r.Lines()), r.BodyRead(), r.Text(), maxLoad, "")
    ensures Prints(r, Answer(d, f, file), Served(r, maxLoad, file))
  {
    f := ServedIs(r, maxLoad, file);
    d := DemandIn(r, maxLoad);
  }

  lemma PrintsEmpty(r: Request, status: string)
    requires '\0' !in r.sourceIp && '\0' !in r.sourcePort && '\0' !in status
    ensures Prints(r, ErrorDraft(status), Empty(r, status))
  {
    ErrorSpelled(status, r.sourceIp, r.sourcePort);
  }

  lemma PrintsText(r: Request, status: string, length: nat, body: string)
    requires '\0' !in r.sourceIp && '\0' !in r.sourcePort && '\0' !in status
    ensures Prints(r, TextDraft(status, [], length, body), WithText(r, status, "", length, body))
  {
    TextSpelled(status, [], "", length, body, r.sourceIp, r.sourcePort);
  }

  /** What the statuses say of a file that could not be opened for reading, or for writing, or removed. */
  function NotRead(file: FileResult): string {
    match file
    case Failed(ENOENT) => "404 Not Found"
    case Failed(EACCES) => "401 Unauthorized"
    case _ => "500 Internal Server Error"
  }

  function NotWritten(file: FileResult): string {
    match file
    case Failed(EACCES) => "401 Unauthorized"
    case _ => "500 Internal Server Error"
  }

  function NotRemoved(file: FileResult): string {
    match file
    case Failed(EACCES) => "401 Unauthorized"
    case Failed(ENOENT) => "404 Not Found"
    case Failed(ENAMETOOLONG) => "414 Request URL Too Long"
    case _ => "500 Internal Server Error"
  }

  lemma NotReadIsClean(file: FileResult)
    ensures '\0' !in NotRead(file)
  {
  }

  lemma NotWrittenIsClean(file: FileResult)
    ensures '\0' !in NotWritten(file)
  {
  }

  lemma NotRemovedIsClean(file: FileResult)
    ensures '\0' !in NotRemoved(file)
  {
  }

  // ------------------------------------------------------------------ the answers, method by method

  lemma GetDraft(d: Demand, f: Fields, file: FileResult)
    requires d.m == GET && f.errorCode == ""
    ensures Answer(d, f, file) ==
              if file.Done? then TextDraft("200 OK", [], |file.text|, file.text) else ErrorDraft(NotRead(file))
  {
  }

  /** GET: the text of the file, or why it cannot be read. */
  lemma GetIsAnswered(r: Request, maxLoad: string, file: FileResult)
    requires Printed(r) && r.name == "GET" && r.version == "HTTP/1.1" && AllUnderstood(r)
    ensures Served(r, maxLoad, file) ==
              if file.Done? then WithText(r, "200 OK", "", |file.text|, file.text) else Empty(r, NotRead(file))
  {
    NamesAgree(r);
    var d, f := MethodServed(r, maxLoad, file, GET);
    GetDraft(d, f, file);
    NotReadIsClean(file);
    if file.Done? {
      PrintsText(r, "200 OK", |file.text|, file.text);
    } else {
      PrintsEmpty(r, NotRead(file));
    }
  }

  lemma HeadDraft(d: Demand, f: Fields, file: FileResult)
    requires d.m == HEAD && f.errorCode == ""
    ensures Answer(d, f, file) ==
              if file.Done? then TextDraft("200 OK", [], |file.text|, "") else ErrorDraft(NotRead(file))
  {
  }

  /** HEAD: the same without the text. */
  lemma HeadIsAnswered(r: Request, maxLoad: string, file: FileResult)
    requires Printed(r) && r.name == "HEAD" && r.version == "HTTP/1.1" && AllUnderstood(r)
    ensures Served(r, maxLoad, file) ==
              if file.Done? then WithText(r, "200 OK", "", |file.text|, "") else Empty(r, NotRead(file))
  {
    NamesAgree(r);
    var d, f := MethodServed(r, maxLoad, file, HEAD);
    HeadDraft(d, f, file);
    NotReadIsClean(file);
    if file.Done? {
      PrintsText(r, "200 OK", |file.text|, "");
    } else {
      PrintsEmpty(r, NotRead(file));
    }
  }

  lemma PutDraft(d: Demand, f: Fields, file: FileResult)
    requires d.m == PUT && f.errorCode == ""
    ensures Answer(d, f, file) ==
              if file.Done? then TextDraft("201 Created", [Line("Location", d.url)], |d.url|, d.url)
              else ErrorDraft(NotWritten(file))
  {
  }

  lemma UrlIsClean(r: Request)
    requires Printed(r)
    ensures '\0' !in r.url
  {
    ThreeWords(r.name, r.url, r.version);
    var line := r.StartLine();
    assert forall c :: c in r.url ==> c in line;
    assert forall c :: c in line ==> c in r.Text();
  }

  lemma PrintsCreated(r: Request)
    requires '\0' !in r.sourceIp && '\0' !in r.sourcePort && '\0' !in r.url
    ensures Prints(r, TextDraft("201 Created", [Line("Location", r.url)], |r.url|, r.url),
                   WithText(r, "201 Created", "Location: " + r.url + "\r\n", |r.url|, r.url))
  {
    HeaderOf("Location", r.url);
    assert "Location" + ": " == "Location: ";
    TextSpelled("201 Created", [Line("Location", r.url)], "Location: " + r.url + "\r\n", |r.url|, r.url,
                r.sourceIp, r.sourcePort);
  }

  /** PUT: where the file is now, in the header and as the body, or why it could not be written in full. */
  lemma PutIsAnswered(r: Request, maxLoad: string, file: FileResult)
    requires Printed(r) && r.name == "PUT" && r.version == "HTTP/1.1" && AllUnderstood(r)
    ensures Served(r, maxLoad, file) ==
              if file.Done? then WithText(r, "201 Created", "Location: " + r.url + "\r\n", |r.url|, r.url)
              else Empty(r, NotWritten(file))
  {
    NamesAgree(r);
    var d, f := MethodServed(r, maxLoad, file, PUT);
    PutDraft(d, f, file);
    NotWrittenIsClean(file);
    if file.Done? {
      UrlIsClean(r);
      PrintsCreated(r);
    } else {
      PrintsEmpty(r, NotWritten(file));
    }
  }

  lemma PostDraftIs(d: Demand, f: Fields, file: FileResult)
    requires d.m == POST && f.errorCode == ""
    ensures Answer(d, f, file) == TextDraft("200 OK", [], |d.body| + 13, d.body + " is in stock")
  {
  }

  /** The first line of a body is what the reader takes for the body. */
  lemma BodyReadIs(r: Request, line: string)
    requires r.WellFormed() && FirstLine(r.body, line)
    ensures r.BodyRead() == line
  {
    var s, from := r.Text(), |r.StartLine()| + |HeaderText(r.Lines())| + 4;
    RequestLinesProper(r);
    PrintedPlaces(r.StartLine(), Texts(r.Lines()), r.body);
    if r.body == "" {
      BodyPlaced(s, from, "");
    } else {
      var rest := (r.body + CRLF)[|line| + 2..];
      assert r.body + CRLF == (line + CRLF) + rest;
      AtConcat(s, line + CRLF, rest, from);
      FindEndOfLine(s, from, line);
      AtConcat(s, line, CRLF, from);
      AtIsSlice(s, line, from);
    }
  }

  lemma PostPrints(r: Request, maxLoad: string, file: FileResult)
    requires Printed(r) && r.name == "POST" && r.version == "HTTP/1.1" && AllUnderstood(r)
    ensures Served(r, maxLoad, file) == WithText(r, "200 OK", "", |r.BodyRead()| + 13, r.BodyRead() + " is in stock")
  {
    NamesAgree(r);
    var d, f := MethodServed(r, maxLoad, file, POST);
    PostPrinted(r, d, f, file, Served(r, maxLoad, file));
  }

  lemma PostPrinted(r: Request, d: Demand, f: Fields, file: FileResult, reply: Reply)
    requires '\0' !in r.sourceIp && '\0' !in r.sourcePort && d.m == POST && f.errorCode == ""
    requires Prints(r, Answer(d, f, file), reply)
    ensures reply == WithText(r, "200 OK", "", |d.body| + 13, d.body + " is in stock")
  {
    PostDraftIs(d, f, file);
    PrintsText(r, "200 OK", |d.body| + 13, d.body + " is in stock");
  }

  /** The text up to its first end of line. */
  ghost predicate FirstLine(text: string, line: string) {
    Free(line, CRLF) && if text == "" then line == "" else line + CRLF <= text + CRLF
  }

  /** POST: the first line of the body, which is in stock.  The length counts one character more. */
  lemma PostIsAnswered(r: Request, line: string, maxLoad: string, file: FileResult)
    requires Printed(r) && r.name == "POST" && r.version == "HTTP/1.1" && AllUnderstood(r)
    requires FirstLine(r.body, line)
    ensures Served(r, maxLoad, file) == WithText(r, "200 OK", "", |line| + 13, line + " is in stock")
  {
    PostPrints(r, maxLoad, file);
    BodyReadIs(r, line);
  }

  lemma TraceDraft(d: Demand, f: Fields, file: FileResult)
    requires d.m == TRACE && f.errorCode == ""
    ensures Answer(d, f, file) == TextDraft("200 OK", [], |d.request|, d.request)
  {
  }

  /** TRACE: the whole request. */
  lemma TraceIsAnswered(r: Request, maxLoad: string, file: FileResult)
    requires Printed(r) && r.name == "TRACE" && r.version == "HTTP/1.1" && AllUnderstood(r)
    ensures Served(r, maxLoad, file) == WithText(r, "200 OK", "", |r.Text()|, r.Text())
  {
    NamesAgree(r);
    var d, f := MethodServed(r, maxLoad, file, TRACE);
    TracePrinted(r, d, f, file, Served(r, maxLoad, file));
  }

  lemma TracePrinted(r: Request, d: Demand, f: Fields, file: FileResult, reply: Reply)
    requires '\0' !in r.sourceIp && '\0' !in r.sourcePort && d.m == TRACE && f.errorCode == ""
    requires Prints(r, Answer(d, f, file), reply)
    ensures reply == WithText(r, "200 OK", "", |d.request|, d.request)
  {
    TraceDraft(d, f, file);
    PrintsText(r, "200 OK", |d.request|, d.request);
  }

  lemma AllowLines(methods: string)
    ensures HeaderText([Line("Content-Length", "0"), Line("Allow", methods)])
         == "Content-Length: 0\r\n" + ("Allow: " + methods + "\r\n")
  {
    TwoLineHeader("Content-Length", "0", "Allow", methods);
    assert "Content-Length" + ": " + "0" + CRLF == "Content-Length: 0\r\n";
    assert "Allow" + ": " == "Allow: ";
  }

  lemma OptionsDraftIs(d: Demand, f: Fields, file: FileResult)
    requires d.m == OPTIONS && f.errorCode == ""
    ensures Answer(d, f, file)
         == Draft("200 OK", [Line("Content-Length", "0"), Line("Allow", ALL_METHODS)], "")
  {
  }

  const ALL_METHODS := "GET, HEAD, PUT, POST, TRACE, OPTIONS, DELETE"

  lemma AllMethodsClean()
    ensures '\0' !in ALL_METHODS
  {
  }

  lemma PrintsOptions(r: Request, methods: string)
    requires '\0' !in r.sourceIp && '\0' !in r.sourcePort && '\0' !in methods
    ensures Prints(r, Draft("200 OK", [Line("Content-Length", "0"), Line("Allow", methods)], ""),
                   Allowing(r, methods))
  {
    AllowLines(methods);
    DraftSpelled(Draft("200 OK", [Line("Content-Length", "0"), Line("Allow", methods)], ""), r.sourceIp, r.sourcePort,
                 "Content-Length: 0\r\n" + ("Allow: " + methods + "\r\n"));
  }

  /** OPTIONS: the methods, but for SERVERCHECK. */
  lemma OptionsIsAnswered(r: Request, maxLoad: string, file: FileResult)
    requires Printed(r) && r.name == "OPTIONS" && r.version == "HTTP/1.1" && AllUnderstood(r)
    ensures Served(r, maxLoad, file) ==
              Allowing(r, "GET, HEAD, PUT, POST, TRACE, OPTIONS, DELETE")
  {
    NamesAgree(r);
    var d, f := MethodServed(r, maxLoad, file, OPTIONS);
    OptionsDraftIs(d, f, file);
    AllMethodsClean();
    PrintsOptions(r, ALL_METHODS);
  }

  lemma DeleteDraft(d: Demand, f: Fields, file: FileResult)
    requires d.m == DELETE && f.errorCode == ""
    ensures Answer(d, f, file) ==
              if file.Done? then TextDraft("200 OK", [], 17, "File is deleted.") else ErrorDraft(NotRemoved(file))
  {
  }

  /** DELETE: that the file is gone, or why it is not. */
  lemma DeleteIsAnswered(r: Request, maxLoad: string, file: FileResult)
    requires Printed(r) && r.name == "DELETE" && r.version == "HTTP/1.1" && AllUnderstood(r)
    ensures Served(r, maxLoad, file) ==
              if file.Done? then WithText(r, "200 OK", "", 17, "File is deleted.") else Empty(r, NotRemoved(file))
  {
    NamesAgree(r);
    var d, f := MethodServed(r, maxLoad, file, DELETE);
    DeleteDraft(d, f, file);
    NotRemovedIsClean(file);
    if file.Done? {
      PrintsText(r, "200 OK", 17, "File is deleted.");
    } else {
      PrintsEmpty(r, NotRemoved(file));
    }
  }

  lemma CheckDraft(d: Demand, f: Fields, file: FileResult)
    requires d.m == SERVERCHECK && f.errorCode == ""
    ensures Answer(d, f, file) == Draft("200 OK", [], d.maxLoad) && HeaderText([]) == ""
  {
  }

  /** SERVERCHECK: the limit of the server. */
  lemma CheckIsAnswered(r: Request, maxLoad: string, file: FileResult)
    requires Printed(r) && r.name == "SERVERCHECK" && r.version == "HTTP/1.1" && AllUnderstood(r)
    ensures Served(r, maxLoad, file) == Sent(Spelled("200 OK", r.sourceIp, r.sourcePort, "", maxLoad))
  {
    NamesAgree(r);
    var d, f := MethodServed(r, maxLoad, file, SERVERCHECK);
    CheckDraft(d, f, file);
    DraftSpelled(Answer(d, f, file), r.sourceIp, r.sourcePort, "");
  }

  // ------------------------------------------------------------------ bad requests

  /** A header line that the method does not understand: nothing is done, whatever the others say. */
  lemma UnknownHeaderIsBad(r: Request, l: Line, maxLoad: string, file: FileResult)
    requires Printed(r) && r.name in METHODS && r.version == "HTTP/1.1"
    requires l in r.third && !Understands(r.name, l.name)
    ensures Served(r, maxLoad, file) == Empty(r, "400 Bad Request")
  {
    BadHeader(r, l, maxLoad);
    BadServed(r, l, maxLoad, file);
  }

  lemma BadServed(r: Request, l: Line, maxLoad: string, file: FileResult)
    requires Printed(r) && l in r.third
    requires DemandIn(r, maxLoad).m != ERROR && !Known(DemandIn(r, maxLoad).m, l.name)
    ensures Served(r, maxLoad, file) == Empty(r, "400 Bad Request")
  {
    var d, f := BadDemand(r, l, maxLoad, file);
    BadIsClean(f.errorCode);
    CodeServed(r, d, f, maxLoad, file);
  }

  lemma BadIsClean(code: string)
    requires code == "400 Bad Request"
    ensures code != "" && '\0' !in code
  {
  }

  lemma CodeServed(r: Request, d: Demand, f: Fields, maxLoad: string, file: FileResult)
    requires |r.Text()| < HTTP_MSG_SIZE && '\0' !in r.sourceIp && '\0' !in r.sourcePort
    requires d.m != ERROR && f.errorCode != "" && '\0' !in f.errorCode
    requires Prints(r, Answer(d, f, file), Served(r, maxLoad, file))
    ensures Served(r, maxLoad, file) == Empty(r, f.errorCode)
  {
    BadDraft(d, f, file);
    PrintsEmpty(r, f.errorCode);
  }

  lemma BadDemand(r: Request, l: Line, maxLoad: string, file: FileResult) returns (d: Demand, f: Fields)
    requires Printed(r) && l in r.third
    requires DemandIn(r, maxLoad).m != ERROR && !Known(DemandIn(r, maxLoad).m, l.name)
    ensures '\0' !in r.sourceIp && '\0' !in r.sourcePort
    ensures d.m != ERROR && f.errorCode == "400 Bad Request"
    ensures Prints(r, Answer(d, f, file), Served(r, maxLoad, file))
  {
    f := ServedIs(r, maxLoad, file);
    d := DemandIn(r, maxLoad);
  }

  lemma BadHeader(r: Request, l: Line, maxLoad: string)
    requires r.name in METHODS && r.version == "HTTP/1.1" && !Understands(r.name, l.name)
    ensures DemandIn(r, maxLoad).m != ERROR && !Known(DemandIn(r, maxLoad).m, l.name)
  {
    MethodNames(r.name);
    TablesAgree(r.name, l.name);
  }

  lemma BadDraft(d: Demand, f: Fields, file: FileResult)
    requires d.m != ERROR && f.errorCode != ""
    ensures Answer(d, f, file) == ErrorDraft(f.errorCode)
  {
  }

  lemma ErrorServed(r: Request, maxLoad: string, file: FileResult, status: string)
    requires Printed(r) && DemandIn(r, maxLoad).m == ERROR && DemandIn(r, maxLoad).error == status
    requires '\0' !in status
    ensures Served(r, maxLoad, file) == Empty(r, status)
  {
    var f := ServedIs(r, maxLoad, file);
    ErrorDraftIs(DemandIn(r, maxLoad), f, file);
    PrintsEmpty(r, status);
  }

  lemma ErrorDraftIs(d: Demand, f: Fields, file: FileResult)
    requires d.m == ERROR
    ensures Answer(d, f, file) == ErrorDraft(d.error)
  {
  }

  /** Any other version is not supported, whatever the method and the header lines are. */
  lemma WrongVersionIsNotSupported(r: Request, maxLoad: string, file: FileResult)
    requires Printed(r) && r.version != "HTTP/1.1"
    ensures Served(r, maxLoad, file) == Empty(r, "505 HTTP Version Not Supported")
  {
    assert DemandIn(r, maxLoad).error == "505 HTTP Version Not Supported";
    ErrorServed(r, maxLoad, file, "505 HTTP Version Not Supported");
  }

  lemma UnknownMethod(r: Request, maxLoad: string)
    requires r.version == "HTTP/1.1" && r.name !in METHODS
    ensures DemandIn(r, maxLoad).m == ERROR
    ensures DemandIn(r, maxLoad).error == if r.name == "ERROR" then "" else "405 Method Not Allowed"
  {
  }

  /** Any other method is not allowed, whatever the header lines are; the reader's own name for an error
      passes for a method and gets an empty status. */
  lemma UnknownMethodIsNotAllowed(r: Request, maxLoad: string, file: FileResult)
    requires Printed(r) && r.version == "HTTP/1.1" && r.name !in METHODS
    ensures Served(r, maxLoad, file) == Empty(r, if r.name == "ERROR" then "" else "405 Method Not Allowed")
  {
    UnknownMethod(r, maxLoad);
    ErrorServed(r, maxLoad, file, if r.name == "ERROR" then "" else "405 Method Not Allowed");
  }

  // ------------------------------------------------------------------ no child left

  lemma ExtractIsClean(text: string, target: string)
    requires '\0' !in text
    ensures '\0' !in Extract(text, target, "")
  {
  }

  /** What the server sends itself when it has no child left, as it is spelled. */
  lemma RefusalIsSpelled(request: string)
    requires '\0' !in request
    ensures var ip, port := Extract(request, "Source-IP: ", ""), Extract(request, "Source-Port: ", "");
            Refusals.Refusal(request) == Spelled("503 Service Unavailable", ip, port, "Content-Length: 0\r\n", "")
  {
    ExtractIsClean(request, "Source-IP: ");
    ExtractIsClean(request, "Source-Port: ");
    ErrorSpelled("503 Service Unavailable", Extract(request, "Source-IP: ", ""), Extract(request, "Source-Port: ", ""));
  }
}
