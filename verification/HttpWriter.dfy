/** The message writers: they fill a start line, a header and a body and print them into a fixed buffer. */
module HttpWriter {
  import opened Text

  const HTTP_MSG_SIZE := 4096

  /** A message on the wire is a buffer of fixed size, read up to its first NUL. */
  type HTTPMessage = m: seq<char> | |m| == HTTP_MSG_SIZE witness Zeros(HTTP_MSG_SIZE)

  function Zeros(n: nat): (r: seq<char>)
    ensures |r| == n && forall i :: 0 <= i < n ==> r[i] == '\0'
  {
    seq(n, _ => '\0')
  }

  function Pack(text: string): HTTPMessage
    requires |text| < HTTP_MSG_SIZE
  {
    text + Zeros(HTTP_MSG_SIZE - |text|)
  }

  /** A text without NUL that leaves room for the terminator survives the buffer. */
  lemma PackThenRead(text: string)
    requires |text| < HTTP_MSG_SIZE && '\0' !in text
    ensures CStr(Pack(text)) == text
  {
    CStrUnique(Pack(text), text);
  }

  /** One header line as its writer spells it. */
  datatype Line = Line(name: string, value: string)
  {
    function Text(): string {
      name + ": " + value
    }
  }

  function Texts(lines: seq<Line>): (r: seq<string>)
    ensures |r| == |lines| && forall i :: 0 <= i < |r| ==> r[i] == lines[i].Text()
  {
    seq(|lines|, i requires 0 <= i < |lines| => lines[i].Text())
  }

  function HeaderText(lines: seq<Line>): string {
    Join(Texts(lines), CRLF)
  }

  lemma HeaderAppend(lines: seq<Line>, l: Line)
    ensures HeaderText(lines + [l]) == HeaderText(lines) + (l.name + ": " + l.value + CRLF)
  {
    assert Texts(lines + [l]) == Texts(lines) + [l.Text()];
    JoinAppend(Texts(lines), l.Text(), CRLF);
    assert HeaderText(lines) + l.Text() + CRLF == HeaderText(lines) + (l.name + ": " + l.value + CRLF);
  }

  /** The printed message.  There is no end of line after an absent body. */
  function Print(startLine: string, header: string, body: string): string {
    startLine + CRLF + (header + CRLF) + if body == "" then "" else body + CRLF
  }

  /** What sprintf("%s%s%s") leaves in the buffer: each part counts up to its first NUL. */
  function PrintC(startLine: string, header: string, body: string): string {
    CStr(startLine + CRLF) + CStr(header + CRLF) + CStr(if body == "" then "" else body + CRLF)
  }

  lemma PrintCIsPrint(startLine: string, header: string, body: string)
    requires '\0' !in startLine && '\0' !in header && '\0' !in body
    ensures PrintC(startLine, header, body) == Print(startLine, header, body)
    ensures '\0' !in Print(startLine, header, body)
  {
  }

  class HTTPWriter {
    var startLine: string
    var header: string
    var body: string

    constructor ()
      ensures startLine == "" && header == "" && body == ""
    {
      startLine, header, body := "", "", "";
    }

    /** The four-argument response constructor. */
    constructor Response(version: string, statusCode: string, targetIp: string, targetPort: string)
      ensures startLine == version + " " + statusCode + " " && body == ""
      ensures header == HeaderText([Line("Target-IP", targetIp), Line("Target-Port", targetPort)])
    {
      startLine := version + " " + statusCode + " ";
      header := "Target-IP: " + targetIp + "\r\n" + "Target-Port: " + targetPort + "\r\n";
      body := "";
      new;
      TwoLineHeader("Target-IP", targetIp, "Target-Port", targetPort);
    }

    /** The error response says that no content follows. */
    constructor ErrorMessage(version: string, statusCode: string, targetIp: string, targetPort: string)
      ensures startLine == version + " " + statusCode + " " && body == ""
      ensures header == HeaderText([Line("Target-IP", targetIp), Line("Target-Port", targetPort),
                                    Line("Content-Length", "0")])
    {
      startLine := version + " " + statusCode + " ";
      header := "Target-IP: " + targetIp + "\r\n" + "Target-Port: " + targetPort + "\r\n";
      body := "";
      new;
      TwoLineHeader("Target-IP", targetIp, "Target-Port", targetPort);
      AddContentLength("0");
      HeaderAppend([Line("Target-IP", targetIp), Line("Target-Port", targetPort)], Line("Content-Length", "0"));
      assert [Line("Target-IP", targetIp), Line("Target-Port", targetPort)] + [Line("Content-Length", "0")]
          == [Line("Target-IP", targetIp), Line("Target-Port", targetPort), Line("Content-Length", "0")];
    }

    /** GET, HEAD, TRACE and OPTIONS requests. */
    constructor AcceptRequest(name: string, url: string, version: string, hostname: string, accept: string,
                              sourceIp: string, sourcePort: string)
      ensures startLine == Join([name, url, version], " ") && body == ""
      ensures header == HeaderText(RequestLines(hostname, [Line("Accept", accept)], sourceIp, sourcePort))
    {
      startLine := name + " " + url + " " + version + " ";
      header := "Host: " + hostname + "\r\n";
      body := "";
      new;
      ThreeWords(name, url, version);
      HeaderOf("Host", hostname);
      ghost var host := [Line("Host", hostname)];
      AppendLine(host, Line("Accept", accept));
      AppendSource(host + [Line("Accept", accept)], sourceIp, sourcePort);
      assert host + [Line("Accept", accept)] + [Line("Source-IP", sourceIp), Line("Source-Port", sourcePort)]
          == RequestLines(hostname, [Line("Accept", accept)], sourceIp, sourcePort);
    }

    /** PUT and POST requests. */
    constructor ContentRequest(name: string, url: string, version: string, hostname: string, contentType: string,
                               contentLength: string, sourceIp: string, sourcePort: string)
      ensures startLine == Join([name, url, version], " ") && body == ""
      ensures header == HeaderText(RequestLines(
                hostname, [Line("Content-Type", contentType), Line("Content-Length", contentLength)],
                sourceIp, sourcePort))
    {
      startLine := name + " " + url + " " + version + " ";
      header := "Host: " + hostname + "\r\n";
      body := "";
      new;
      ThreeWords(name, url, version);
      HeaderOf("Host", hostname);
      ghost var host := [Line("Host", hostname)];
      AppendLine(host, Line("Content-Type", contentType));
      ghost var typed := host + [Line("Content-Type", contentType)];
      AppendLine(typed, Line("Content-Length", contentLength));
      AppendSource(typed + [Line("Content-Length", contentLength)], sourceIp, sourcePort);
      assert typed + [Line("Content-Length", contentLength)]
                + [Line("Source-IP", sourceIp), Line("Source-Port", sourcePort)]
          == RequestLines(hostname, [Line("Content-Type", contentType), Line("Content-Length", contentLength)],
                          sourceIp, sourcePort);
    }

    /** DELETE and SERVERCHECK requests. */
    constructor BareRequest(name: string, url: string, version: string, hostname: string,
                            sourceIp: string, sourcePort: string)
      ensures startLine == Join([name, url, version], " ") && body == ""
      ensures header == HeaderText(RequestLines(hostname, [], sourceIp, sourcePort))
    {
      startLine := name + " " + url + " " + version + " ";
      header := "Host: " + hostname + "\r\n";
      body := "";
      new;
      ThreeWords(name, url, version);
      HeaderOf("Host", hostname);
      ghost var host := [Line("Host", hostname)];
      AppendSource(host, sourceIp, sourcePort);
      assert host + [Line("Source-IP", sourceIp), Line("Source-Port", sourcePort)]
          == RequestLines(hostname, [], sourceIp, sourcePort);
    }

    /** Appends one more line to a header that holds `lines`. */
    method AppendLine(ghost lines: seq<Line>, l: Line)
      requires header == HeaderText(lines)
      modifies this`header
      ensures header == HeaderText(lines + [l])
    {
      HeaderAppend(lines, l);
      AddLine(l.name, l.value);
    }

    method AppendSource(ghost lines: seq<Line>, sourceIp: string, sourcePort: string)
      requires header == HeaderText(lines)
      modifies this`header
      ensures header == HeaderText(lines + [Line("Source-IP", sourceIp), Line("Source-Port", sourcePort)])
    {
      var x, y := Line("Source-IP", sourceIp), Line("Source-Port", sourcePort);
      AppendLine(lines, x);
      AppendLine(lines + [x], y);
      assert lines + [x] + [y] == lines + [x, y];
    }

    method AddLine(name: string, value: string)
      modifies this`header
      ensures header == old(header) + (name + ": " + value + CRLF)
    {
      header := header + (name + ": " + value + "\r\n");
    }

    method AddContentLength(value: string)
      modifies this`header
      ensures header == old(header) + ("Content-Length" + ": " + value + CRLF)
    {
      AddLine("Content-Length", value);
    }

    method AddBody(text: string)
      modifies this`body
      ensures body == old(body) + text
    {
      body := body + text;
    }

    /** Prints and, as a side effect, appends the ends of line to the parts: a writer prints once. */
    method ConstructHTTPMsg() returns (msg: HTTPMessage)
      requires |PrintC(startLine, header, body)| < HTTP_MSG_SIZE
      modifies this
      ensures msg == Pack(PrintC(old(startLine), old(header), old(body)))
      ensures startLine == old(startLine) + CRLF && header == old(header) + CRLF
      ensures body == if old(body) == "" then "" else old(body) + CRLF
    {
      startLine := startLine + "\r\n";
      header := header + "\r\n";
      if |body| > 0 {
        body := body + "\r\n";
      }
      msg := Pack(CStr(startLine) + CStr(header) + CStr(body));
    }
  }

  function RequestLines(hostname: string, third: seq<Line>, sourceIp: string, sourcePort: string): seq<Line> {
    [Line("Host", hostname)] + third + [Line("Source-IP", sourceIp), Line("Source-Port", sourcePort)]
  }

  lemma HeaderOf(a: string, x: string)
    ensures HeaderText([Line(a, x)]) == a + ": " + x + CRLF
  {
    HeaderAppend([], Line(a, x));
    assert [] + [Line(a, x)] == [Line(a, x)] && HeaderText([]) == "";
  }

  lemma TwoLineHeader(a: string, x: string, b: string, y: string)
    ensures HeaderText([Line(a, x), Line(b, y)]) == a + ": " + x + CRLF + (b + ": " + y + CRLF)
  {
    HeaderOf(a, x);
    HeaderAppend([Line(a, x)], Line(b, y));
    assert [Line(a, x)] + [Line(b, y)] == [Line(a, x), Line(b, y)];
  }

  lemma ThreeWords(a: string, b: string, c: string)
    ensures Join([a, b, c], " ") == a + " " + b + " " + c + " "
  {
    assert [a, b, c][1..] == [b, c] && [b, c][1..] == [c] && [c][1..] == [];
    assert Join([c], " ") == c + " ";
    assert Join([b, c], " ") == b + " " + (c + " ");
  }
}
