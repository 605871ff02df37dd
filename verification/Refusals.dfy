/** The 503 that a real server sends itself when it has no child left for a request.  It does not parse the
    request but searches its text for the source, as the balancer searches responses. */
module Refusals {
  import opened Options
  import opened Text
  import opened HttpWriter
  import opened HttpReader
  import opened Routing

  const SOURCE_IP := "Source-IP: "
  const SOURCE_PORT := "Source-Port: "

  function Refusal(request: string): string {
    ResponseText(ErrorDraft(HEAD503), Extract(request, SOURCE_IP, ""), Extract(request, SOURCE_PORT, ""))
  }

  /** The branch of the request handler for a pool without free child that has reached its limit. */
  method Refuse(msg: HTTPMessage) returns (response: HTTPMessage)
    requires |Refusal(CStr(msg))| < HTTP_MSG_SIZE
    ensures response == Pack(Refusal(CStr(msg)))
  {
    var sourceIp := GetHeaderInfo(msg, "", SOURCE_IP);
    var sourcePort := GetHeaderInfo(msg, "", SOURCE_PORT);
    var em := new HTTPWriter.ErrorMessage("HTTP/1.1", HEAD503, sourceIp, sourcePort);
    assert TargetLines(sourceIp, sourcePort) + [Line("Content-Length", "0")]
        == [Line("Target-IP", sourceIp), Line("Target-Port", sourcePort), Line("Content-Length", "0")];
    response := em.ConstructHTTPMsg();
  }

  // ------------------------------------------------------------------ searching past what comes first

  ghost predicate EndsLine(s: string) {
    |s| >= 2 && At(s, CRLF, |s| - 2)
  }

  lemma AtInPrefix(a: string, b: string, pat: string, i: nat)
    requires i + |pat| <= |a|
    ensures At(a + b, pat, i) <==> At(a, pat, i)
  {
    AtIsSlice(a + b, pat, i);
    AtIsSlice(a, pat, i);
    assert (a + b)[i..i + |pat|] == a[i..i + |pat|];
  }

  lemma FindInPrefix(a: string, b: string, pat: string, from: nat)
    requires Find(a, pat, from).Some?
    ensures Find(a + b, pat, from) == Find(a, pat, from)
  {
    var k := Find(a, pat, from).value;
    FindIsFirst(a, pat, from);
    AtInPrefix(a, b, pat, k);
    forall i: nat | from <= i < k
      ensures !At(a + b, pat, i)
    {
      AtInPrefix(a, b, pat, i);
    }
    FindIs(a + b, pat, from, k);
  }

  /** A name without end of line does not reach across the end of a line. */
  lemma NotAcross(a: string, b: string, target: string, i: nat)
    requires EndsLine(a) && '\r' !in target && '\n' !in target
    requires i < |a| && i + |target| > |a| - 2
    ensures target != "" ==> !At(a + b, target, i)
  {
    EolIsCrlf(a, |a| - 2);
    if target != "" && i + |target| <= |a + b| {
      var k := if i < |a| - 1 then |a| - 2 - i else 0;
      assert target[k] in target;
      assert (a + b)[i + k] == a[i + k];
      Mismatch(a + b, target, i, k);
    }
  }

  lemma LookupEnds(a: string, target: string)
    requires EndsLine(a) && target != "" && '\r' !in target && '\n' !in target
    ensures Find(a, target, 0).Some? ==> Find(a, CRLF, Find(a, target, 0).value + |target|).Some?
  {
    if Find(a, target, 0).Some? {
      var k := Find(a, target, 0).value;
      FindIsFirst(a, target, 0);
      assert a + "" == a;
      if k + |target| > |a| - 2 {
        NotAcross(a, "", target, k);
        assert false;
      }
      FindIsFirst(a, CRLF, k + |target|);
    }
  }

  /** Where a line gives a value under a name, the search returns what the text before says under that name,
      if it says anything, and otherwise the value. */
  lemma ExtractPast(before: string, target: string, value: string, rest: string, content: string)
    requires EndsLine(before) && target != "" && '\r' !in target && '\n' !in target && Free(value, CRLF)
    ensures Extract(before + target + value + CRLF + rest, target, content) == Extract(before, target, value)
  {
    var after := target + value + CRLF + rest;
    assert before + target + value + CRLF + rest == before + after;
    LookupEnds(before, target);
    if Find(before, target, 0).Some? {
      FindInPrefix(before, after, target, 0);
      var index := Find(before, target, 0).value + |target|;
      FindInPrefix(before, after, CRLF, index);
      var end := Find(before, CRLF, index).value;
      assert (before + after)[index..end] == before[index..end];
    } else {
      FindIsFirst(before, target, 0);
      forall i: nat | i < |before|
        ensures !At(before + after, target, i)
      {
        if i + |target| > |before| - 2 {
          NotAcross(before, after, target, i);
        } else {
          AtInPrefix(before, after, target, i);
        }
      }
      ExtractsFirst(before, target, value, rest, content);
    }
  }

  /** The first place where the text spells the name goes on with something else than the value. */
  ghost predicate Hides(before: string, target: string, value: string) {
    exists k: nat :: SpelledFirst(before, target, k) && !At(before, value + CRLF, k + |target|)
  }

  ghost predicate SpelledFirst(s: string, target: string, k: nat) {
    At(s, target, k) && forall i: nat :: i < k ==> !At(s, target, i)
  }

  lemma ReadAtIff(a: string, index: nat, value: string)
    requires Free(value, CRLF) && Find(a, CRLF, index).Some?
    ensures a[index..Find(a, CRLF, index).value] == value <==> At(a, value + CRLF, index)
  {
    var end := Find(a, CRLF, index).value;
    FindIsFirst(a, CRLF, index);
    AtConcat(a, value, CRLF, index);
    AtIsSlice(a, value, index);
    if At(a, value + CRLF, index) {
      FindEndOfLine(a, index, value);
    }
  }

  lemma ExtractRightIff(before: string, target: string, value: string)
    requires EndsLine(before) && target != "" && '\r' !in target && '\n' !in target && Free(value, CRLF)
    ensures Extract(before, target, value) == value <==> !Hides(before, target, value)
  {
    FindIsFirst(before, target, 0);
    LookupEnds(before, target);
    if Find(before, target, 0).Some? {
      var k := Find(before, target, 0).value;
      assert SpelledFirst(before, target, k);
      ReadAtIff(before, k + |target|, value);
    }
  }

  // ------------------------------------------------------------------ the source of a request

  /** What a request says before its source address, and before its source port. */
  function BeforeIp(r: Request): string {
    r.StartLine() + CRLF + HeaderText([Line("Host", r.hostname)] + r.third)
  }

  function BeforePort(r: Request): string {
    BeforeIp(r) + SOURCE_IP + r.sourceIp + CRLF
  }

  lemma {:induction false} HeaderEndsLine(lines: seq<Line>)
    requires lines != []
    ensures EndsLine(HeaderText(lines))
  {
    var n := |lines| - 1;
    var l := lines[n];
    assert lines == lines[..n] + [l];
    HeaderAppend(lines[..n], l);
    EndsWithCrlf(HeaderText(lines[..n]) + (l.name + ": " + l.value));
    assert HeaderText(lines) == HeaderText(lines[..n]) + (l.name + ": " + l.value) + CRLF;
  }

  lemma EndsWithCrlf(s: string)
    ensures EndsLine(s + CRLF)
  {
    assert s + CRLF + "" == s + CRLF;
    Placed(s, CRLF, "");
  }

  lemma ConcatEndsLine(a: string, b: string)
    requires EndsLine(b)
    ensures EndsLine(a + b)
  {
    AtIsSlice(b, CRLF, |b| - 2);
    AtIsSlice(a + b, CRLF, |a + b| - 2);
    assert (a + b)[|a + b| - 2..|a + b|] == b[|b| - 2..|b|];
  }

  lemma BeforeEndLines(r: Request)
    ensures EndsLine(BeforeIp(r)) && EndsLine(BeforePort(r))
  {
    HeaderEndsLine([Line("Host", r.hostname)] + r.third);
    ConcatEndsLine(r.StartLine() + CRLF, HeaderText([Line("Host", r.hostname)] + r.third));
    EndsWithCrlf(BeforeIp(r) + SOURCE_IP + r.sourceIp);
  }

  /** The text of a request, taken apart at its source lines. */
  lemma RequestSpelling(r: Request) returns (rest: string)
    ensures r.Text() == BeforePort(r) + SOURCE_PORT + r.sourcePort + CRLF + rest
  {
    var before := [Line("Host", r.hostname)] + r.third;
    var ip, port := Line("Source-IP", r.sourceIp), Line("Source-Port", r.sourcePort);
    assert r.Lines() == before + [ip] + [port];
    HeaderAppend(before, ip);
    HeaderAppend(before + [ip], port);
    rest := CRLF + if r.body == "" then "" else r.body + CRLF;
    LinesSpelling(r.StartLine() + CRLF, HeaderText(before), r.sourceIp, r.sourcePort, rest);
  }

  lemma LinesSpelling(start: string, header: string, ip: string, port: string, rest: string)
    ensures start + (header + ("Source-IP" + ": " + ip + CRLF) + ("Source-Port" + ": " + port + CRLF)) + rest
         == start + header + SOURCE_IP + ip + CRLF + SOURCE_PORT + port + CRLF + rest
  {
    assert "Source-IP" + ": " == SOURCE_IP && "Source-Port" + ": " == SOURCE_PORT;
  }

  lemma SourceNames()
    ensures '\r' !in SOURCE_IP && '\n' !in SOURCE_IP && '\r' !in SOURCE_PORT && '\n' !in SOURCE_PORT
  {
  }

  /** What the server finds in a request. */
  function IpFound(r: Request): string {
    Extract(BeforeIp(r), SOURCE_IP, r.sourceIp)
  }

  function PortFound(r: Request): string {
    Extract(BeforePort(r), SOURCE_PORT, r.sourcePort)
  }

  lemma ServerFindsPort(r: Request)
    requires Free(r.sourcePort, CRLF)
    ensures Extract(r.Text(), SOURCE_PORT, "") == PortFound(r)
  {
    var rest := RequestSpelling(r);
    SourceNames();
    BeforeEndLines(r);
    ExtractPast(BeforePort(r), SOURCE_PORT, r.sourcePort, rest, "");
  }

  lemma ServerFindsIp(r: Request)
    requires Free(r.sourceIp, CRLF)
    ensures Extract(r.Text(), SOURCE_IP, "") == IpFound(r)
  {
    var rest := RequestSpelling(r);
    var later := SOURCE_PORT + r.sourcePort + CRLF + rest;
    MoreSpelling(BeforeIp(r) + SOURCE_IP + r.sourceIp + CRLF, SOURCE_PORT, r.sourcePort, rest);
    SourceNames();
    BeforeEndLines(r);
    ExtractPast(BeforeIp(r), SOURCE_IP, r.sourceIp, later, "");
  }

  lemma MoreSpelling(before: string, name: string, value: string, rest: string)
    ensures before + name + value + CRLF + rest == before + (name + value + CRLF + rest)
  {
  }

  /** What is extracted is part of one line of the text. */
  lemma ExtractedIsClean(text: string, target: string)
    requires '\0' !in text
    ensures '\0' !in Extract(text, target, "") && Free(Extract(text, target, ""), CRLF)
  {
    NoCrIsFree("");
    var found := Find(text, target, 0);
    if found.Some? && Find(text, CRLF, found.value + |target|).Some? {
      var index := found.value + |target|;
      var end := Find(text, CRLF, index).value;
      FindIsFirst(text, CRLF, index);
      forall i: nat
        ensures !At(text[index..end], CRLF, i)
      {
        EolIsCrlf(text[index..end], i);
        EolIsCrlf(text, index + i);
      }
    }
  }

  lemma RefusalIsTame()
    ensures Tame(HEAD503)
  {
  }

  /** End to end for the refusal: what the balancer reads in it, for every request. */
  lemma RefusalRoundTrip(r: Request, oldIp: string, oldPort: string)
    requires r.WellFormed() && '\0' !in r.Text() && |r.Text()| < HTTP_MSG_SIZE
    ensures var text := Refusal(CStr(Pack(r.Text())));
            |text| < HTTP_MSG_SIZE ==>
              && Extract(CStr(Pack(text)), TARGET_IP, oldIp) == IpFound(r)
              && Extract(CStr(Pack(text)), TARGET_PORT, oldPort) == PortRead(IpFound(r), PortFound(r))
  {
    PackThenRead(r.Text());
    ExtractedIsClean(r.Text(), SOURCE_IP);
    ExtractedIsClean(r.Text(), SOURCE_PORT);
    ServerFindsIp(r);
    ServerFindsPort(r);
    RefusalIsTame();
    DraftRoutes(ErrorDraft(HEAD503), IpFound(r), PortFound(r), oldIp, oldPort);
  }

  /** And exactly when that is the source of the request: unless something before it, such as the url or the
      host, spells the name of its line and goes on differently. */
  lemma RefusalReadIff(r: Request)
    requires Free(r.sourceIp, CRLF) && Free(r.sourcePort, CRLF)
    ensures IpFound(r) == r.sourceIp <==> !Hides(BeforeIp(r), SOURCE_IP, r.sourceIp)
    ensures PortFound(r) == r.sourcePort <==> !Hides(BeforePort(r), SOURCE_PORT, r.sourcePort)
  {
    SourceNames();
    BeforeEndLines(r);
    ExtractRightIff(BeforeIp(r), SOURCE_IP, r.sourceIp);
    ExtractRightIff(BeforePort(r), SOURCE_PORT, r.sourcePort);
  }
}
