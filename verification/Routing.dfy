/** From the request of a client to the routing decision of the balancer: what is printed is parsed
    back, and the source of a request comes out of its response as the target. */
module Routing {
  import opened Options
  import opened Text
  import opened Conversions
  import opened HttpWriter
  import opened HttpReader

  const TARGET_IP := "Target-IP: "
  const TARGET_PORT := "Target-Port: "

  // ------------------------------------------------------------------ extraction by the balancer

  /** The text after the first occurrence of `target`, up to the next end of line. */
  function Lookup(text: string, target: string): Option<string> {
    var found := Find(text, target, 0);
    if found.None? then None
    else
      var index := found.value + |target|;
      var end := Find(text, CRLF, index);
      if end.None? then None else Some(text[index..end.value])
  }

  /** Where it is missing, the content stays as it was. */
  function Extract(text: string, target: string, content: string): string {
    if Lookup(text, target).Some? then Lookup(text, target).value else content
  }

  /** std::string::find is a library call; the loop after it is the balancer's own. */
  method GetHeaderInfo(msg: HTTPMessage, content: string, target: string) returns (r: string)
    requires target != ""
    ensures r == Extract(CStr(msg), target, content)
  {
    var received := CStr(msg);
    r := content;
    var found := Find(received, target, 0);
    if found.Some? {
      var index := found.value + |target|;
      var i := index;
      while i < |received| - 1
        invariant index <= i && r == content && Find(received, CRLF, index) == Find(received, CRLF, i)
      {
        EolIsCrlf(received, i);
        FindStep(received, CRLF, i);
        if received[i] == '\r' && received[i + 1] == '\n' {
          r := received[index..i];
          break;
        }
        i := i + 1;
      }
    }
  }

  // ------------------------------------------------------------------ the parser undoes the printer

  lemma JoinWordsFree(words: seq<string>)
    requires AllFree(words, CRLF)
    ensures Free(Join(words, " "), CRLF)
  {
    forall i: nat
      ensures !At(Join(words, " "), CRLF, i)
    {
      WordsNoEol(words, i);
      EolIsCrlf(Join(words, " "), i);
    }
  }

  lemma {:induction false} WordsNoEol(words: seq<string>, i: nat)
    requires AllFree(words, CRLF)
    ensures !Eol(Join(words, " "), i)
  {
    if words != [] {
      var w, rest := words[0], Join(words[1..], " ");
      EolIsCrlf(w, i);
      assert Free(w, CRLF);
      if i > |w| {
        assert AllFree(words[1..], CRLF);
        WordsNoEol(words[1..], i - |w| - 1);
        assert (w + " " + rest)[|w| + 1..] == rest;
      }
    }
  }

  /** Parsing a printed message gives back its start line, words, header, header lines and body. */
  lemma ParserUndoesPrinter(words: seq<string>, lines: seq<string>, body: string)
    requires words != [] && AllFree(words, " ") && AllFree(words, CRLF)
    requires lines != [] && AllProper(lines)
    requires Free(body, CRLF)
    ensures var start, header := Join(words, " "), Join(lines, CRLF);
            && Parse(Print(start, header, body)) == Parsed(start, header, body)
            && Words(start) == words
            && HeaderLines(header) == lines
  {
    var start, header := Join(words, " "), Join(lines, CRLF);
    JoinWordsFree(words);
    WordsOfJoin(words);
    LinesOfJoin(lines);
    PrintedParses(start, lines, body);
    PrintedPlaces(start, lines, body);
    BodyPlaced(Print(start, header, body), |start| + |header| + 4, body);
  }

  /** Whatever the body is, the parser finds start line and header, and reads the body up to its first end
      of line. */
  lemma PrintedParses(start: string, lines: seq<string>, body: string)
    requires start != "" && Free(start, CRLF) && lines != [] && AllProper(lines)
    ensures var s, header := Print(start, Join(lines, CRLF), body), Join(lines, CRLF);
            Parse(s) == Parsed(start, header, BodyFrom(s, |start| + |header| + 4))
  {
    var header := Join(lines, CRLF);
    var s := Print(start, header, body);
    PrintedPlaces(start, lines, body);
    StartFound(s, start);
    HeaderFound(s, |start| + 2, header);
    ParseFound(s, |start|, |start| + |header|);
  }

  /** However many blanks the words contain, splitting at blanks gives at least as many pieces. */
  lemma {:induction false} SplitAtLeast(s: string, from: nat, words: seq<string>)
    requires At(s, Join(words, " "), from) && |s| == from + |Join(words, " ")|
    ensures |Split(s, " ", from)| >= |words|
    decreases |s| - from
  {
    if words != [] {
      var w, rest := words[0], words[1..];
      var k := from + |w|;
      AtConcat(s, w + " ", Join(rest, " "), from);
      AtConcat(s, w, " ", from);
      FindIsFirst(s, " ", from);
      var i := Find(s, " ", from).value;
      if i == k {
        SplitAtLeast(s, k + 1, rest);
      } else {
        var w' := w[i + 1 - from..];
        LaterWord(s, from, w, i + 1 - from, rest);
        SplitAtLeast(s, i + 1, [w'] + rest);
      }
    }
  }

  lemma LaterWord(s: string, from: nat, w: string, n: nat, rest: seq<string>)
    requires n <= |w| && At(s, w, from) && At(s, " ", from + |w|) && At(s, Join(rest, " "), from + |w| + 1)
    ensures At(s, Join([w[n..]] + rest, " "), from + n)
    ensures |Join([w[n..]] + rest, " ")| == |w| - n + 1 + |Join(rest, " ")|
  {
    assert w == w[..n] + w[n..];
    AtConcat(s, w[..n], w[n..], from);
    AtConcat(s, w[n..], " ", from + n);
    AtConcat(s, w[n..] + " ", Join(rest, " "), from + n);
    assert ([w[n..]] + rest)[1..] == rest;
  }

  lemma WordsOfJoin(words: seq<string>)
    requires AllFree(words, " ")
    ensures Words(Join(words, " ")) == words
  {
    Whole(Join(words, " "));
    SplitJoin(Join(words, " "), 0, words, " ");
  }

  lemma LinesOfJoin(lines: seq<string>)
    requires AllProper(lines)
    ensures HeaderLines(Join(lines, CRLF)) == lines
  {
    forall l | l in lines
      ensures Free(l, CRLF)
    {
      ProperLineIsFree(l);
    }
    Whole(Join(lines, CRLF));
    SplitJoin(Join(lines, CRLF), 0, lines, CRLF);
  }

  /** Where the printer puts the parts. */
  lemma PrintedPlaces(start: string, lines: seq<string>, body: string)
    requires lines != [] && AllProper(lines)
    ensures var s, header := Print(start, Join(lines, CRLF), body), Join(lines, CRLF);
            && At(s, start + CRLF, 0)
            && At(s, header + CRLF, |start| + 2)
            && At(s, if body == "" then "" else body + CRLF, |start| + 2 + |header| + 2)
            && |s| == |start| + 2 + |header| + 2 + (if body == "" then 0 else |body| + 2)
            && |header| >= 2 && Find(s, CRLF2, |start| + 2) == Some(|start| + |header|)
  {
    var s, header := Print(start, Join(lines, CRLF), body), Join(lines, CRLF);
    var tail := if body == "" then "" else body + CRLF;
    assert s == (start + CRLF) + ((header + CRLF) + tail);
    Whole(s);
    AtConcat(s, start + CRLF, (header + CRLF) + tail, 0);
    AtConcat(s, header + CRLF, tail, |start| + 2);
    FindEndOfHeader(s, |start| + 2, lines);
  }

  lemma StartFound(s: string, start: string)
    requires At(s, start + CRLF, 0) && Free(start, CRLF)
    ensures Find(s, CRLF, 0) == Some(|start|) && s[..|start|] == start
  {
    FindEndOfLine(s, 0, start);
    AtConcat(s, start, CRLF, 0);
    AtIsSlice(s, start, 0);
  }

  lemma HeaderFound(s: string, from: nat, header: string)
    requires At(s, header + CRLF, from)
    ensures from + |header| + 2 <= |s| && s[from..from + |header|] == header
  {
    AtConcat(s, header, CRLF, from);
    AtIsSlice(s, header, from);
  }

  lemma ParseFound(s: string, eol: nat, eoh: nat)
    requires 0 < eol && |s| >= 4 && eol + 2 <= eoh + 2 && eoh + 4 <= |s|
    requires Find(s, CRLF, 0) == Some(eol) && Find(s, CRLF2, eol + 2) == Some(eoh)
    ensures Parse(s) == Parsed(s[..eol], s[eol + 2..eoh + 2], BodyFrom(s, eoh + 4))
  {
  }

  lemma BodyPlaced(s: string, from: nat, body: string)
    requires Free(body, CRLF)
    requires At(s, if body == "" then "" else body + CRLF, from) && |s| == from + if body == "" then 0 else |body| + 2
    ensures BodyFrom(s, from) == body
  {
    if body != "" {
      FindEndOfLine(s, from, body);
      AtConcat(s, body, CRLF, from);
      AtIsSlice(s, body, from);
    }
  }

  // ------------------------------------------------------------------ header lines and their dispatch

  ghost predicate NameOk(name: string) {
    name != "" && ':' !in name && Free(name, CRLF)
  }

  ghost predicate LineOk(l: Line) {
    NameOk(l.name) && Free(l.value, CRLF)
  }

  lemma LineOkIsProper(l: Line)
    requires LineOk(l)
    ensures ProperLine(l.Text())
  {
    var t := l.Text();
    FindIsFirst(t, CRLF, 0);
    assert t[|l.name| + 2..] == l.value;
    if Find(t, CRLF, 0).Some? {
      var i := Find(t, CRLF, 0).value;
      EolIsCrlf(t, i);
      EolIsCrlf(l.name, i);
      if i >= |l.name| + 2 {
        EolIsCrlf(l.value, i - |l.name| - 2);
      }
      assert false;
    }
  }

  lemma ColonAt(s: string, i: nat)
    ensures At(s, ":", i) <==> i < |s| && s[i] == ':'
  {
    AtIsSlice(s, ":", i);
  }

  /** Splitting a printed line at its first colon recovers name and value. */
  lemma SplitsLine(l: Line, f: Fields)
    requires ':' !in l.name
    ensures ReadField(l.Text(), f) == Some(f.(name := l.name, content := l.value))
  {
    var t := l.Text();
    ColonAt(t, |l.name|);
    forall i: nat | i < |l.name|
      ensures !At(t, ":", i)
    {
      ColonAt(t, i);
      assert t[i] == l.name[i] && l.name[i] in l.name;
    }
    FindIs(t, ":", 0, |l.name|);
    assert t[..|l.name|] == l.name && t[|l.name| + 2..] == l.value;
  }

  ghost predicate AllOk(lines: seq<Line>) {
    forall l :: l in lines ==> LineOk(l)
  }

  lemma HandlesLine(l: Line, rest: seq<Line>, f: Fields, m: Method)
    requires ':' !in l.name
    ensures HandleAll(Texts([l] + rest), f, m)
         == HandleAll(Texts(rest), Dispatch(f.(name := l.name, content := l.value), m), m)
  {
    SplitsLine(l, f);
    assert Texts([l] + rest)[1..] == Texts(rest);
  }

  function SourceLines(ip: string, port: string): seq<Line> {
    [Line("Source-IP", ip)] + [Line("Source-Port", port)]
  }

  /** Whatever comes first, and known to the method or not: the last two lines set the target. */
  lemma {:induction false} SourceBecomesTarget(before: seq<Line>, ip: string, port: string, f: Fields, m: Method)
    requires AllOk(before)
    ensures var g := HandleAll(Texts(before + SourceLines(ip, port)), f, m);
            && g.Some? && g.value.targetIp == ip && g.value.targetPort == port
            && (g.value.errorCode == f.errorCode || g.value.errorCode == HEAD400)
            && ((forall l :: l in before ==> Known(m, l.name)) ==> g.value.errorCode == f.errorCode)
    decreases |before|
  {
    if before == [] {
      assert before + SourceLines(ip, port) == [Line("Source-IP", ip)] + [Line("Source-Port", port)];
      HandlesLine(Line("Source-IP", ip), [Line("Source-Port", port)], f, m);
      var f' := Dispatch(f.(name := "Source-IP", content := ip), m);
      assert [Line("Source-Port", port)] == [Line("Source-Port", port)] + [];
      HandlesLine(Line("Source-Port", port), [], f', m);
    } else {
      var l, rest := before[0], before[1..];
      assert l in before && LineOk(l);
      assert before + SourceLines(ip, port) == [l] + (rest + SourceLines(ip, port));
      HandlesLine(l, rest + SourceLines(ip, port), f, m);
      SourceBecomesTarget(rest, ip, port, Dispatch(f.(name := l.name, content := l.value), m), m);
    }
  }

  // ------------------------------------------------------------------ requests

  /** What a method writer is given; `third` are its header lines between Host and Source-IP. */
  datatype Request = Request(name: string, url: string, version: string, hostname: string, third: seq<Line>,
                             sourceIp: string, sourcePort: string, body: string)
  {
    function Lines(): seq<Line> {
      RequestLines(hostname, third, sourceIp, sourcePort)
    }

    function StartLine(): string {
      Join([name, url, version], " ")
    }

    function Text(): string {
      Print(StartLine(), HeaderText(Lines()), body)
    }

    /** What the reader takes for the body. */
    function BodyRead(): string {
      BodyFrom(Text(), |StartLine()| + |HeaderText(Lines())| + 4)
    }

    /** The parts before the body do not break their lines.  The words may contain blanks, and the body
        may be anything. */
    ghost predicate WellFormed() {
      && AllFree([name, url, version], CRLF)
      && Free(hostname, CRLF) && AllOk(third)
      && Free(sourceIp, CRLF) && Free(sourcePort, CRLF)
    }
  }

  lemma RequestLinesProper(r: Request)
    requires r.WellFormed()
    ensures AllProper(Texts(r.Lines()))
  {
    var lines := r.Lines();
    forall t | t in Texts(lines)
      ensures ProperLine(t)
    {
      var i :| 0 <= i < |lines| && Texts(lines)[i] == t;
      RequestLineOk(r, i);
      LineOkIsProper(lines[i]);
    }
  }

  lemma AtLeastThreeWords(r: Request)
    ensures |Words(r.StartLine())| >= 3
  {
    Whole(r.StartLine());
    SplitAtLeast(r.StartLine(), 0, [r.name, r.url, r.version]);
  }

  lemma RequestParses(r: Request)
    requires r.WellFormed()
    ensures Parse(r.Text()) == Parsed(r.StartLine(), HeaderText(r.Lines()), r.BodyRead())
    ensures HeaderLines(HeaderText(r.Lines())) == Texts(r.Lines())
  {
    RequestLinesProper(r);
    JoinWordsFree([r.name, r.url, r.version]);
    LinesOfJoin(Texts(r.Lines()));
    PrintedParses(r.StartLine(), Texts(r.Lines()), r.body);
  }

  lemma FixedNamesOk()
    ensures NameOk("Host") && NameOk("Source-IP") && NameOk("Source-Port")
    ensures NameOk("Target-IP") && NameOk("Target-Port")
  {
    NoCrIsFree("Host");
    NoCrIsFree("Source-IP");
    NoCrIsFree("Source-Port");
    NoCrIsFree("Target-IP");
    NoCrIsFree("Target-Port");
  }

  lemma NoCrIsFree(s: string)
    requires '\r' !in s
    ensures Free(s, CRLF)
  {
    forall i: nat
      ensures !At(s, CRLF, i)
    {
      EolIsCrlf(s, i);
    }
  }

  lemma RequestLineOk(r: Request, i: nat)
    requires r.WellFormed() && i < |r.Lines()|
    ensures LineOk(r.Lines()[i])
  {
    FixedNamesOk();
    var n := |r.third|;
    if 0 < i <= n {
      assert r.Lines()[i] == r.third[i - 1];
    }
  }

  // ------------------------------------------------------------------ the response and what the balancer reads in it

  lemma CStrAppend(a: string, b: string)
    requires '\0' !in a
    ensures CStr(a + b) == a + CStr(b)
  {
    var c := CStr(b);
    assert c <= b && (|c| < |b| ==> b[|c|] == '\0');
    CStrUnique(a + b, a + c);
  }

  function StatusLine(status: string): string {
    "HTTP/1.1" + " " + status + " "
  }

  function TargetText(ip: string, port: string): string {
    TARGET_IP + ip + CRLF + (TARGET_PORT + port + CRLF)
  }

  lemma {:induction false} HeaderConcat(a: seq<Line>, b: seq<Line>)
    ensures HeaderText(a + b) == HeaderText(a) + HeaderText(b)
  {
    if b == [] {
      assert a + b == a && HeaderText(b) == "";
    } else {
      var c, l := b[..|b| - 1], b[|b| - 1];
      assert a + b == (a + c) + [l] && b == c + [l];
      HeaderConcat(a, c);
      HeaderAppend(a + c, l);
      HeaderAppend(c, l);
    }
  }

  /** What follows the target lines of a response. */
  function ResponseRest(d: Draft): string {
    CStr(HeaderText(d.lines) + CRLF) + CStr(if d.body == "" then "" else d.body + CRLF)
  }

  lemma PrintCStarts(start: string, t: string, more: string, body: string)
    requires '\0' !in start && '\0' !in t
    ensures PrintC(start, t + more, body)
         == (start + CRLF) + (t + (CStr(more + CRLF) + CStr(if body == "" then "" else body + CRLF)))
  {
    assert (t + more) + CRLF == t + (more + CRLF);
    CStrAppend(t, more + CRLF);
  }

  /** Every response starts with its status line and the two target lines. */
  lemma ResponseStarts(d: Draft, ip: string, port: string)
    requires '\0' !in d.status && '\0' !in ip && '\0' !in port
    ensures ResponseText(d, ip, port) == (StatusLine(d.status) + CRLF) + (TargetText(ip, port) + ResponseRest(d))
  {
    TwoLineHeader("Target-IP", ip, "Target-Port", port);
    TargetSpelling(ip, port);
    HeaderConcat(TargetLines(ip, port), d.lines);
    PrintCStarts(StatusLine(d.status), TargetText(ip, port), HeaderText(d.lines), d.body);
  }

  lemma TargetSpelling(ip: string, port: string)
    ensures "Target-IP" + ": " + ip + CRLF + ("Target-Port" + ": " + port + CRLF) == TargetText(ip, port)
  {
    assert "Target-IP" + ": " == TARGET_IP && "Target-Port" + ": " == TARGET_PORT;
  }

  /** A status without the hyphen of the header names that the balancer looks for. */
  predicate Tame(status: string) {
    '\0' !in status && '-' !in status
  }

  lemma StatusesAreTame()
    ensures Tame("") && Tame(HEAD200) && Tame(HEAD201) && Tame(HEAD400) && Tame(HEAD401) && Tame(HEAD404)
    ensures Tame(HEAD405) && Tame(HEAD414) && Tame(HEAD500) && Tame(HEAD505)
  {
    assert Tame("") && Tame(HEAD200);
    assert Tame(HEAD201);
    assert Tame(HEAD400);
    assert Tame(HEAD401);
    assert Tame(HEAD404);
    assert Tame(HEAD405);
    assert Tame(HEAD414);
    assert Tame(HEAD500);
    assert Tame(HEAD505);
  }

  /** The extractor returns the value after the first occurrence of the name it looks for. */
  lemma ExtractsFirst(before: string, target: string, value: string, rest: string, content: string)
    requires target != "" && Free(value, CRLF)
    requires forall i: nat :: i < |before| ==> !At(before + target + value + CRLF + rest, target, i)
    ensures Extract(before + target + value + CRLF + rest, target, content) == value
  {
    var s, index := before + target + value + CRLF + rest, |before| + |target|;
    assert s == before + target + (value + CRLF + rest);
    Placed(before, target, value + CRLF + rest);
    FindIs(s, target, 0, |before|);
    assert s == (before + target) + (value + CRLF) + rest;
    Placed(before + target, value + CRLF, rest);
    FindEndOfLine(s, index, value);
    assert s[index..index + |value|] == value;
  }

  lemma Mismatch(s: string, pat: string, i: nat, k: nat)
    requires k < |pat| && i + k < |s| && s[i + k] != pat[k]
    ensures !At(s, pat, i)
  {
    AtIsSlice(s, pat, i);
    if i + |pat| <= |s| {
      assert s[i..i + |pat|][k] == s[i + k];
    }
  }

  lemma Inside(s: string, a: nat, t: string, pat: string, i: nat)
    requires a + |t| <= |s| && s[a..a + |t|] == t
    requires a <= i && i + |pat| <= a + |t|
    ensures At(s, pat, i) <==> At(t, pat, i - a)
  {
    MatchesChars(s, pat, i, 0);
    MatchesChars(t, pat, i - a, 0);
    assert forall j :: 0 <= j < |pat| ==> (t[i - a + j] == pat[j] <==> s[i + j] == pat[j]);
  }

  lemma TargetNames(target: string)
    requires target == TARGET_IP || target == TARGET_PORT
    ensures |target| >= 11 && '\r' !in target && '\n' !in target
    ensures target[0] == 'T' && target[6] == '-'
    ensures forall k :: 1 <= k < |target| ==> target[k] != 'T'
  {
  }

  /** The names looked for do not occur in the status line, nor across its end. */
  lemma NotInFirstLine(start: string, s: string, target: string, i: nat)
    requires target == TARGET_IP || target == TARGET_PORT
    requires '-' !in start && At(s, start + CRLF, 0)
    requires i < |start| + 2
    ensures !At(s, target, i)
  {
    TargetNames(target);
    AtConcat(s, start, CRLF, 0);
    EolIsCrlf(s, |start|);
    AtIsSlice(s, start, 0);
    if i == |start| + 1 {
      Mismatch(s, target, i, 0);
    } else if i + 6 < |start| {
      assert start[i + 6] in start;
      Mismatch(s, target, i, 6);
    } else {
      assert target[|start| - i] in target;
      Mismatch(s, target, i, |start| - i);
    }
  }

  /** Nor does the second name occur in the line of the first one, as far as it is not inside the
      address itself. */
  lemma NotInAddressLine(s: string, from: nat, ip: string, k: nat, i: nat)
    requires At(s, TARGET_IP + ip + CRLF, from)
    requires k <= |ip| + 2 && forall j: nat :: j < k ==> !At(ip, TARGET_PORT, j)
    requires from <= i < from + |TARGET_IP| + k
    ensures !At(s, TARGET_PORT, i)
  {
    TargetNames(TARGET_IP);
    TargetNames(TARGET_PORT);
    AtConcat(s, TARGET_IP + ip, CRLF, from);
    AtConcat(s, TARGET_IP, ip, from);
    var a := from + |TARGET_IP|;
    var e := a + |ip|;
    EolIsCrlf(s, e);
    AtIsSlice(s, ip, a);
    AtIsSlice(s, TARGET_IP, from);
    assert s[a..e] == ip && s[from..a] == TARGET_IP;
    assert s[e] == '\r' && s[e + 1] == '\n';
    if i == from {
      assert s[from + 7] == TARGET_IP[7] == 'I' && TARGET_PORT[7] == 'P';
      Mismatch(s, TARGET_PORT, i, 7);
    } else if i < a {
      assert s[i] == TARGET_IP[i - from] && TARGET_IP[i - from] != 'T';
      Mismatch(s, TARGET_PORT, i, 0);
    } else if i + |TARGET_PORT| <= e {
      Inside(s, a, ip, TARGET_PORT, i);
    } else if i <= e {
      assert TARGET_PORT[e - i] in TARGET_PORT;
      Mismatch(s, TARGET_PORT, i, e - i);
    } else {
      Mismatch(s, TARGET_PORT, i, 0);
    }
  }

  /** The port that the balancer reads: an address that spells the name of the port line hides it. */
  function PortRead(ip: string, port: string): string {
    var k := Find(ip, TARGET_PORT, 0);
    if k.None? then port else ip[k.value + |TARGET_PORT|..]
  }

  lemma SuffixFree(s: string, k: nat)
    requires Free(s, CRLF) && k <= |s|
    ensures Free(s[k..], CRLF)
  {
    forall i: nat
      ensures !At(s[k..], CRLF, i)
    {
      EolIsCrlf(s[k..], i);
      EolIsCrlf(s, k + i);
    }
  }

  lemma IpExtracted(start: string, ip: string, after: string, oldIp: string)
    requires '-' !in start && Free(ip, CRLF)
    ensures Extract(start + CRLF + TARGET_IP + ip + CRLF + after, TARGET_IP, oldIp) == ip
  {
    var text := start + CRLF + TARGET_IP + ip + CRLF + after;
    assert text == "" + (start + CRLF) + (TARGET_IP + ip + CRLF + after);
    Placed("", start + CRLF, TARGET_IP + ip + CRLF + after);
    forall i: nat | i < |start + CRLF|
      ensures !At(text, TARGET_IP, i)
    {
      NotInFirstLine(start, text, TARGET_IP, i);
    }
    ExtractsFirst(start + CRLF, TARGET_IP, ip, after, oldIp);
  }

  /** No occurrence of the second name before its line, or before the one in the address. */
  lemma NoPortBefore(start: string, ip: string, k: nat, text: string)
    requires '-' !in start && At(text, start + CRLF, 0) && At(text, TARGET_IP + ip + CRLF, |start| + 2)
    requires k <= |ip| + 2 && forall j: nat :: j < k ==> !At(ip, TARGET_PORT, j)
    ensures forall i: nat :: i < |start| + 2 + |TARGET_IP| + k ==> !At(text, TARGET_PORT, i)
  {
    forall i: nat | i < |start| + 2 + |TARGET_IP| + k
      ensures !At(text, TARGET_PORT, i)
    {
      if i < |start| + 2 {
        NotInFirstLine(start, text, TARGET_PORT, i);
      } else {
        NotInAddressLine(text, |start| + 2, ip, k, i);
      }
    }
  }

  lemma PortExtracted(start: string, ip: string, port: string, rest: string, oldPort: string)
    requires '-' !in start && Free(ip, CRLF) && Free(port, CRLF)
    ensures Extract(start + CRLF + TARGET_IP + ip + CRLF + TARGET_PORT + port + CRLF + rest, TARGET_PORT, oldPort)
         == PortRead(ip, port)
  {
    var first := start + CRLF;
    var text := first + TARGET_IP + ip + CRLF + TARGET_PORT + port + CRLF + rest;
    ResponsePlaces(first, TARGET_IP + ip + CRLF, TARGET_PORT + port + CRLF + rest);
    assert text == first + (TARGET_IP + ip + CRLF) + (TARGET_PORT + port + CRLF + rest);
    FindIsFirst(ip, TARGET_PORT, 0);
    var found := Find(ip, TARGET_PORT, 0);
    if found.None? {
      NoPortBefore(start, ip, |ip| + 2, text);
      ExtractsFirst(first + TARGET_IP + ip + CRLF, TARGET_PORT, port, rest, oldPort);
    } else {
      NoPortBefore(start, ip, found.value, text);
      HiddenPort(first, ip, found.value, text, TARGET_PORT + port + CRLF + rest, oldPort);
    }
  }

  lemma ResponsePlaces(first: string, second: string, rest: string)
    ensures At(first + second + rest, first, 0) && At(first + second + rest, second, |first|)
  {
    assert first + second + rest == "" + first + (second + rest);
    Placed("", first, second + rest);
    Placed(first, second, rest);
  }

  lemma HiddenPort(first: string, ip: string, k: nat, text: string, after: string, oldPort: string)
    requires At(ip, TARGET_PORT, k) && Free(ip, CRLF)
    requires text == first + TARGET_IP + ip + CRLF + after
    requires forall i: nat :: i < |first| + |TARGET_IP| + k ==> !At(text, TARGET_PORT, i)
    ensures Extract(text, TARGET_PORT, oldPort) == ip[k + |TARGET_PORT|..]
  {
    var tail := ip[k + |TARGET_PORT|..];
    AtIsSlice(ip, TARGET_PORT, k);
    assert ip == ip[..k] + TARGET_PORT + tail;
    assert text == first + TARGET_IP + ip[..k] + TARGET_PORT + tail + CRLF + after;
    SuffixFree(ip, k + |TARGET_PORT|);
    ExtractsFirst(first + TARGET_IP + ip[..k], TARGET_PORT, tail, after, oldPort);
  }

  /** What the balancer reads in a text that starts like a response. */
  lemma TargetsExtracted(start: string, ip: string, port: string, rest: string, oldIp: string, oldPort: string)
    requires '-' !in start && Free(ip, CRLF) && Free(port, CRLF)
    ensures var text := (start + CRLF) + (TargetText(ip, port) + rest);
            Extract(text, TARGET_IP, oldIp) == ip && Extract(text, TARGET_PORT, oldPort) == PortRead(ip, port)
  {
    var text := (start + CRLF) + (TargetText(ip, port) + rest);
    assert text == start + CRLF + TARGET_IP + ip + CRLF + (TARGET_PORT + port + CRLF + rest);
    IpExtracted(start, ip, TARGET_PORT + port + CRLF + rest, oldIp);
    assert text == start + CRLF + TARGET_IP + ip + CRLF + TARGET_PORT + port + CRLF + rest;
    PortExtracted(start, ip, port, rest, oldPort);
  }

  // ------------------------------------------------------------------ end to end

  lemma AnswersAreTame(d: Demand, f: Fields, file: FileResult)
    requires Tame(d.error) && Tame(f.errorCode)
    ensures Tame(Answer(d, f, file).status)
  {
    StatusesAreTame();
  }

  /** The end-to-end law of routing.  A request of any method, known or not, and of any version, is
      always answered, and whatever the answer is and whatever the file system contributes, the
      balancer reads the source of the request out of it: the address always, and the port up to
      PortRead, which PortReadIff makes precise. */
  lemma RoutingRoundTrip(r: Request, maxLoad: string, file: FileResult, oldIp: string, oldPort: string)
    requires r.WellFormed()
    requires '\0' !in r.Text() && |r.Text()| < HTTP_MSG_SIZE
    ensures var reply := ReplyTo(CStr(Pack(r.Text())), maxLoad, file);
            && reply.Sent?
            && (|reply.text| < HTTP_MSG_SIZE ==>
                  && Extract(CStr(Pack(reply.text)), TARGET_IP, oldIp) == r.sourceIp
                  && Extract(CStr(Pack(reply.text)), TARGET_PORT, oldPort) == PortRead(r.sourceIp, r.sourcePort))
  {
    ReplyIsResponse(r, maxLoad, file);
    var d := DemandOf(Words(r.StartLine()), Texts(r.Lines()), r.BodyRead(), r.Text(), maxLoad);
    DemandErrors(Words(r.StartLine()), Texts(r.Lines()), r.BodyRead(), r.Text(), maxLoad);
    SourceIsClean(r);
    RequestRoutes(r, d, file, oldIp, oldPort);
  }

  /** The port is misread exactly when the address spells the name of the port line and goes on with
      something else than the port. */
  lemma PortReadIff(ip: string, port: string)
    ensures Free(ip, TARGET_PORT) ==> PortRead(ip, port) == port
    ensures forall k: nat :: SplitsAt(ip, k) ==> (PortRead(ip, port) == port <==> port == ip[k + |TARGET_PORT|..])
    ensures Free(ip, TARGET_PORT) || exists k: nat :: SplitsAt(ip, k)
  {
    FindIsFirst(ip, TARGET_PORT, 0);
    forall k: nat | SplitsAt(ip, k)
      ensures Find(ip, TARGET_PORT, 0) == Some(k)
    {
      FindIs(ip, TARGET_PORT, 0, k);
    }
    if Find(ip, TARGET_PORT, 0).Some? {
      assert SplitsAt(ip, Find(ip, TARGET_PORT, 0).value);
    }
  }

  /** `k` is the first place where the address spells the name of the port line. */
  ghost predicate SplitsAt(ip: string, k: nat) {
    At(ip, TARGET_PORT, k) && forall i: nat :: i < k ==> !At(ip, TARGET_PORT, i)
  }

  predicate KnownError(error: string) {
    error == "" || error == HEAD405 || error == HEAD505
  }

  lemma DemandErrors(words: seq<string>, lines: seq<string>, body: string, request: string, maxLoad: string)
    requires |words| >= 3
    ensures var d := DemandOf(words, lines, body, request, maxLoad); d.lines == lines && KnownError(d.error)
  {
  }

  /** The reader gets past the parser with every well-formed request. */
  lemma ReplyIsResponse(r: Request, maxLoad: string, file: FileResult)
    requires r.WellFormed()
    requires '\0' !in r.Text() && |r.Text()| < HTTP_MSG_SIZE
    ensures |Words(r.StartLine())| >= 3
    ensures ReplyTo(CStr(Pack(r.Text())), maxLoad, file)
         == Respond(DemandOf(Words(r.StartLine()), Texts(r.Lines()), r.BodyRead(), r.Text(), maxLoad), file)
  {
    PackThenRead(r.Text());
    AtLeastThreeWords(r);
    RequestParses(r);
  }

  lemma RequestRoutes(r: Request, d: Demand, file: FileResult, oldIp: string, oldPort: string)
    requires r.WellFormed() && d.lines == Texts(r.Lines()) && KnownError(d.error)
    requires '\0' !in r.sourceIp && '\0' !in r.sourcePort
    ensures Respond(d, file).Sent?
    ensures |Respond(d, file).text| < HTTP_MSG_SIZE ==>
              && Extract(CStr(Pack(Respond(d, file).text)), TARGET_IP, oldIp) == r.sourceIp
              && Extract(CStr(Pack(Respond(d, file).text)), TARGET_PORT, oldPort) == PortRead(r.sourceIp, r.sourcePort)
  {
    var before := [Line("Host", r.hostname)] + r.third;
    assert r.Lines() == before + SourceLines(r.sourceIp, r.sourcePort);
    BeforeOk(r, before);
    SourceBecomesTarget(before, r.sourceIp, r.sourcePort, BLANK, d.m);
    var f := HandleAll(d.lines, BLANK, d.m).value;
    StatusesAreTame();
    AnswersAreTame(d, f, file);
    RespondRoutes(d, f, file, oldIp, oldPort);
  }

  lemma BeforeOk(r: Request, before: seq<Line>)
    requires r.WellFormed() && before == [Line("Host", r.hostname)] + r.third
    ensures AllOk(before)
  {
    FixedNamesOk();
  }

  /** The source of a request without NUL has no NUL. */
  lemma SourceIsClean(r: Request)
    requires '\0' !in r.Text()
    ensures '\0' !in r.sourceIp && '\0' !in r.sourcePort
  {
    var before := [Line("Host", r.hostname)] + r.third;
    var ip, port := r.sourceIp, r.sourcePort;
    assert r.Lines() == before + [Line("Source-IP", ip)] + [Line("Source-Port", port)];
    HeaderAppend(before, Line("Source-IP", ip));
    HeaderAppend(before + [Line("Source-IP", ip)], Line("Source-Port", port));
    var h := HeaderText(r.Lines());
    assert forall c :: c in ip ==> c in h;
    assert forall c :: c in port ==> c in h;
    assert forall c :: c in h ==> c in r.Text();
  }

  lemma RespondRoutes(d: Demand, f: Fields, file: FileResult, oldIp: string, oldPort: string)
    requires HandleAll(d.lines, BLANK, d.m) == Some(f)
    requires Tame(Answer(d, f, file).status)
    requires '\0' !in f.targetIp && '\0' !in f.targetPort
    requires Free(f.targetIp, CRLF) && Free(f.targetPort, CRLF)
    ensures Respond(d, file).Sent?
    ensures |Respond(d, file).text| < HTTP_MSG_SIZE ==>
              && Extract(CStr(Pack(Respond(d, file).text)), TARGET_IP, oldIp) == f.targetIp
              && Extract(CStr(Pack(Respond(d, file).text)), TARGET_PORT, oldPort) == PortRead(f.targetIp, f.targetPort)
  {
    DraftRoutes(Answer(d, f, file), f.targetIp, f.targetPort, oldIp, oldPort);
  }

  lemma DraftRoutes(a: Draft, ip: string, port: string, oldIp: string, oldPort: string)
    requires Tame(a.status) && '\0' !in ip && '\0' !in port
    requires Free(ip, CRLF) && Free(port, CRLF)
    ensures var text := ResponseText(a, ip, port);
            |text| < HTTP_MSG_SIZE ==>
              && Extract(CStr(Pack(text)), TARGET_IP, oldIp) == ip
              && Extract(CStr(Pack(text)), TARGET_PORT, oldPort) == PortRead(ip, port)
  {
    var text := ResponseText(a, ip, port);
    ResponseStarts(a, ip, port);
    TameLine(a.status);
    TargetsExtracted(StatusLine(a.status), ip, port, ResponseRest(a), oldIp, oldPort);
    if |text| < HTTP_MSG_SIZE {
      NoNulInResponse(a, ip, port);
      PackThenRead(text);
    }
  }

  lemma TameLine(status: string)
    requires Tame(status)
    ensures '-' !in StatusLine(status) && '\0' !in StatusLine(status)
  {
  }

  lemma NoNulInResponse(d: Draft, ip: string, port: string)
    ensures '\0' !in ResponseText(d, ip, port)
  {
  }

  // ------------------------------------------------------------------ the capacity handshake

  /** getBody of the balancer. */
  function Body(text: string): string {
    Extract(text, CRLF2, "")
  }

  /** The limit of a real server reaches the balancer: asked with SERVERCHECK, the server sends it as
      a body, and the balancer reads the same number. */
  lemma CapacityHandshake(r: Request, maxChildren: int, file: FileResult)
    requires r.WellFormed() && r.name == "SERVERCHECK" && r.version == "HTTP/1.1" && r.third == []
    requires Free(r.url, " ")
    requires '\0' !in r.Text() && |r.Text()| < HTTP_MSG_SIZE
    requires INT_MIN <= maxChildren <= INT_MAX
    ensures var reply := ReplyTo(CStr(Pack(r.Text())), ConvertToString(maxChildren), file);
            && reply.Sent?
            && (|reply.text| < HTTP_MSG_SIZE ==> ConvertStringToInt(Body(CStr(Pack(reply.text)))) == maxChildren)
  {
    var load := ConvertToString(maxChildren);
    ReplyIsResponse(r, load, file);
    CheckWords(r);
    CheckDemand(r.url, Texts(r.Lines()), r.BodyRead(), r.Text(), load);
    LoadReply(r, r.BodyRead(), load, file);
    SourceIsClean(r);
    LoadIsRead(r.sourceIp, r.sourcePort, maxChildren);
  }

  lemma CheckWords(r: Request)
    requires r.name == "SERVERCHECK" && r.version == "HTTP/1.1" && Free(r.url, " ")
    ensures Words(r.StartLine()) == [r.name, r.url, r.version]
  {
    NoBlankIsFree(r.name);
    NoBlankIsFree(r.version);
    WordsOfJoin([r.name, r.url, r.version]);
  }

  lemma NoBlankIsFree(s: string)
    requires ' ' !in s
    ensures Free(s, " ")
  {
    forall i: nat
      ensures !At(s, " ", i)
    {
      SpaceAt(s, i);
    }
  }

  lemma CheckDemand(url: string, lines: seq<string>, body: string, request: string, load: string)
    ensures DemandOf(["SERVERCHECK", url, "HTTP/1.1"], lines, body, request, load)
         == Demand(SERVERCHECK, url, lines, body, request, load, "")
  {
  }

  lemma LoadReply(r: Request, body: string, load: string, file: FileResult)
    requires r.WellFormed() && r.third == []
    ensures Respond(Demand(SERVERCHECK, r.url, Texts(r.Lines()), body, r.Text(), load, ""), file)
         == Sent(ResponseText(Draft(HEAD200, [], load), r.sourceIp, r.sourcePort))
  {
    var before := [Line("Host", r.hostname)] + r.third;
    assert r.Lines() == before + SourceLines(r.sourceIp, r.sourcePort);
    BeforeOk(r, before);
    assert forall l :: l in before ==> Known(SERVERCHECK, l.name);
    SourceBecomesTarget(before, r.sourceIp, r.sourcePort, BLANK, SERVERCHECK);
    var f := HandleAll(Texts(r.Lines()), BLANK, SERVERCHECK).value;
    LoadAnswer(Demand(SERVERCHECK, r.url, Texts(r.Lines()), body, r.Text(), load, ""), f, file);
  }

  lemma LoadAnswer(d: Demand, f: Fields, file: FileResult)
    requires d.m == SERVERCHECK && f.errorCode == "" && HandleAll(d.lines, BLANK, d.m) == Some(f)
    ensures Respond(d, file) == Sent(ResponseText(Draft(HEAD200, [], d.maxLoad), f.targetIp, f.targetPort))
  {
  }

  lemma DigitsAreClean(n: int)
    ensures var s := ConvertToString(n); s != "" && '\0' !in s && Free(s, CRLF)
  {
    NoCrIsFree(ConvertToString(n));
  }

  lemma LoadIsRead(ip: string, port: string, n: int)
    requires '\0' !in ip && '\0' !in port && Free(ip, CRLF) && Free(port, CRLF)
    requires INT_MIN <= n <= INT_MAX
    ensures var text := ResponseText(Draft(HEAD200, [], ConvertToString(n)), ip, port);
            |text| < HTTP_MSG_SIZE ==> ConvertStringToInt(Body(CStr(Pack(text)))) == n
  {
    var text := ResponseText(Draft(HEAD200, [], ConvertToString(n)), ip, port);
    LoadBody(ip, port, n);
    ConversionRoundTrip(n);
    if |text| < HTTP_MSG_SIZE {
      NoNulInResponse(Draft(HEAD200, [], ConvertToString(n)), ip, port);
      PackThenRead(text);
    }
  }

  lemma LoadBody(ip: string, port: string, n: int)
    requires '\0' !in ip && '\0' !in port && Free(ip, CRLF) && Free(port, CRLF)
    ensures Body(ResponseText(Draft(HEAD200, [], ConvertToString(n)), ip, port)) == ConvertToString(n)
  {
    DigitsAreClean(n);
    LoadText(ip, port, ConvertToString(n));
    NoCrInStatus();
    BodyExtracted(StatusLine(HEAD200), ip, port, ConvertToString(n));
  }

  lemma NoCrInStatus()
    ensures ProperLine(StatusLine(HEAD200))
  {
    assert '\r' !in HEAD200;
    assert '\r' !in StatusLine(HEAD200);
    FindIsFirst(StatusLine(HEAD200), CRLF, 0);
    NoCrIsFree(StatusLine(HEAD200));
  }

  lemma LoadText(ip: string, port: string, body: string)
    requires '\0' !in ip && '\0' !in port && '\0' !in body && body != ""
    ensures ResponseText(Draft(HEAD200, [], body), ip, port)
         == Print(StatusLine(HEAD200), HeaderText(TargetLines(ip, port)), body)
  {
    assert TargetLines(ip, port) + [] == TargetLines(ip, port);
    StatusesAreTame();
    TameLine(HEAD200);
    TwoLineHeader("Target-IP", ip, "Target-Port", port);
    PrintCIsPrint(StatusLine(HEAD200), HeaderText(TargetLines(ip, port)), body);
  }

  lemma BodyExtracted(start: string, ip: string, port: string, body: string)
    requires ProperLine(start) && Free(ip, CRLF) && Free(port, CRLF)
    requires body != "" && Free(body, CRLF)
    ensures Body(Print(start, HeaderText(TargetLines(ip, port)), body)) == body
  {
    var lines := TargetLines(ip, port);
    FixedNamesOk();
    LineOkIsProper(lines[0]);
    LineOkIsProper(lines[1]);
    var all := [start] + Texts(lines);
    assert all[1..] == Texts(lines);
    assert Join(all, CRLF) == start + CRLF + HeaderText(lines);
    BodyAfterLines(all, body);
    assert Print(start, HeaderText(lines), body) == (Join(all, CRLF) + CRLF) + (body + CRLF);
  }

  lemma BodyAfterLines(all: seq<string>, body: string)
    requires all != [] && AllProper(all) && Free(body, CRLF)
    ensures Body((Join(all, CRLF) + CRLF) + (body + CRLF)) == body
  {
    var s, n := (Join(all, CRLF) + CRLF) + (body + CRLF), |Join(all, CRLF)| + 2;
    Whole(s);
    AtConcat(s, Join(all, CRLF) + CRLF, body + CRLF, 0);
    FindEndOfHeader(s, 0, all);
    FindEndOfLine(s, n, body);
    AtConcat(s, body, CRLF, n);
    AtIsSlice(s, body, n);
  }
}
