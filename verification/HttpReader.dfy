/** The message reader and the response handler: parse a request, dispatch its headers, answer it. */
module HttpReader {
  import opened Options
  import opened Text
  import opened Conversions
  import opened HttpWriter

  const HEAD200 := "200 OK"
  const HEAD201 := "201 Created"
  const HEAD400 := "400 Bad Request"
  const HEAD401 := "401 Unauthorized"
  const HEAD404 := "404 Not Found"
  const HEAD405 := "405 Method Not Allowed"
  const HEAD414 := "414 Request URL Too Long"
  const HEAD500 := "500 Internal Server Error"
  const HEAD503 := "503 Service Unavailable"
  const HEAD505 := "505 HTTP Version Not Supported"

  const ALLOWED := "GET, HEAD, PUT, POST, TRACE, OPTIONS, DELETE"

  // ------------------------------------------------------------------ parsing

  /** What reading a message comes to.  `Crashed` is an index beyond the message (an uncaught
      exception of at()), which the loop bounds allow for messages of one and of three characters. */
  datatype Parsed = Crashed | NoStartLine | NoHeader | Parsed(startLine: string, header: string, body: string)

  function Parse(msg: string): (r: Parsed) {
    if msg == "" then NoStartLine
    else if |msg| == 1 then Crashed
    else
      var eol := Find(msg, CRLF, 0);
      if eol.None? || eol.value == 0 then NoStartLine
      else if |msg| == 3 then Crashed
      else
        var eoh := Find(msg, CRLF2, eol.value + 2);
        if eoh.None? then NoHeader
        else Parsed(msg[..eol.value], msg[eol.value + 2..eoh.value + 2], BodyFrom(msg, eoh.value + 4))
  }

  function BodyFrom(msg: string, from: nat): string {
    var end := Find(msg, CRLF, from);
    if end.Some? then msg[from..end.value] else ""
  }

  function Words(startLine: string): seq<string> {
    Split(startLine, " ", 0)
  }

  function HeaderLines(header: string): seq<string> {
    Split(header, CRLF, 0)
  }

  // ------------------------------------------------------------------ header dispatch

  /** The fields that the header handlers of a response handler write. */
  datatype Fields = Fields(name: string, content: string, targetIp: string, targetPort: string, errorCode: string)

  const BLANK := Fields("", "", "", "", "")

  /** Name and content of a line.  A line without colon leaves both as they were; nothing at all after
      the colon is an index beyond the line. */
  function ReadField(line: string, f: Fields): Option<Fields> {
    var colon := Find(line, ":", 0);
    if colon.None? then Some(f)
    else if colon.value + 1 == |line| then None
    else Some(f.(name := line[..colon.value], content := line[colon.value + 2..]))
  }

  datatype Method = GET | HEAD | PUT | POST | TRACE | OPTIONS | DELETE | SERVERCHECK | ERROR

  function MethodOf(name: string): Option<Method> {
    if name == "GET" then Some(GET)
    else if name == "HEAD" then Some(HEAD)
    else if name == "PUT" then Some(PUT)
    else if name == "POST" then Some(POST)
    else if name == "TRACE" then Some(TRACE)
    else if name == "OPTIONS" then Some(OPTIONS)
    else if name == "DELETE" then Some(DELETE)
    else if name == "SERVERCHECK" then Some(SERVERCHECK)
    else if name == "ERROR" then Some(ERROR)
    else None
  }

  /** The header is in the handler table of the method. */
  predicate Known(m: Method, name: string) {
    || name == "Host"
    || name == "Source-IP"
    || name == "Source-Port"
    || (name == "Accept" && !m.PUT? && !m.POST? && !m.DELETE? && !m.SERVERCHECK?)
    || ((name == "Content-Type" || name == "Content-Length") && (m.PUT? || m.POST? || m.ERROR?))
  }

  function Dispatch(f: Fields, m: Method): Fields {
    if !Known(m, f.name) then f.(errorCode := HEAD400)
    else if f.name == "Source-IP" then f.(targetIp := f.content)
    else if f.name == "Source-Port" then f.(targetPort := f.content)
    else f
  }

  /** The fields after all header lines; None where one of them makes the handler crash. */
  function HandleAll(lines: seq<string>, f: Fields, m: Method): Option<Fields>
    decreases |lines|
  {
    if lines == [] then Some(f)
    else
      var g := ReadField(lines[0], f);
      if g.None? then None else HandleAll(lines[1..], Dispatch(g.value, m), m)
  }

  // ------------------------------------------------------------------ answers

  datatype Errno = ENOENT | EACCES | ENAMETOOLONG | OTHER

  /** What the file system says to the one file operation of an answer.  Only DELETE needs a lock file
      and only PUT writes; with the other methods these two outcomes do not occur. */
  datatype FileResult = Failed(errno: Errno) | LockFailed | ShortWrite | Done(text: string)

  /** A request as the parser hands it to the response handler. */
  datatype Demand = Demand(m: Method, url: string, lines: seq<string>, body: string, request: string,
                           maxLoad: string, error: string)

  /** A response before it is printed; the Target lines go in front of `lines`. */
  datatype Draft = Draft(status: string, lines: seq<Line>, body: string)

  function ErrorDraft(status: string): Draft {
    Draft(status, [Line("Content-Length", "0")], "")
  }

  function TextDraft(status: string, before: seq<Line>, length: nat, body: string): Draft {
    Draft(status, before + [Line("Content-Type", "text/plain"), Line("Content-Length", ConvertToString(length))], body)
  }

  function OptionsDraft(): Draft {
    Draft(HEAD200, [Line("Content-Length", "0"), Line("Allow", ALLOWED)], "")
  }

  function OpenError(errno: Errno): string {
    match errno
    case ENOENT => HEAD404
    case EACCES => HEAD401
    case _ => HEAD500
  }

  function RemoveError(errno: Errno): string {
    match errno
    case EACCES => HEAD401
    case ENOENT => HEAD404
    case ENAMETOOLONG => HEAD414
    case OTHER => HEAD500
  }

  function FileDraft(d: Demand, file: FileResult): Draft {
    if d.m == GET then
      if file.Failed? then ErrorDraft(OpenError(file.errno))
      else if !file.Done? then ErrorDraft(HEAD500)
      else TextDraft(HEAD200, [], |file.text|, file.text)
    else if d.m == HEAD then
      if file.Failed? then ErrorDraft(OpenError(file.errno))
      else if !file.Done? then ErrorDraft(HEAD500)
      else TextDraft(HEAD200, [], |file.text|, "")
    else if d.m == PUT then
      if file.Failed? then ErrorDraft(if file.errno.EACCES? then HEAD401 else HEAD500)
      else if !file.Done? then ErrorDraft(HEAD500)
      else TextDraft(HEAD201, [Line("Location", d.url)], |d.url|, d.url)
    else
      if file.Failed? then ErrorDraft(RemoveError(file.errno))
      else if !file.Done? then ErrorDraft(HEAD500)
      else TextDraft(HEAD200, [], 17, "File is deleted.")
  }

  function PostDraft(body: string): Draft {
    TextDraft(HEAD200, [], |body + " is in stock"| + 1, body + " is in stock")
  }

  /** The answer to a request whose header lines have been handled. */
  function Answer(d: Demand, f: Fields, file: FileResult): Draft {
    if d.m == ERROR then ErrorDraft(d.error)
    else if f.errorCode != "" then ErrorDraft(f.errorCode)
    else
      match d.m
      case POST => PostDraft(d.body)
      case TRACE => TextDraft(HEAD200, [], |d.request|, d.request)
      case OPTIONS => OptionsDraft()
      case SERVERCHECK => Draft(HEAD200, [], d.maxLoad)
      case _ => FileDraft(d, file)
  }

  function TargetLines(ip: string, port: string): seq<Line> {
    [Line("Target-IP", ip), Line("Target-Port", port)]
  }

  function ResponseText(d: Draft, ip: string, port: string): string {
    PrintC("HTTP/1.1" + " " + d.status + " ", HeaderText(TargetLines(ip, port) + d.lines), d.body)
  }

  /** The outcome of a run of the reader: undefined behaviour or a crash, no response, or a response. */
  datatype Reply = Undefined | Silent | Sent(text: string)

  /** What the start line asks for: a wrong version or an unknown method turns it into an error. */
  function DemandOf(words: seq<string>, lines: seq<string>, body: string, request: string, maxLoad: string): Demand
    requires |words| >= 3
  {
    if words[2] != "HTTP/1.1" then Demand(ERROR, words[1], lines, body, request, maxLoad, HEAD505)
    else if MethodOf(words[0]).None? then Demand(ERROR, words[1], lines, body, request, maxLoad, HEAD405)
    else Demand(MethodOf(words[0]).value, words[1], lines, body, request, maxLoad, "")
  }

  function Respond(d: Demand, file: FileResult): Reply {
    var f := HandleAll(d.lines, BLANK, d.m);
    if f.None? then Undefined
    else Sent(ResponseText(Answer(d, f.value, file), f.value.targetIp, f.value.targetPort))
  }

  function ReplyTo(msg: string, maxLoad: string, file: FileResult): Reply {
    var p := Parse(msg);
    if p.Crashed? then Undefined
    else if !p.Parsed? then Silent
    else if |Words(p.startLine)| < 3 then Undefined
    else Respond(DemandOf(Words(p.startLine), HeaderLines(p.header), p.body, msg, maxLoad), file)
  }

  /** Every response that is printed on the way fits into the buffer. */
  ghost predicate Fits(d: Demand, file: FileResult) {
    var f := HandleAll(d.lines, BLANK, d.m);
    f.Some? ==>
      && (f.value.errorCode != "" ==>
            |ResponseText(ErrorDraft(f.value.errorCode), f.value.targetIp, f.value.targetPort)| < HTTP_MSG_SIZE)
      && |ResponseText(Answer(d, f.value, file), f.value.targetIp, f.value.targetPort)| < HTTP_MSG_SIZE
  }

  ghost predicate Carries(msg: HTTPMessage, r: Reply) {
    r.Sent? && |r.text| < HTTP_MSG_SIZE && msg == Pack(r.text)
  }

  lemma TwoMore<T>(a: seq<T>, b: seq<T>, x: T, y: T)
    ensures a + b + [x] + [y] == a + (b + [x, y])
  {
  }

  lemma OneAndOne<T>(a: seq<T>, x: T, y: T)
    ensures a + [x] + [y] == a + [x, y]
  {
  }

  lemma NoMore<T>(a: seq<T>)
    ensures a + [] == a
  {
  }

  /** All responses that reading this message may print fit into the buffer. */
  ghost predicate Printable(msg: string, maxLoad: string, file: FileResult) {
    var p := Parse(msg);
    p.Parsed? && |Words(p.startLine)| >= 3 ==>
      Fits(DemandOf(Words(p.startLine), HeaderLines(p.header), p.body, msg, maxLoad), file)
  }

  class ResponseHandler {
    const demand: Demand
    var headerQueue: seq<string>
    var fields: Fields

    constructor (demand: Demand)
      ensures this.demand == demand && headerQueue == demand.lines && fields == BLANK
    {
      this.demand := demand;
      headerQueue, fields := demand.lines, BLANK;
    }

    method GetHeaderInfo() returns (ok: bool)
      requires headerQueue != []
      modifies this
      ensures headerQueue == old(headerQueue)[1..]
      ensures ok <==> ReadField(old(headerQueue)[0], old(fields)).Some?
      ensures ok ==> fields == ReadField(old(headerQueue)[0], old(fields)).value
    {
      var msg := headerQueue[0];
      headerQueue := headerQueue[1..];
      var i := 0;
      while i < |msg|
        invariant i <= |msg| && fields == old(fields)
        invariant Find(msg, ":", 0) == Find(msg, ":", i)
      {
        if msg[i] == ':' {
          assert At(msg, ":", i);
          if i + 2 > |msg| {
            return false;
          }
          fields := fields.(name := msg[..i], content := msg[i + 2..]);
          return true;
        }
        i := i + 1;
      }
      return true;
    }

    /** The writer holds the response for a draft, addressed to the source of the request. */
    ghost predicate Filled(rm: HTTPWriter, d: Draft)
      reads rm, this`fields
    {
      && rm.startLine == "HTTP/1.1" + " " + d.status + " "
      && rm.header == HeaderText(TargetLines(fields.targetIp, fields.targetPort) + d.lines)
      && rm.body == d.body
    }

    ghost predicate Ready(m: Method)
      reads this
    {
      demand.m == m && headerQueue == demand.lines && fields == BLANK
    }

    /** Either the header lines made the handler crash, or the writer holds the answer. */
    ghost predicate Answered(rm: HTTPWriter?, file: FileResult)
      reads this`fields, rm
    {
      var f := HandleAll(demand.lines, BLANK, demand.m);
      (rm != null <==> f.Some?) && (rm != null ==> fields == f.value && Filled(rm, Answer(demand, fields, file)))
    }

    /** The loop over the header queue; the table is that of the method. */
    method ReadHeaders() returns (ok: bool)
      requires Ready(demand.m)
      modifies this
      ensures var f := HandleAll(demand.lines, BLANK, demand.m);
              (ok <==> f.Some?) && (ok ==> fields == f.value)
    {
      while |headerQueue| > 0
        invariant HandleAll(demand.lines, BLANK, demand.m) == HandleAll(headerQueue, fields, demand.m)
        decreases |headerQueue|
      {
        var read := GetHeaderInfo();
        if !read {
          return false;
        }
        if Known(demand.m, fields.name) {
          if fields.name == "Source-IP" {
            fields := fields.(targetIp := fields.content);
          } else if fields.name == "Source-Port" {
            fields := fields.(targetPort := fields.content);
          }
        } else {
          fields := fields.(errorCode := HEAD400);
        }
      }
      return true;
    }

    /** Handles the header lines; unknown headers make it fill in an error message at once. */
    method HandleHeaders() returns (ok: bool, rm: HTTPWriter?)
      requires Ready(demand.m)
      modifies this
      ensures var f := HandleAll(demand.lines, BLANK, demand.m);
              (ok <==> f.Some?) && (ok ==> fields == f.value)
      ensures fresh(rm) || rm == null
      ensures ok ==> (rm != null <==> fields.errorCode != "")
      ensures ok ==> (rm != null ==> Filled(rm, ErrorDraft(fields.errorCode)))
      ensures !ok ==> rm == null
    {
      rm := null;
      ok := ReadHeaders();
      if ok && |fields.errorCode| > 0 {
        rm := ErrorOut(fields.errorCode);
      }
    }

    method ErrorOut(status: string) returns (rm: HTTPWriter)
      ensures fresh(rm) && Filled(rm, ErrorDraft(status))
    {
      rm := new HTTPWriter.ErrorMessage("HTTP/1.1", status, fields.targetIp, fields.targetPort);
      ghost var ip, port := Line("Target-IP", fields.targetIp), Line("Target-Port", fields.targetPort);
      assert [ip, port] + [Line("Content-Length", "0")] == [ip, port, Line("Content-Length", "0")];
    }

    /** The tail shared by the answers with a text: type and length go to the header, then the body. */
    method AddText(rm: HTTPWriter, ghost status: string, ghost before: seq<Line>, length: nat, body: string)
      requires Filled(rm, Draft(status, before, ""))
      modifies rm
      ensures Filled(rm, TextDraft(status, before, length, body))
    {
      var x, y := Line("Content-Type", "text/plain"), Line("Content-Length", ConvertToString(length));
      ghost var lines := TargetLines(fields.targetIp, fields.targetPort);
      rm.AppendLine(lines + before, x);
      rm.AppendLine(lines + before + [x], y);
      TwoMore(lines, before, x, y);
      rm.AddBody(body);
    }

    /** The four-argument response constructor with the target of this handler. */
    method Target(status: string) returns (rm: HTTPWriter)
      ensures fresh(rm) && Filled(rm, Draft(status, [], ""))
    {
      rm := new HTTPWriter.Response("HTTP/1.1", status, fields.targetIp, fields.targetPort);
      NoMore(TargetLines(fields.targetIp, fields.targetPort));
    }

    method PlainText(status: string, length: nat, body: string) returns (rm: HTTPWriter)
      ensures fresh(rm) && Filled(rm, TextDraft(status, [], length, body))
    {
      rm := Target(status);
      AddText(rm, status, [], length, body);
    }

    /** The answer to a successful PUT names the new location twice, in the header and as the body. */
    method Created() returns (rm: HTTPWriter)
      ensures fresh(rm) && Filled(rm, TextDraft(HEAD201, [Line("Location", demand.url)], |demand.url|, demand.url))
    {
      rm := new HTTPWriter.Response("HTTP/1.1", HEAD201, fields.targetIp, fields.targetPort);
      rm.AppendLine(TargetLines(fields.targetIp, fields.targetPort), Line("Location", demand.url));
      AddText(rm, HEAD201, [Line("Location", demand.url)], |demand.url|, demand.url);
    }

    method Options() returns (rm: HTTPWriter)
      ensures fresh(rm) && Filled(rm, OptionsDraft())
    {
      rm := new HTTPWriter.Response("HTTP/1.1", HEAD200, fields.targetIp, fields.targetPort);
      ghost var lines := TargetLines(fields.targetIp, fields.targetPort);
      var x, y := Line("Content-Length", "0"), Line("Allow", ALLOWED);
      rm.AppendLine(lines, x);
      rm.AppendLine(lines + [x], y);
      OneAndOne(lines, x, y);
    }

    method GetResponse(file: FileResult) returns (rm: HTTPWriter?)
      requires Ready(GET)
      modifies this
      ensures fresh(rm) || rm == null
      ensures Answered(rm, file)
    {
      var ok;
      ok, rm := HandleHeaders();
      if !ok || rm != null {
        return;
      }
      match file {
        case Failed(errno) => rm := ErrorOut(OpenError(errno));
        case Done(text) => rm := PlainText(HEAD200, |text|, text);
        case _ => rm := ErrorOut(HEAD500);
      }
    }

    method HeadResponse(file: FileResult) returns (rm: HTTPWriter?)
      requires Ready(HEAD)
      modifies this
      ensures fresh(rm) || rm == null
      ensures Answered(rm, file)
    {
      var ok;
      ok, rm := HandleHeaders();
      if !ok || rm != null {
        return;
      }
      match file {
        case Failed(errno) => rm := ErrorOut(OpenError(errno));
        case Done(text) => rm := PlainText(HEAD200, |text|, "");
        case _ => rm := ErrorOut(HEAD500);
      }
    }

    method PutResponse(file: FileResult) returns (rm: HTTPWriter?)
      requires Ready(PUT)
      modifies this
      ensures fresh(rm) || rm == null
      ensures Answered(rm, file)
    {
      var ok;
      ok, rm := HandleHeaders();
      if !ok || rm != null {
        return;
      }
      match file {
        case Failed(errno) => rm := ErrorOut(if errno.EACCES? then HEAD401 else HEAD500);
        case Done(text) => rm := Created();
        case _ => rm := ErrorOut(HEAD500);
      }
    }

    method PostResponse(ghost file: FileResult) returns (rm: HTTPWriter?)
      requires Ready(POST)
      modifies this
      ensures fresh(rm) || rm == null
      ensures Answered(rm, file)
    {
      var ok;
      ok, rm := HandleHeaders();
      if !ok || rm != null {
        return;
      }
      var result := demand.body + " is in stock";
      rm := PlainText(HEAD200, |result| + 1, result);
    }

    method TraceResponse(ghost file: FileResult) returns (rm: HTTPWriter?)
      requires Ready(TRACE)
      modifies this
      ensures fresh(rm) || rm == null
      ensures Answered(rm, file)
    {
      var ok;
      ok, rm := HandleHeaders();
      if !ok || rm != null {
        return;
      }
      rm := PlainText(HEAD200, |demand.request|, demand.request);
    }

    method OptionsResponse(ghost file: FileResult) returns (rm: HTTPWriter?)
      requires Ready(OPTIONS)
      modifies this
      ensures fresh(rm) || rm == null
      ensures Answered(rm, file)
    {
      var ok;
      ok, rm := HandleHeaders();
      if !ok || rm != null {
        return;
      }
      rm := Options();
    }

    method DeleteResponse(file: FileResult) returns (rm: HTTPWriter?)
      requires Ready(DELETE)
      modifies this
      ensures fresh(rm) || rm == null
      ensures Answered(rm, file)
    {
      var ok;
      ok, rm := HandleHeaders();
      if !ok || rm != null {
        return;
      }
      match file {
        case Failed(errno) => rm := ErrorOut(RemoveError(errno));
        case Done(text) => rm := PlainText(HEAD200, 17, "File is deleted.");
        case _ => rm := ErrorOut(HEAD500);
      }
    }

    method ServerCheckResponse(ghost file: FileResult) returns (rm: HTTPWriter?)
      requires Ready(SERVERCHECK)
      modifies this
      ensures fresh(rm) || rm == null
      ensures Answered(rm, file)
    {
      var ok;
      ok, rm := HandleHeaders();
      if !ok || rm != null {
        return;
      }
      rm := Target(HEAD200);
      rm.AddBody(demand.maxLoad);
    }

    /** The error is sent whatever the header lines say. */
    method ErrorResponse(ghost file: FileResult) returns (rm: HTTPWriter?)
      requires Ready(ERROR)
      modifies this
      ensures fresh(rm) || rm == null
      ensures Answered(rm, file)
    {
      var ok;
      ok, rm := HandleHeaders();
      if ok {
        rm := ErrorOut(demand.error);
      }
    }
  }

  // ------------------------------------------------------------------ the reader

  datatype End = Returned | Broke

  datatype CheckState = PARSE_START_LINE | PARSE_HEADER

  class HTTPReader {
    const requestMsg: string
    var maxLoad: string
    var startLine: string
    var header: string
    var body: string
    var startLineQueue: seq<string>
    var headerQueue: seq<string>
    var responseMsg: Option<HTTPMessage>

    constructor (msg: HTTPMessage)
      ensures requestMsg == CStr(msg) && Fresh() && maxLoad == ""
    {
      requestMsg := CStr(msg);
      maxLoad, startLine, header, body := "", "", "", "";
      startLineQueue, headerQueue := [], [];
      responseMsg := None;
    }

    ghost predicate Fresh()
      reads this
    {
      startLine == "" && header == "" && body == "" && startLineQueue == [] && headerQueue == [] && responseMsg.None?
    }

    method SetMaxLoad(load: string)
      modifies this`maxLoad
      ensures maxLoad == load
    {
      maxLoad := load;
    }

    method CheckStartLine()
      requires startLineQueue == []
      modifies this`startLineQueue
      ensures startLineQueue == Words(startLine)
    {
      var line, index, i := startLine, 0, 0;
      ghost var all := Words(line);
      while i < |line|
        invariant index <= i <= |line|
        invariant all == startLineQueue + Split(line, " ", index)
        invariant Find(line, " ", index) == Find(line, " ", i)
      {
        SpaceStep(line, i);
        if line[i] == ' ' {
          NextPiece(startLineQueue, line, " ", index);
          startLineQueue := startLineQueue + [line[index..i]];
          index := i + 1;
        }
        i := i + 1;
      }
      LastPiece(line, " ", index);
      if index < |line| {
        startLineQueue := startLineQueue + [line[index..]];
      }
    }

    method CheckHeader()
      requires header != "" && headerQueue == []
      modifies this`headerQueue
      ensures headerQueue == HeaderLines(header)
    {
      var text, index, i := header, 0, 0;
      ghost var all := HeaderLines(text);
      while i < |text| - 1
        invariant 0 <= i <= |text| - 1 && index <= |text|
        invariant index <= i || (index == i + 1 && text[i] == '\n')
        invariant all == headerQueue + Split(text, CRLF, index)
        invariant index <= i ==> Find(text, CRLF, index) == Find(text, CRLF, i)
      {
        EolStep(text, i);
        if text[i] == '\r' && text[i + 1] == '\n' {
          NextPiece(headerQueue, text, CRLF, index);
          headerQueue := headerQueue + [text[index..i]];
          index := i + 2;
        }
        i := i + 1;
      }
      LastPiece(text, CRLF, index);
      if index < |text| {
        headerQueue := headerQueue + [text[index..]];
      }
    }

    /** The cases of the switch whose answers need a file, and the others. */
    method FileCase(handler: ResponseHandler, file: FileResult) returns (rm: HTTPWriter?)
      requires handler.Ready(handler.demand.m) && handler.demand.m in {GET, HEAD, PUT, DELETE}
      modifies handler
      ensures (fresh(rm) || rm == null) && handler.Answered(rm, file)
    {
      if handler.demand.m == GET {
        rm := handler.GetResponse(file);
      } else if handler.demand.m == HEAD {
        rm := handler.HeadResponse(file);
      } else if handler.demand.m == PUT {
        rm := handler.PutResponse(file);
      } else {
        rm := handler.DeleteResponse(file);
      }
    }

    method OtherCase(handler: ResponseHandler, ghost file: FileResult) returns (rm: HTTPWriter?)
      requires handler.Ready(handler.demand.m) && handler.demand.m !in {GET, HEAD, PUT, DELETE}
      modifies handler
      ensures (fresh(rm) || rm == null) && handler.Answered(rm, file)
    {
      if handler.demand.m == POST {
        rm := handler.PostResponse(file);
      } else if handler.demand.m == TRACE {
        rm := handler.TraceResponse(file);
      } else if handler.demand.m == OPTIONS {
        rm := handler.OptionsResponse(file);
      } else if handler.demand.m == SERVERCHECK {
        rm := handler.ServerCheckResponse(file);
      } else {
        rm := handler.ErrorResponse(file);
      }
    }

    /** The switch over the methods.  Printing, the last statement of every answer, follows it. */
    method RespondBy(d: Demand, file: FileResult) returns (ok: bool, msg: HTTPMessage)
      requires Fits(d, file)
      ensures (ok <==> Respond(d, file).Sent?) && (ok ==> Carries(msg, Respond(d, file)))
    {
      var handler := new ResponseHandler(d);
      var rm: HTTPWriter?;
      if d.m in {GET, HEAD, PUT, DELETE} {
        rm := FileCase(handler, file);
      } else {
        rm := OtherCase(handler, file);
      }
      ok, msg := rm != null, Zeros(HTTP_MSG_SIZE);
      if ok {
        msg := rm.ConstructHTTPMsg();
      }
    }

    method ParseHTTPMsg(file: FileResult) returns (end: End)
      requires |startLineQueue| >= 3 ==> Fits(DemandOf(startLineQueue, headerQueue, body, requestMsg, maxLoad), file)
      modifies this
      ensures |old(startLineQueue)| < 3 ==> end == Broke
      ensures |old(startLineQueue)| >= 3 ==>
                var r := Respond(old(DemandOf(startLineQueue, headerQueue, body, requestMsg, maxLoad)), file);
                if end == Broke then r == Undefined else responseMsg.Some? && Carries(responseMsg.value, r)
    {
      var state, finish := PARSE_START_LINE, false;
      var url, error := "", "";
      var m: Option<Method> := None;
      ghost var d := if |startLineQueue| >= 3 then DemandOf(startLineQueue, headerQueue, body, requestMsg, maxLoad)
                     else Demand(ERROR, "", [], "", "", "", "");
      while !finish
        invariant state == PARSE_START_LINE ==> startLineQueue == old(startLineQueue) && !finish && error == ""
        invariant state == PARSE_HEADER ==> |old(startLineQueue)| >= 3
        invariant state == PARSE_HEADER ==>
                    d == if m.Some? then Demand(m.value, url, headerQueue, body, requestMsg, maxLoad, error)
                         else Demand(ERROR, url, headerQueue, body, requestMsg, maxLoad, HEAD405)
        invariant finish ==> state == PARSE_HEADER && responseMsg.Some? && Carries(responseMsg.value, Respond(d, file))
        invariant headerQueue == old(headerQueue) && body == old(body) && maxLoad == old(maxLoad)
        decreases if state == PARSE_START_LINE then 2 else if finish then 0 else 1
      {
        if state == PARSE_START_LINE {
          if |startLineQueue| < 3 {
            return Broke;
          }
          var version := startLineQueue[2];
          m, url := MethodOf(startLineQueue[0]), startLineQueue[1];
          startLineQueue := startLineQueue[3..];
          if version != "HTTP/1.1" {
            error := HEAD505;
            m := Some(ERROR);
          }
          state := PARSE_HEADER;
        } else {
          if m.None? {
            error := HEAD405;
            m := Some(ERROR);
          }
          var ok, msg := RespondBy(Demand(m.value, url, headerQueue, body, requestMsg, maxLoad, error), file);
          if !ok {
            return Broke;
          }
          responseMsg := Some(msg);
          finish := true;
        }
      }
      return Returned;
    }

    /** The first loop of the reader: the start line, if there is one, and the index after it. */
    method ReadStartLine() returns (index: nat)
      requires Fresh() && |requestMsg| >= 2
      modifies this`startLine, this`startLineQueue
      ensures var eol := Find(requestMsg, CRLF, 0);
              && startLine == (if eol.Some? then requestMsg[..eol.value] else "")
              && index == (if eol.Some? then eol.value + 2 else 0)
              && (startLine != "" ==> startLineQueue == Words(startLine))
    {
      index := 0;
      var i := 0;
      while i <= |requestMsg| - 2
        invariant 0 <= i <= |requestMsg| - 1 && Find(requestMsg, CRLF, 0) == Find(requestMsg, CRLF, i)
        invariant startLine == "" && startLineQueue == [] && index == 0
      {
        EolIsCrlf(requestMsg, i);
        FindStep(requestMsg, CRLF, i);
        if requestMsg[i] == '\r' && requestMsg[i + 1] == '\n' {
          startLine := requestMsg[index..i];
          index := i + 2;
          CheckStartLine();
          break;
        }
        i := i + 1;
      }
    }

    /** The second loop: the header with its last end of line, and the index after the empty line. */
    method ReadHeader(from: nat) returns (index: nat)
      requires header == "" && headerQueue == [] && |requestMsg| >= 4
      modifies this`header, this`headerQueue
      ensures var eoh := Find(requestMsg, CRLF2, from);
              && header == (if eoh.Some? then requestMsg[from..eoh.value + 2] else "")
              && index == (if eoh.Some? then eoh.value + 4 else from)
              && (header != "" ==> headerQueue == HeaderLines(header))
    {
      index := from;
      var i := from;
      while i <= |requestMsg| - 4
        invariant from <= i && Find(requestMsg, CRLF2, from) == Find(requestMsg, CRLF2, i)
        invariant header == "" && headerQueue == [] && index == from
      {
        EolsAreCrlf2(requestMsg, i);
        FindStep(requestMsg, CRLF2, i);
        if requestMsg[i] == '\r' && requestMsg[i + 1] == '\n' &&
           requestMsg[i + 2] == '\r' && requestMsg[i + 3] == '\n' {
          header := requestMsg[index..i + 2];
          index := i + 4;
          CheckHeader();
          break;
        }
        i := i + 1;
      }
    }

    /** The third loop: the body up to the next end of line. */
    method ReadBody(from: nat)
      requires body == "" && |requestMsg| >= 2
      modifies this`body
      ensures body == BodyFrom(requestMsg, from)
    {
      var i := from;
      while i <= |requestMsg| - 2
        invariant from <= i && body == "" && Find(requestMsg, CRLF, from) == Find(requestMsg, CRLF, i)
      {
        EolIsCrlf(requestMsg, i);
        FindStep(requestMsg, CRLF, i);
        if requestMsg[i] == '\r' && requestMsg[i + 1] == '\n' {
          body := requestMsg[from..i];
          break;
        }
        i := i + 1;
      }
    }

    /** Reads the parts of the request. */
    method Read() returns (p: Parsed)
      requires Fresh()
      modifies this
      ensures p == Parse(requestMsg) && responseMsg.None? && maxLoad == old(maxLoad)
      ensures p.Parsed? ==> startLineQueue == Words(p.startLine)
      ensures p.Parsed? ==> headerQueue == HeaderLines(p.header) && body == p.body
    {
      if |requestMsg| == 0 {
        return NoStartLine;
      }
      if |requestMsg| == 1 {
        return Crashed;
      }
      var index := ReadStartLine();
      if startLine == "" {
        return NoStartLine;
      }
      if |requestMsg| == 3 {
        return Crashed;
      }
      index := ReadHeader(index);
      if header == "" {
        return NoHeader;
      }
      ReadBody(index);
      return Parsed(startLine, header, body);
    }

    /** Reads the request and answers it. */
    method Start(file: FileResult) returns (end: End)
      requires Fresh() && Printable(requestMsg, maxLoad, file)
      modifies this
      ensures var r := ReplyTo(requestMsg, old(maxLoad), file);
              && (end == Broke <==> r.Undefined?)
              && (r.Silent? ==> responseMsg.None?)
              && (r.Sent? ==> responseMsg.Some? && Carries(responseMsg.value, r))
    {
      var p := Read();
      match p {
        case Crashed => return Broke;
        case NoStartLine | NoHeader => return Returned;
        case Parsed(_, _, _) => end := ParseHTTPMsg(file);
      }
    }
  }
}
