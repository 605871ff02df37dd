/** What the reader makes of any message, well-formed or not, and when it answers at all. */
module Messages {
  import opened Options
  import opened Text
  import opened HttpWriter
  import opened HttpReader
  import opened Routing

  // ------------------------------------------------------------------ splitting any text

  lemma PieceIsFree(s: string, sep: string, from: nat, to: nat)
    requires sep != "" && from <= to <= |s| && forall i: nat :: from <= i && i + |sep| <= to ==> !At(s, sep, i)
    ensures Free(s[from..to], sep)
  {
    forall i: nat
      ensures !At(s[from..to], sep, i)
    {
      if i + |sep| <= to - from {
        Inside(s, from, s[from..to], sep, from + i);
      }
    }
  }

  /** The pieces hold no separator. */
  lemma {:induction false} PiecesAreFree(s: string, sep: string, from: nat)
    requires sep != "" && from <= |s|
    ensures AllFree(Split(s, sep, from), sep)
    decreases |s| - from
  {
    FindIsFirst(s, sep, from);
    var i := Find(s, sep, from);
    if i.Some? {
      PiecesAreFree(s, sep, i.value + |sep|);
      PieceIsFree(s, sep, from, i.value);
    } else if from < |s| {
      PieceIsFree(s, sep, from, |s|);
      assert s[from..|s|] == s[from..];
    }
  }

  lemma SplitFirst(s: string, sep: string, from: nat)
    requires sep != "" && from <= |s| && Find(s, sep, from).Some?
    ensures var i := Find(s, sep, from).value;
            i >= from && s[i..i + |sep|] == sep && Split(s, sep, from) == [s[from..i]] + Split(s, sep, i + |sep|)
  {
    FindIsFirst(s, sep, from);
    AtIsSlice(s, sep, Find(s, sep, from).value);
  }

  /** Joined they give the text back, with a separator at the end if it had none there. */
  lemma {:induction false} PiecesJoin(s: string, sep: string, from: nat)
    requires sep != "" && from <= |s|
    ensures Join(Split(s, sep, from), sep) == s[from..] || Join(Split(s, sep, from), sep) == s[from..] + sep
    decreases |s| - from
  {
    var i := Find(s, sep, from);
    if i.Some? {
      SplitFirst(s, sep, from);
      PiecesJoin(s, sep, i.value + |sep|);
      JoinPiece(s, sep, from, i.value, Split(s, sep, i.value + |sep|));
    } else if from < |s| {
      JoinFirst(s[from..], [], sep);
    }
  }

  lemma JoinPiece(s: string, sep: string, from: nat, i: nat, rest: seq<string>)
    requires from <= i && i + |sep| <= |s| && s[i..i + |sep|] == sep
    requires Join(rest, sep) == s[i + |sep|..] || Join(rest, sep) == s[i + |sep|..] + sep
    ensures var all := Join([s[from..i]] + rest, sep); all == s[from..] || all == s[from..] + sep
  {
    JoinFirst(s[from..i], rest, sep);
    SliceInThree(s, from, i, i + |sep|);
    Reassociate(s[from..i] + sep, s[i + |sep|..], sep);
  }

  lemma SliceInThree(s: string, a: nat, b: nat, c: nat)
    requires a <= b <= c <= |s|
    ensures s[a..] == s[a..b] + s[b..c] + s[c..]
  {
  }

  lemma JoinFirst(piece: string, rest: seq<string>, sep: string)
    ensures Join([piece] + rest, sep) == piece + sep + Join(rest, sep)
  {
    assert ([piece] + rest)[1..] == rest;
  }

  // ------------------------------------------------------------------ parsing any message

  /** The first end of line from `from` on is at `i`. */
  ghost predicate FirstEol(s: string, from: int, i: int) {
    0 <= from <= i && Eol(s, i) && forall j: nat :: from <= j < i ==> !Eol(s, j)
  }

  /** A line ends at `i`, and the one after it is empty. */
  predicate EmptyLine(s: string, i: nat) {
    Eol(s, i) && Eol(s, i + 2)
  }

  ghost predicate FirstEmptyLine(s: string, from: int, i: int) {
    0 <= from <= i && EmptyLine(s, i) && forall j: nat :: from <= j < i ==> !EmptyLine(s, j)
  }

  lemma FindEol(s: string, from: nat)
    ensures Find(s, CRLF, from).None? ==> forall j: nat :: from <= j ==> !Eol(s, j)
    ensures Find(s, CRLF, from).Some? ==> FirstEol(s, from, Find(s, CRLF, from).value)
  {
    FindIsFirst(s, CRLF, from);
    forall i: nat
      ensures Eol(s, i) <==> At(s, CRLF, i)
    {
      EolIsCrlf(s, i);
    }
  }

  lemma FirstEolFound(s: string, from: nat, i: nat)
    requires FirstEol(s, from, i)
    ensures Find(s, CRLF, from) == Some(i)
  {
    FindEol(s, from);
  }

  lemma FindEmptyLine(s: string, from: nat)
    ensures Find(s, CRLF2, from).None? ==> forall j: nat :: from <= j ==> !EmptyLine(s, j)
    ensures Find(s, CRLF2, from).Some? ==> FirstEmptyLine(s, from, Find(s, CRLF2, from).value)
  {
    FindIsFirst(s, CRLF2, from);
    forall i: nat
      ensures EmptyLine(s, i) <==> At(s, CRLF2, i)
    {
      EolsAreCrlf2(s, i);
    }
  }

  lemma FirstEmptyLineFound(s: string, from: nat, i: nat)
    requires FirstEmptyLine(s, from, i)
    ensures Find(s, CRLF2, from) == Some(i)
  {
    FindEmptyLine(s, from);
  }

  /** Some line ends, and the first one is not empty. */
  ghost predicate HasStartLine(msg: string) {
    !Eol(msg, 0) && exists i: nat :: Eol(msg, i)
  }

  /** What the three loops find: without a start line nothing is read, except that the bounds let a message of
      one character, or of three with a start line, run into its end. */
  lemma StartLineOutcome(msg: string)
    ensures Parse(msg).Crashed? <==> |msg| == 1 || (|msg| == 3 && HasStartLine(msg))
    ensures Parse(msg).NoStartLine? <==> |msg| != 1 && !HasStartLine(msg)
  {
    FindEol(msg, 0);
    var eol := Find(msg, CRLF, 0);
    if eol.Some? {
      assert Eol(msg, eol.value);
      assert eol.value == 0 <==> Eol(msg, 0);
    }
  }

  /** With a start line that ends at `e` there is no header without an empty line after it. */
  lemma NoHeaderOutcome(msg: string, e: nat)
    requires |msg| != 3 && 0 < e && FirstEol(msg, 0, e)
    ensures Parse(msg).NoHeader? <==> forall j: nat :: e + 2 <= j ==> !EmptyLine(msg, j)
  {
    FirstEolFound(msg, 0, e);
    FindEmptyLine(msg, e + 2);
    var eoh := Find(msg, CRLF2, e + 2);
    if eoh.Some? {
      assert EmptyLine(msg, eoh.value);
    }
  }

  /** The header goes up to the first empty line after the start line, and the body from there to the next end
      of line; the body is empty without one. */
  lemma PartsOutcome(msg: string, e: nat, h: nat)
    requires 0 < e && FirstEol(msg, 0, e) && FirstEmptyLine(msg, e + 2, h)
    ensures Parse(msg).Parsed?
    ensures Parse(msg).startLine == msg[..e] && Parse(msg).header == msg[e + 2..h + 2]
    ensures IsBody(msg, h + 4, Parse(msg).body)
  {
    FirstEolFound(msg, 0, e);
    FirstEmptyLineFound(msg, e + 2, h);
    BodyOutcome(msg, h + 4);
  }

  /** The text from there to the next end of line. */
  ghost predicate IsBody(msg: string, from: nat, body: string) {
    && (forall b :: FirstEol(msg, from, b) ==> body == msg[from..b])
    && ((forall j: nat :: from <= j ==> !Eol(msg, j)) ==> body == "")
  }

  lemma BodyOutcome(msg: string, from: nat)
    ensures IsBody(msg, from, BodyFrom(msg, from))
  {
    FindEol(msg, from);
    forall b | FirstEol(msg, from, b)
      ensures BodyFrom(msg, from) == msg[from..b]
    {
      FirstEolFound(msg, from, b);
    }
  }

  // ------------------------------------------------------------------ header lines

  /** The first colon of the line is at `c`. */
  predicate ColonFirst(line: string, c: int) {
    0 <= c < |line| && line[c] == ':' && ':' !in line[..c]
  }

  /** The first colon of the line is its last character. */
  predicate EndsAtColon(line: string) {
    ColonFirst(line, |line| - 1)
  }

  /** A line without colon leaves name and content of the line before; one that ends with its first colon
      cannot be read; of any other, the character after the colon is skipped, whatever it is. */
  lemma FieldOutcome(line: string, f: Fields)
    ensures ':' !in line ==> ReadField(line, f) == Some(f)
    ensures ReadField(line, f).None? <==> EndsAtColon(line)
    ensures forall c :: ColonFirst(line, c) && c + 1 < |line| ==>
              ReadField(line, f) == Some(Fields(line[..c], line[c + 2..], f.targetIp, f.targetPort, f.errorCode))
  {
    FindIsFirst(line, ":", 0);
    forall i: nat
      ensures At(line, ":", i) <==> i < |line| && line[i] == ':'
    {
      ColonAt(line, i);
    }
    forall c | ColonFirst(line, c)
      ensures Find(line, ":", 0) == Some(c)
    {
      assert forall i: nat :: i < c ==> line[..c][i] == line[i];
      FindIs(line, ":", 0, c);
    }
    if Find(line, ":", 0).Some? {
      ColonIsFirst(line, Find(line, ":", 0).value);
    }
  }

  lemma ColonIsFirst(line: string, c: nat)
    requires c < |line| && line[c] == ':' && forall i :: 0 <= i < c ==> line[i] != ':'
    ensures ColonFirst(line, c)
  {
    assert forall i :: 0 <= i < c ==> line[..c][i] == line[i];
  }

  /** Handling the header lines fails exactly if one of them ends with its first colon, wherever it stands. */
  lemma {:induction false} HandleFailsIff(lines: seq<string>, f: Fields, m: Method)
    ensures HandleAll(lines, f, m).None? <==> exists l :: l in lines && EndsAtColon(l)
    decreases |lines|
  {
    if lines != [] {
      FieldOutcome(lines[0], f);
      assert lines == [lines[0]] + lines[1..];
      var g := ReadField(lines[0], f);
      if g.Some? {
        HandleFailsIff(lines[1..], Dispatch(g.value, m), m);
      }
    }
  }

  // ------------------------------------------------------------------ whether there is an answer

  /** When the reader answers.  It is silent about a message without start line or header, and does not survive
      one that its loops run over, a start line of less than three words, or a header line that ends with its
      first colon; every other message gets an answer. */
  lemma ReaderAnswersIff(msg: string, maxLoad: string, file: FileResult)
    ensures var p, reply := Parse(msg), ReplyTo(msg, maxLoad, file);
            && (reply.Silent? <==> p.NoStartLine? || p.NoHeader?)
            && (reply.Sent? <==> p.Parsed? && |Words(p.startLine)| >= 3
                                 && forall l :: l in HeaderLines(p.header) ==> !EndsAtColon(l))
  {
    var p := Parse(msg);
    if p.Parsed? && |Words(p.startLine)| >= 3 {
      var d := DemandOf(Words(p.startLine), HeaderLines(p.header), p.body, msg, maxLoad);
      DemandErrors(Words(p.startLine), HeaderLines(p.header), p.body, msg, maxLoad);
      HandleFailsIff(d.lines, BLANK, d.m);
    }
  }

  // ------------------------------------------------------------------ what the balancer reads in any text

  /** The extractor gives the text between the first occurrence of the name and the next end of line. */
  lemma ExtractGives(text: string, target: string, content: string, k: nat, e: nat)
    requires target != "" && At(text, target, k) && forall i: nat :: i < k ==> !At(text, target, i)
    requires FirstEol(text, k + |target|, e)
    ensures Extract(text, target, content) == text[k + |target|..e]
  {
    FindIs(text, target, 0, k);
    FirstEolFound(text, k + |target|, e);
  }

  /** Where either is missing, the content stays what it was. */
  lemma ExtractKeeps(text: string, target: string, content: string)
    requires target != ""
    requires forall k: nat :: At(text, target, k) ==>
               (exists i: nat :: i < k && At(text, target, i)) || forall j: nat :: k + |target| <= j ==> !Eol(text, j)
    ensures Extract(text, target, content) == content
  {
    FindIsFirst(text, target, 0);
    var k := Find(text, target, 0);
    if k.Some? {
      FindEol(text, k.value + |target|);
    }
  }
}
