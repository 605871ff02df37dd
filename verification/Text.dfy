/** Searching and splitting text, as std::string and the hand-written scanning loops do it. */
module Text {
  import opened Options

  const CRLF := "\r\n"
  const CRLF2 := "\r\n\r\n"

  /** From its `k`-th character on, the pattern stands in the text as if it started at `i`. */
  predicate Matches(s: string, pat: string, i: nat, k: nat)
    requires k <= |pat|
    decreases |pat| - k
  {
    k == |pat| || (i + k < |s| && s[i + k] == pat[k] && Matches(s, pat, i, k + 1))
  }

  predicate At(s: string, pat: string, i: nat) {
    i + |pat| <= |s| && Matches(s, pat, i, 0)
  }

  lemma {:induction false} MatchesChars(s: string, pat: string, i: nat, k: nat)
    requires k <= |pat| && i + |pat| <= |s|
    ensures Matches(s, pat, i, k) <==> forall j :: k <= j < |pat| ==> s[i + j] == pat[j]
    decreases |pat| - k
  {
    if k < |pat| {
      MatchesChars(s, pat, i, k + 1);
    }
  }

  lemma AtIsSlice(s: string, pat: string, i: nat)
    ensures At(s, pat, i) <==> i + |pat| <= |s| && s[i..i + |pat|] == pat
  {
    if i + |pat| <= |s| {
      var t := s[i..i + |pat|];
      MatchesChars(s, pat, i, 0);
      assert forall j :: 0 <= j < |pat| ==> t[j] == s[i + j];
    }
  }

  /** A text has its parts where they were put. */
  lemma Placed(before: string, pat: string, after: string)
    ensures At(before + pat + after, pat, |before|)
  {
    AtIsSlice(before + pat + after, pat, |before|);
  }

  lemma Whole(s: string)
    ensures At(s, s, 0)
  {
    AtIsSlice(s, s, 0);
  }

  /** The first occurrence of `pat` at or after `from`. */
  function Find(s: string, pat: string, from: nat): (r: Option<nat>)
    ensures r.Some? ==> from <= r.value && r.value + |pat| <= |s|
    decreases |s| - from
  {
    if from + |pat| > |s| then None
    else if At(s, pat, from) then Some(from)
    else Find(s, pat, from + 1)
  }

  /** The result is an occurrence and there is none before it. */
  lemma {:induction false} FindIsFirst(s: string, pat: string, from: nat)
    ensures var r := Find(s, pat, from);
            && (r.Some? ==> At(s, pat, r.value))
            && (forall i: nat :: from <= i && (r.Some? ==> i < r.value) ==> !At(s, pat, i))
    decreases |s| - from
  {
    if from + |pat| <= |s| && !At(s, pat, from) {
      FindIsFirst(s, pat, from + 1);
    }
  }

  lemma FindIs(s: string, pat: string, from: nat, k: nat)
    requires from <= k && At(s, pat, k)
    requires forall i: nat :: from <= i < k ==> !At(s, pat, i)
    ensures Find(s, pat, from) == Some(k)
  {
    FindIsFirst(s, pat, from);
  }

  lemma {:induction false} FindFrom(s: string, pat: string, from: nat, later: nat)
    requires from <= later && forall i: nat :: from <= i < later ==> !At(s, pat, i)
    ensures Find(s, pat, from) == Find(s, pat, later)
    decreases later - from
  {
    if from < later && from + |pat| <= |s| {
      FindFrom(s, pat, from + 1, later);
    }
  }

  ghost predicate Free(s: string, pat: string) {
    forall i: nat :: !At(s, pat, i)
  }

  /** The test that the scanning loops make for an end of line. */
  predicate Eol(s: string, i: nat) {
    i + 1 < |s| && s[i] == '\r' && s[i + 1] == '\n'
  }

  lemma EolIsCrlf(s: string, i: nat)
    ensures Eol(s, i) <==> At(s, CRLF, i)
  {
    if i + 2 <= |s| {
      MatchesChars(s, CRLF, i, 0);
      assert CRLF[0] == '\r' && CRLF[1] == '\n';
    }
  }

  /** The pieces between separators from `from` on; an empty last piece is not a piece. */
  function Split(s: string, sep: string, from: nat): (r: seq<string>)
    requires sep != "" && from <= |s|
    decreases |s| - from
  {
    var i := Find(s, sep, from);
    if i.Some? then [s[from..i.value]] + Split(s, sep, i.value + |sep|)
    else if from < |s| then [s[from..]]
    else []
  }

  lemma FindStep(s: string, pat: string, i: nat)
    requires i + |pat| <= |s|
    ensures Find(s, pat, i) == if At(s, pat, i) then Some(i) else Find(s, pat, i + 1)
  {
  }

  lemma EolStep(s: string, i: nat)
    requires i + 2 <= |s|
    ensures Find(s, CRLF, i) == if s[i] == '\r' && s[i + 1] == '\n' then Some(i) else Find(s, CRLF, i + 1)
  {
    EolIsCrlf(s, i);
    FindStep(s, CRLF, i);
  }

  /** One round of a splitting loop: the piece up to the separator goes to the end of the queue. */
  lemma NextPiece(queue: seq<string>, s: string, sep: string, index: nat)
    requires sep != "" && index <= |s| && Find(s, sep, index).Some?
    ensures var i := Find(s, sep, index).value;
            queue + Split(s, sep, index) == queue + [s[index..i]] + Split(s, sep, i + |sep|)
  {
  }

  lemma LastPiece(s: string, sep: string, index: nat)
    requires sep != "" && index <= |s| && Find(s, sep, index).None?
    ensures Split(s, sep, index) == if index < |s| then [s[index..]] else []
  {
  }

  /** Pieces with the separator after each of them. */
  function Join(pieces: seq<string>, sep: string): string {
    if pieces == [] then "" else pieces[0] + sep + Join(pieces[1..], sep)
  }

  lemma {:induction false} JoinAppend(pieces: seq<string>, piece: string, sep: string)
    ensures Join(pieces + [piece], sep) == Join(pieces, sep) + piece + sep
  {
    var all := pieces + [piece];
    if pieces == [] {
      assert all[1..] == [];
      assert Join(all, sep) == piece + sep + "" == piece + sep;
    } else {
      assert all[0] == pieces[0] && all[1..] == pieces[1..] + [piece];
      JoinAppend(pieces[1..], piece, sep);
      assert pieces[0] + sep + (Join(pieces[1..], sep) + piece + sep)
          == pieces[0] + sep + Join(pieces[1..], sep) + piece + sep;
    }
  }

  lemma AtConcat(s: string, a: string, b: string, i: nat)
    ensures At(s, a + b, i) <==> At(s, a, i) && At(s, b, i + |a|)
  {
    AtIsSlice(s, a + b, i);
    AtIsSlice(s, a, i);
    AtIsSlice(s, b, i + |a|);
    if i + |a| + |b| <= |s| {
      assert s[i..i + |a + b|] == s[i..i + |a|] + s[i + |a|..i + |a| + |b|];
      assert (a + b)[..|a|] == a && (a + b)[|a|..] == b;
      SplitEqual(s[i..i + |a|], s[i + |a|..i + |a| + |b|], a, b);
    }
  }

  lemma SplitEqual(x: string, y: string, a: string, b: string)
    requires |x| == |a|
    ensures x + y == a + b <==> x == a && y == b
  {
    assert (x + y)[..|a|] == x && (x + y)[|a|..] == y;
    assert (a + b)[..|a|] == a && (a + b)[|a|..] == b;
  }

  lemma EolsAreCrlf2(s: string, i: nat)
    ensures Eol(s, i) && Eol(s, i + 2) <==> At(s, CRLF2, i)
  {
    EolIsCrlf(s, i);
    EolIsCrlf(s, i + 2);
    AtConcat(s, CRLF, CRLF, i);
    assert CRLF + CRLF == CRLF2;
  }

  /** A line without an end of line inside is cut off at the one that follows it. */
  lemma FindEndOfLine(s: string, from: nat, line: string)
    requires At(s, line + CRLF, from) && Free(line, CRLF)
    ensures forall i: nat :: from <= i < from + |line| ==> !At(s, CRLF, i)
    ensures At(s, CRLF, from + |line|)
    ensures Find(s, CRLF, from) == Some(from + |line|)
  {
    var k := from + |line|;
    AtConcat(s, line, CRLF, from);
    forall i: nat | from <= i < k
      ensures !At(s, CRLF, i)
    {
      EolIsCrlf(s, i);
      EolIsCrlf(s, k);
      EolIsCrlf(line, i - from);
      AtIsSlice(s, line, from);
      assert s[from..k] == line;
    }
    FindIs(s, CRLF, from, k);
  }

  lemma SpaceAt(s: string, i: nat)
    ensures At(s, " ", i) <==> i < |s| && s[i] == ' '
  {
    AtIsSlice(s, " ", i);
  }

  lemma SpaceStep(s: string, i: nat)
    requires i < |s|
    ensures Find(s, " ", i) == if s[i] == ' ' then Some(i) else Find(s, " ", i + 1)
  {
    SpaceAt(s, i);
    FindStep(s, " ", i);
  }

  /** A word without the separator inside is cut off at the separator that follows it. */
  lemma FindSeparator(s: string, from: nat, piece: string, sep: string)
    requires sep == CRLF || sep == " "
    requires At(s, piece + sep, from) && Free(piece, sep)
    ensures Find(s, sep, from) == Some(from + |piece|)
  {
    if sep == CRLF {
      FindEndOfLine(s, from, piece);
    } else {
      AtConcat(s, piece, sep, from);
      forall i: nat | from <= i < from + |piece|
        ensures !At(s, sep, i)
      {
        SpaceAt(s, i);
        SpaceAt(piece, i - from);
        AtIsSlice(s, piece, from);
        assert s[from..from + |piece|] == piece;
      }
      FindIs(s, sep, from, from + |piece|);
    }
  }

  lemma SplitStep(s: string, from: nat, piece: string, sep: string)
    requires sep == CRLF || sep == " "
    requires At(s, piece + sep, from) && Free(piece, sep)
    ensures Split(s, sep, from) == [piece] + Split(s, sep, from + |piece| + |sep|)
  {
    FindSeparator(s, from, piece, sep);
    AtConcat(s, piece, sep, from);
    AtIsSlice(s, piece, from);
  }

  ghost predicate AllFree(pieces: seq<string>, sep: string) {
    forall p :: p in pieces ==> Free(p, sep)
  }

  lemma SplitJoinStep(s: string, from: nat, pieces: seq<string>, sep: string)
    requires sep == CRLF || sep == " "
    requires pieces != [] && Free(pieces[0], sep)
    requires At(s, Join(pieces, sep), from)
    ensures var next := from + |pieces[0]| + |sep|;
            && At(s, Join(pieces[1..], sep), next)
            && next + |Join(pieces[1..], sep)| == from + |Join(pieces, sep)|
            && Split(s, sep, from) == [pieces[0]] + Split(s, sep, next)
  {
    AtConcat(s, pieces[0] + sep, Join(pieces[1..], sep), from);
    SplitStep(s, from, pieces[0], sep);
  }

  /** Splitting undoes joining. */
  lemma {:induction false} SplitJoin(s: string, from: nat, pieces: seq<string>, sep: string)
    requires sep == CRLF || sep == " "
    requires AllFree(pieces, sep)
    requires At(s, Join(pieces, sep), from) && |s| == from + |Join(pieces, sep)|
    ensures Split(s, sep, from) == pieces
    decreases |pieces|
  {
    if pieces != [] {
      SplitJoinStep(s, from, pieces, sep);
      assert AllFree(pieces[1..], sep);
      SplitJoin(s, from + |pieces[0]| + |sep|, pieces[1..], sep);
      assert [pieces[0]] + pieces[1..] == pieces;
    }
  }

  predicate ProperLine(l: string) {
    l != "" && Find(l, CRLF, 0).None?
  }

  lemma ProperLineIsFree(l: string)
    requires ProperLine(l)
    ensures Free(l, CRLF)
  {
    FindIsFirst(l, CRLF, 0);
  }

  /** Inside a line and at its end, the header does not end yet if another proper line follows. */
  lemma HeaderGoesOn(s: string, from: nat, l: string, next: string)
    requires ProperLine(next)
    requires At(s, l + CRLF, from) && Free(l, CRLF) && At(s, next + CRLF, from + |l| + 2)
    ensures forall i: nat :: from <= i < from + |l| + 2 ==> !At(s, CRLF2, i)
  {
    var k := from + |l|;
    FindEndOfLine(s, from, l);
    AtConcat(s, next, CRLF, k + 2);
    EolIsCrlf(s, k);
    forall i: nat | from <= i < k + 2
      ensures !At(s, CRLF2, i)
    {
      EolsAreCrlf2(s, i);
      EolIsCrlf(s, i);
      if i == k {
        EolIsCrlf(next, 0);
        ProperLineIsFree(next);
        AtIsSlice(s, next, k + 2);
        EolIsCrlf(s, k + 2 + |next|);
        assert s[k + 2..k + 2 + |next|] == next;
        assert !Eol(s, k + 2);
      }
    }
  }

  lemma HeaderStops(s: string, from: nat, l: string)
    requires At(s, l + CRLF, from) && Free(l, CRLF) && At(s, CRLF, from + |l| + 2)
    ensures Find(s, CRLF2, from) == Some(from + |l|)
  {
    var k := from + |l|;
    FindEndOfLine(s, from, l);
    EolIsCrlf(s, k);
    EolIsCrlf(s, k + 2);
    EolsAreCrlf2(s, k);
    forall i: nat | from <= i < k
      ensures !At(s, CRLF2, i)
    {
      EolsAreCrlf2(s, i);
      EolIsCrlf(s, i);
    }
    FindIs(s, CRLF2, from, k);
  }

  lemma JoinHead(lines: seq<string>, tail: string)
    requires lines != []
    ensures Join(lines, CRLF) + tail == (lines[0] + CRLF) + (Join(lines[1..], CRLF) + tail)
    ensures |Join(lines, CRLF)| == |lines[0]| + 2 + |Join(lines[1..], CRLF)|
  {
    Reassociate(lines[0] + CRLF, Join(lines[1..], CRLF), tail);
  }

  lemma Reassociate(a: string, b: string, c: string)
    ensures a + b + c == a + (b + c)
  {
  }

  ghost predicate AllProper(lines: seq<string>) {
    forall l :: l in lines ==> ProperLine(l)
  }

  /** The first line of several is in place, and so is the head of the next one. */
  lemma TwoLines(s: string, from: nat, lines: seq<string>)
    requires |lines| >= 2 && At(s, Join(lines, CRLF) + CRLF, from)
    ensures At(s, lines[0] + CRLF, from)
    ensures At(s, lines[1] + CRLF, from + |lines[0]| + 2)
    ensures At(s, Join(lines[1..], CRLF) + CRLF, from + |lines[0]| + 2)
  {
    JoinHead(lines, CRLF);
    AtConcat(s, lines[0] + CRLF, Join(lines[1..], CRLF) + CRLF, from);
    JoinHead(lines[1..], CRLF);
    AtConcat(s, lines[1] + CRLF, Join(lines[1..][1..], CRLF) + CRLF, from + |lines[0]| + 2);
  }

  lemma FindPastLine(s: string, from: nat, lines: seq<string>)
    requires |lines| >= 2 && ProperLine(lines[0]) && ProperLine(lines[1])
    requires At(s, Join(lines, CRLF) + CRLF, from)
    ensures var next := from + |lines[0]| + 2;
            && At(s, Join(lines[1..], CRLF) + CRLF, next)
            && next + |Join(lines[1..], CRLF)| == from + |Join(lines, CRLF)|
            && Find(s, CRLF2, from) == Find(s, CRLF2, next)
  {
    JoinHead(lines, CRLF);
    ProperLineIsFree(lines[0]);
    TwoLines(s, from, lines);
    HeaderGoesOn(s, from, lines[0], lines[1]);
    FindFrom(s, CRLF2, from, from + |lines[0]| + 2);
  }

  lemma FindAtOnlyLine(s: string, from: nat, l: string)
    requires ProperLine(l) && At(s, Join([l], CRLF) + CRLF, from)
    ensures |Join([l], CRLF)| == |l| + 2
    ensures Find(s, CRLF2, from) == Some(from + |l|)
  {
    JoinHead([l], CRLF);
    assert Join([l][1..], CRLF) + CRLF == CRLF;
    ProperLineIsFree(l);
    AtConcat(s, l + CRLF, CRLF, from);
    HeaderStops(s, from, l);
  }

  /** The header ends at the end of its last line, provided no line in it is empty. */
  lemma {:induction false} FindEndOfHeader(s: string, from: nat, lines: seq<string>)
    requires lines != [] && AllProper(lines)
    requires At(s, Join(lines, CRLF) + CRLF, from)
    ensures |Join(lines, CRLF)| >= 2
    ensures Find(s, CRLF2, from) == Some(from + |Join(lines, CRLF)| - 2)
    decreases |lines|
  {
    if |lines| == 1 {
      assert lines == [lines[0]];
      FindAtOnlyLine(s, from, lines[0]);
    } else {
      FindPastLine(s, from, lines);
      assert AllProper(lines[1..]);
      FindEndOfHeader(s, from + |lines[0]| + 2, lines[1..]);
    }
  }

  // ------------------------------------------------------------------ C strings

  /** The number of characters before the first NUL. */
  function StrLen(s: string, i: nat): (n: nat)
    requires i <= |s|
    ensures i <= n <= |s| && (n < |s| ==> s[n] == '\0')
    ensures forall k :: i <= k < n ==> s[k] != '\0'
    decreases |s| - i
  {
    if i == |s| || s[i] == '\0' then i else StrLen(s, i + 1)
  }

  /** What a C function sees of a text: everything before the first NUL. */
  function CStr(s: string): (r: string)
    ensures '\0' !in r
    ensures '\0' !in s ==> r == s
  {
    s[..StrLen(s, 0)]
  }

  lemma CStrUnique(s: string, t: string)
    requires '\0' !in t && t <= s && (|t| < |s| ==> s[|t|] == '\0')
    ensures CStr(s) == t
  {
    var n := StrLen(s, 0);
    assert forall k :: 0 <= k < |t| ==> s[k] == t[k];
  }
}
