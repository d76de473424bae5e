/** Text files read line by line: where splitlines breaks a text, and what an append adds to it. */
module Lines {
  /** Where splitlines breaks a text. */
  predicate Boundary(c: char) {
    c in {'\n', '\r', '\U{000b}', '\U{000c}', '\U{001c}', '\U{001d}', '\U{001e}', '\U{0085}', '\U{2028}', '\U{2029}'}
  }

  predicate Clean(line: string) {
    forall c <- line :: !Boundary(c)
  }

  /** The three boundaries a JSON writer leaves as they are when it keeps non-ASCII text. */
  predicate Separated(s: string) {
    '\U{0085}' in s || '\U{2028}' in s || '\U{2029}' in s
  }

  /** What JSON lets stand before a value inside one line. */
  predicate Spaces(s: string) {
    forall c <- s :: c == ' ' || c == '\t'
  }

  /** What strip removes inside one line. */
  predicate Whitespace(s: string) {
    forall c <- s ::
      || c in {' ', '\t', '\U{001f}', '\U{00a0}', '\U{1680}', '\U{202f}', '\U{205f}', '\U{3000}'}
      || '\U{2000}' <= c <= '\U{200a}'
  }

  /** The pieces between boundaries; text after the last boundary is a line of its own. */
  function Pieces(current: string, text: string): (pieces: seq<string>)
    ensures |pieces| > 0
    decreases text
  {
    if text == [] then [current]
    else if Boundary(text[0]) then [current] + Pieces([], text[1..])
    else Pieces(current + [text[0]], text[1..])
  }

  /** The lines of a text that a boundary ends. */
  function Finished(text: string): seq<string> {
    var pieces := Pieces([], text);
    pieces[..|pieces| - 1]
  }

  /** What follows the last boundary: an append continues it. */
  function Tail(text: string): string {
    var pieces := Pieces([], text);
    pieces[|pieces| - 1]
  }

  /** Reading on after a prefix: the last piece of the prefix is still open. */
  lemma {:induction false} PiecesOfSum(current: string, a: string, b: string)
    ensures var first := Pieces(current, a);
      Pieces(current, a + b) == first[..|first| - 1] + Pieces(first[|first| - 1], b)
    decreases a
  {
    if a == [] {
      assert a + b == b;
    } else {
      assert (a + b)[1..] == a[1..] + b;
      if Boundary(a[0]) {
        PiecesOfSum([], a[1..], b);
      } else {
        PiecesOfSum(current + [a[0]], a[1..], b);
      }
    }
  }

  lemma {:induction false} CleanIsOnePiece(current: string, line: string)
    requires Clean(line)
    ensures Pieces(current, line) == [current + line]
    decreases line
  {
    if line == [] {
      assert current + line == current;
    } else {
      CleanIsOnePiece(current + [line[0]], line[1..]);
      assert current + [line[0]] + line[1..] == current + line;
    }
  }

  /** Every piece but the open first one holds no boundary. */
  lemma {:induction false} PiecesAreClean(current: string, text: string)
    requires Clean(current)
    ensures forall piece <- Pieces(current, text) :: Clean(piece)
    decreases text
  {
    if text != [] {
      if Boundary(text[0]) {
        PiecesAreClean([], text[1..]);
      } else {
        PiecesAreClean(current + [text[0]], text[1..]);
      }
    }
  }

  lemma TailIsClean(text: string)
    ensures Clean(Tail(text))
  {
    PiecesAreClean([], text);
  }

  /** A line that holds a boundary is cut at its first one. */
  lemma {:induction false} CutAtFirstBoundary(open: string, line: string) returns (k: nat)
    requires !Clean(line)
    ensures k < |line| && Boundary(line[k]) && Pieces(open, line)[0] == open + line[..k]
    decreases line
  {
    if Boundary(line[0]) {
      k := 0;
      assert open + line[..0] == open;
    } else {
      k := CutAtFirstBoundary(open + [line[0]], line[1..]);
      k := k + 1;
      assert open + [line[0]] + line[1..][..k - 1] == open + line[..k];
    }
  }

  lemma PiecesOfNewline(open: string)
    ensures Pieces(open, "\n") == [open, []]
  {
    assert "\n"[1..] == "";
    assert [open] + Pieces([], "") == [open, []];
  }

  /** An append of one line keeps the finished lines and continues the open one. */
  lemma PiecesOfAppend(text: string, line: string)
    ensures Pieces([], text + line + "\n") == Finished(text) + Pieces(Tail(text), line) + [[]]
    ensures Finished(text + line + "\n") == Finished(text) + Pieces(Tail(text), line) && Tail(text + line + "\n") == []
  {
    hide Pieces;
    assert text + line + "\n" == text + (line + "\n");
    PiecesOfSum([], text, line + "\n");
    PiecesOfSum(Tail(text), line, "\n");
    var last := Pieces(Tail(text), line);
    PiecesOfNewline(last[|last| - 1]);
    assert last[..|last| - 1] + [last[|last| - 1], []] == last + [[]];
  }

  // ---- Finding a line by its only brace ----

  function LastBrace(s: string): int {
    if s == [] then -1 else if s[|s| - 1] == '{' then |s| - 1 else LastBrace(s[..|s| - 1])
  }

  lemma {:induction false} LastBraceOfSum(a: string, b: string)
    requires b != [] && b[0] == '{' && '{' !in b[1..]
    ensures LastBrace(a + b) == |a|
  {
    if |b| > 1 {
      var n := |b| - 1;
      assert b[n] == b[1..][n - 1] && (a + b)[..|a| + n] == a + b[..n];
      LastBraceOfSum(a, b[..n]);
    }
  }
}
