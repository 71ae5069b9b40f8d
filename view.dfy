/** The text and layout arithmetic of the terminal view: cutting a cell to its
    column width, wrapping the item and error views to the screen, the rows of
    the item list that are on screen, and the count the delete prompt shows.
    Go strings are byte strings; here each character stands for one byte. */
module View {
  import opened GoStrings

  // ---------------------------------------------------------------------------
  // truncate

  /** truncate: a string that fits is kept; a longer one is cut to the width,
      its last three places given to "..." when the width leaves room. A
      negative width would make the slice panic, so widths are at least 0. */
  function Truncate(s: string, maxLen: int): (r: string)
    requires maxLen >= 0
    ensures |r| == if |s| <= maxLen then |s| else maxLen
    ensures r == s <==> |s| <= maxLen
    ensures |s| > maxLen > 3 ==> r[..maxLen - 3] == s[..maxLen - 3] && r[maxLen - 3..] == "..."
    ensures |s| > maxLen && maxLen <= 3 ==> r == s[..maxLen]
  {
    if |s| <= maxLen then s
    else if maxLen <= 3 then s[..maxLen]
    else s[..maxLen - 3] + "..."
  }

  // ---------------------------------------------------------------------------
  // Lines

  /** strings.Join with "\n". */
  function Join(ls: seq<string>): string {
    if ls == [] then ""
    else if |ls| == 1 then ls[0]
    else Join(ls[..|ls| - 1]) + "\n" + ls[|ls| - 1]
  }

  lemma {:induction false} JoinCons(x: string, rest: seq<string>)
    requires rest != []
    ensures Join([x] + rest) == x + "\n" + Join(rest)
    decreases |rest|
  {
    var ls := [x] + rest;
    if |rest| > 1 {
      assert ls[..|ls| - 1] == [x] + rest[..|rest| - 1];
      JoinCons(x, rest[..|rest| - 1]);
    } else {
      assert ls[..|ls| - 1] == [x];
    }
  }

  /** strings.Split with "\n": the pieces between the newlines, at least one. */
  function Lines(s: string): (ls: seq<string>)
    ensures |ls| >= 1 && Join(ls) == s
    ensures forall i :: 0 <= i < |ls| ==> '\n' !in ls[i]
    decreases |s|
  {
    var i := IndexOf(s, '\n');
    if i == -1 then [s]
    else
      var rest := Lines(s[i + 1..]);
      JoinCons(s[..i], rest);
      assert s == s[..i] + "\n" + s[i + 1..];
      [s[..i]] + rest
  }

  /** Joining lines without newlines and splitting again gives the lines back. */
  lemma {:induction false} LinesOfJoin(ps: seq<string>)
    requires |ps| >= 1 && forall i :: 0 <= i < |ps| ==> '\n' !in ps[i]
    ensures Lines(Join(ps)) == ps
    decreases |ps|
  {
    if |ps| > 1 {
      var s := Join(ps);
      JoinCons(ps[0], ps[1..]);
      assert ps == [ps[0]] + ps[1..];
      assert s == ps[0] + "\n" + Join(ps[1..]);
      assert s[|ps[0]|] == '\n';
      assert forall j :: 0 <= j < |ps[0]| ==> s[j] == ps[0][j];
      assert IndexOf(s, '\n') == |ps[0]|;
      assert s[..|ps[0]|] == ps[0];
      assert s[|ps[0]| + 1..] == Join(ps[1..]);
      LinesOfJoin(ps[1..]);
    }
  }

  // ---------------------------------------------------------------------------
  // wrapText

  /** strings.TrimLeft with " ": the string without its leading spaces. */
  function TrimLeftSpaces(s: string): (r: string)
    ensures |r| <= |s| && r == s[|s| - |r|..]
    ensures forall i :: 0 <= i < |s| - |r| ==> s[i] == ' '
    ensures r == [] || r[0] != ' '
  {
    if s != [] && s[0] == ' ' then TrimLeftSpaces(s[1..]) else s
  }

  function LastSpace(line: string, i: int, w: int): (b: int)
    requires 0 <= i < w < |line|
    ensures 1 <= b <= w
    ensures b < w ==> b <= i && line[b] == ' ' && forall j :: b < j <= i ==> line[j] != ' '
    ensures b == w ==> forall j :: 0 < j <= i ==> line[j] != ' '
  {
    if i == 0 then w
    else if line[i] == ' ' then i
    else LastSpace(line, i - 1, w)
  }

  /** Where a line longer than the width is cut: at the last space among
      places 1 to width-1, or at the width when there is none. */
  function BreakAt(line: string, w: int): (b: int)
    requires 0 < w < |line|
    ensures 1 <= b <= w
    ensures b < w ==> line[b] == ' ' && forall j :: b < j < w ==> line[j] != ' '
    ensures b == w ==> forall j :: 0 < j < w ==> line[j] != ' '
  {
    LastSpace(line, w - 1, w)
  }

  /** The backward scan for the break point. */
  method FindBreak(line: string, maxWidth: int) returns (breakAt: int)
    requires 0 < maxWidth < |line|
    ensures breakAt == BreakAt(line, maxWidth)
  {
    breakAt := maxWidth;
    var i := maxWidth - 1;
    while i > 0
      invariant 0 <= i <= maxWidth - 1
      invariant LastSpace(line, maxWidth - 1, maxWidth) == LastSpace(line, i, maxWidth)
    {
      if line[i] == ' ' {
        breakAt := i;
        break;
      }
      i := i - 1;
    }
  }

  /** The lines one input line is wrapped into: cut at the break point, the
      spaces at the start of the rest dropped, until what is left fits. */
  function Pieces(line: string, w: int): (ps: seq<string>)
    requires w > 0
    ensures |ps| >= 1
    ensures forall i :: 0 <= i < |ps| ==> |ps[i]| <= w
    ensures '\n' !in line ==> forall i :: 0 <= i < |ps| ==> '\n' !in ps[i]
    decreases |line|
  {
    if |line| <= w then [line]
    else
      var b := BreakAt(line, w);
      var rest := TrimLeftSpaces(line[b..]);
      assert forall c :: c in rest ==> c in line;
      [line[..b]] + Pieces(rest, w)
  }

  /** The wrapped lines of all input lines, in order. */
  function AllPieces(ls: seq<string>, w: int): (ps: seq<string>)
    requires w > 0
    ensures |ls| >= 1 ==> |ps| >= 1
  {
    if ls == [] then [] else AllPieces(ls[..|ls| - 1], w) + Pieces(ls[|ls| - 1], w)
  }

  /** wrapText: the input unchanged for a width of 0 or less; otherwise every
      line wrapped, joined with newlines. */
  function Wrap(s: string, w: int): string {
    if w <= 0 then s else Join(AllPieces(Lines(s), w))
  }

  /** What the builder holds: every line written followed by a newline. */
  function Terminated(ps: seq<string>): string {
    if ps == [] then "" else Terminated(ps[..|ps| - 1]) + ps[|ps| - 1] + "\n"
  }

  lemma {:induction false} TerminatedJoin(ps: seq<string>)
    requires |ps| >= 1
    ensures Terminated(ps) == Join(ps) + "\n"
    decreases |ps|
  {
    if |ps| > 1 {
      TerminatedJoin(ps[..|ps| - 1]);
    } else {
      assert ps[..0] == [];
    }
  }

  lemma TerminatedSnoc(ps: seq<string>, p: string)
    ensures Terminated(ps + [p]) == Terminated(ps) + p + "\n"
  {
    assert (ps + [p])[..|ps|] == ps;
  }

  /** The wrapping loops: split into lines, and while a line is too long
      write it up to the break point and a newline and go on with the rest
      without its leading spaces; then drop the final newline. */
  method WrapText(s: string, maxWidth: int) returns (r: string)
    ensures r == Wrap(s, maxWidth)
  {
    if maxWidth <= 0 {
      return s;
    }
    var lines := Lines(s);
    var result := "";
    var k := 0;
    while k < |lines|
      invariant 0 <= k <= |lines|
      invariant result == Terminated(AllPieces(lines[..k], maxWidth))
    {
      var line := lines[k];
      ghost var before := AllPieces(lines[..k], maxWidth);
      ghost var done: seq<string> := [];
      assert before + done == before;
      while |line| > maxWidth
        invariant done + Pieces(line, maxWidth) == Pieces(lines[k], maxWidth)
        invariant result == Terminated(before + done)
        decreases |line|
      {
        var breakAt := FindBreak(line, maxWidth);
        PieceStep(before, done, line, maxWidth);
        result := result + line[..breakAt] + "\n";
        done := done + [line[..breakAt]];
        line := TrimLeftSpaces(line[breakAt..]);
      }
      LastPiece(lines, k, before, done, line, maxWidth);
      result := result + line + "\n";
      k := k + 1;
    }
    assert lines[..k] == lines;
    TerminatedJoin(AllPieces(lines, maxWidth));
    r := result[..|result| - 1];
  }

  /** One turn of the inner loop: the piece written is the next one of the line. */
  lemma PieceStep(before: seq<string>, done: seq<string>, line: string, w: int)
    requires 0 < w < |line|
    ensures var b := BreakAt(line, w);
      Terminated(before + (done + [line[..b]])) == Terminated(before + done) + line[..b] + "\n"
      && done + Pieces(line, w) == (done + [line[..b]]) + Pieces(TrimLeftSpaces(line[b..]), w)
  {
    var b := BreakAt(line, w);
    var piece := line[..b];
    Assoc(before, done, [piece]);
    TerminatedSnoc(before + done, piece);
    assert Pieces(line, w) == [piece] + Pieces(TrimLeftSpaces(line[b..]), w);
    Assoc(done, [piece], Pieces(TrimLeftSpaces(line[b..]), w));
  }

  /** The end of the inner loop: what is left of the line is its last piece. */
  lemma LastPiece(lines: seq<string>, k: nat, before: seq<string>, done: seq<string>, line: string, w: int)
    requires k < |lines| && 0 < w && |line| <= w
    requires before == AllPieces(lines[..k], w)
    requires done + Pieces(line, w) == Pieces(lines[k], w)
    ensures Terminated(before + done) + line + "\n" == Terminated(AllPieces(lines[..k + 1], w))
  {
    PrefixStep(lines, k);
    assert AllPieces(lines[..k + 1], w) == before + Pieces(lines[k], w);
    assert Pieces(line, w) == [line];
    Assoc(before, done, [line]);
    TerminatedSnoc(before + done, line);
  }

  lemma Assoc<T>(a: seq<T>, b: seq<T>, c: seq<T>)
    ensures (a + b) + c == a + (b + c)
  {
  }

  lemma PrefixStep<T>(s: seq<T>, k: nat)
    requires k < |s|
    ensures s[..k + 1][..k] == s[..k] && s[..k + 1][k] == s[k]
  {
  }

  // ---------------------------------------------------------------------------
  // What wrapping keeps

  lemma {:induction false} AllPiecesFit(ls: seq<string>, w: int)
    requires w > 0 && forall i :: 0 <= i < |ls| ==> '\n' !in ls[i]
    ensures forall i :: 0 <= i < |AllPieces(ls, w)| ==> |AllPieces(ls, w)[i]| <= w && '\n' !in AllPieces(ls, w)[i]
  {
    if ls != [] {
      AllPiecesFit(ls[..|ls| - 1], w);
    }
  }

  /** Every line of the wrapped text fits the width. */
  lemma WrappedLinesFit(s: string, w: int)
    requires w > 0
    ensures forall i :: 0 <= i < |Lines(Wrap(s, w))| ==> |Lines(Wrap(s, w))[i]| <= w
  {
    AllPiecesFit(Lines(s), w);
    LinesOfJoin(AllPieces(Lines(s), w));
  }

  lemma {:induction false} AllPiecesOfShortLines(ls: seq<string>, w: int)
    requires w > 0 && forall i :: 0 <= i < |ls| ==> |ls[i]| <= w
    ensures AllPieces(ls, w) == ls
  {
    if ls != [] {
      AllPiecesOfShortLines(ls[..|ls| - 1], w);
      assert ls[..|ls| - 1] + [ls[|ls| - 1]] == ls;
    }
  }

  /** Text whose lines all fit, or a width of 0 or less, is left as it is. */
  lemma WrapUnchanged(s: string, w: int)
    requires w <= 0 || forall line :: line in Lines(s) ==> |line| <= w
    ensures Wrap(s, w) == s
  {
    if w > 0 {
      var ls := Lines(s);
      assert forall i :: 0 <= i < |ls| ==> ls[i] in ls;
      AllPiecesOfShortLines(ls, w);
    }
  }

  predicate Blank(c: char) { c == ' ' || c == '\n' }

  /** The text with its spaces and newlines taken out. */
  function NonBlank(s: string): string {
    if s == [] then [] else (if Blank(s[0]) then [] else [s[0]]) + NonBlank(s[1..])
  }

  lemma {:induction false} NonBlankAppend(a: string, b: string)
    ensures NonBlank(a + b) == NonBlank(a) + NonBlank(b)
  {
    if a == [] {
      assert a + b == b;
    } else {
      assert (a + b)[1..] == a[1..] + b;
      NonBlankAppend(a[1..], b);
    }
  }

  lemma {:induction false} NonBlankLeadingSpaces(s: string)
    ensures NonBlank(TrimLeftSpaces(s)) == NonBlank(s)
  {
    if s != [] && s[0] == ' ' {
      NonBlankLeadingSpaces(s[1..]);
    }
  }

  /** The non-blank text of each line, run together. */
  function NonBlankAll(ps: seq<string>): string {
    if ps == [] then [] else NonBlankAll(ps[..|ps| - 1]) + NonBlank(ps[|ps| - 1])
  }

  lemma {:induction false} NonBlankAllAppend(a: seq<string>, b: seq<string>)
    ensures NonBlankAll(a + b) == NonBlankAll(a) + NonBlankAll(b)
    decreases |b|
  {
    if b == [] {
      assert a + b == a;
    } else {
      assert (a + b)[..|a + b| - 1] == a + b[..|b| - 1];
      NonBlankAllAppend(a, b[..|b| - 1]);
    }
  }

  lemma {:induction false} NonBlankJoin(ps: seq<string>)
    ensures NonBlank(Join(ps)) == NonBlankAll(ps)
  {
    if |ps| == 1 {
      assert ps[..0] == [];
    } else if |ps| > 1 {
      NonBlankJoin(ps[..|ps| - 1]);
      NonBlankAppend(Join(ps[..|ps| - 1]), "\n");
      NonBlankAppend(Join(ps[..|ps| - 1]) + "\n", ps[|ps| - 1]);
      assert NonBlank("\n") == [];
    }
  }

  lemma {:induction false} PiecesKeepText(line: string, w: int)
    requires w > 0
    ensures NonBlankAll(Pieces(line, w)) == NonBlank(line)
    decreases |line|
  {
    if |line| <= w {
      assert [line][..0] == [];
    } else {
      var b := BreakAt(line, w);
      var rest := TrimLeftSpaces(line[b..]);
      PiecesKeepText(rest, w);
      NonBlankAllCons(line[..b], Pieces(rest, w));
      CutKeepsText(line, b);
    }
  }

  lemma NonBlankAllCons(p: string, ps: seq<string>)
    ensures NonBlankAll([p] + ps) == NonBlank(p) + NonBlankAll(ps)
  {
    NonBlankAllAppend([p], ps);
    assert [p][..0] == [];
  }

  /** Cutting a line and dropping the spaces after the cut loses no text. */
  lemma CutKeepsText(line: string, b: nat)
    requires b <= |line|
    ensures NonBlank(line[..b]) + NonBlank(TrimLeftSpaces(line[b..])) == NonBlank(line)
  {
    Cut(line, b);
    SpacesAfterCut(line[..b], line[b..]);
  }

  lemma SpacesAfterCut(x: string, y: string)
    ensures NonBlank(x) + NonBlank(TrimLeftSpaces(y)) == NonBlank(x + y)
  {
    NonBlankAppend(x, y);
    NonBlankLeadingSpaces(y);
  }

  lemma Cut<T>(s: seq<T>, b: nat)
    requires b <= |s|
    ensures s[..b] + s[b..] == s
  {
  }

  lemma {:induction false} AllPiecesKeepText(ls: seq<string>, w: int)
    requires w > 0
    ensures NonBlankAll(AllPieces(ls, w)) == NonBlankAll(ls)
  {
    if ls != [] {
      AllPiecesKeepText(ls[..|ls| - 1], w);
      NonBlankAllAppend(AllPieces(ls[..|ls| - 1], w), Pieces(ls[|ls| - 1], w));
      PiecesKeepText(ls[|ls| - 1], w);
    }
  }

  /** Wrapping only adds newlines and drops spaces: without its spaces and
      newlines the wrapped text is the input without its spaces and newlines. */
  lemma WrapKeepsText(s: string, w: int)
    ensures NonBlank(Wrap(s, w)) == NonBlank(s)
  {
    if w > 0 {
      NonBlankJoin(AllPieces(Lines(s), w));
      AllPiecesKeepText(Lines(s), w);
      NonBlankJoin(Lines(s));
    }
  }

  // ---------------------------------------------------------------------------
  // The item list

  /** The rows of the item list on screen: the first page while the cursor is
      on it, otherwise the page that ends at the cursor; never past the end. */
  function VisibleWindow(cursor: int, visibleRows: int, n: int): (w: (int, int))
    ensures 0 <= cursor < n && visibleRows >= 1 ==>
      0 <= w.0 <= cursor < w.1 <= n && w.1 - w.0 <= visibleRows
    ensures 0 <= cursor < n && visibleRows >= 1 && cursor >= visibleRows ==> w.1 == cursor + 1
    ensures 0 <= cursor < visibleRows ==> w.0 == 0 && w.1 == if visibleRows > n then n else visibleRows
  {
    var startIdx := if cursor >= visibleRows then cursor - visibleRows + 1 else 0;
    var endIdx := if startIdx + visibleRows > n then n else startIdx + visibleRows;
    (startIdx, endIdx)
  }

  /** The number the delete prompt shows: the selected rows, or the row under
      the cursor when none is selected. */
  function DeleteCount(selected: set<int>): (count: int)
    ensures count >= 1
    ensures selected != {} ==> count == |selected|
    ensures selected == {} ==> count == 1
  {
    if |selected| == 0 then 1 else |selected|
  }
}
