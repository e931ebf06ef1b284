/** Reading a rendered table back: lines, column spans and cells. */
module TableLaws {
  import opened Common
  import opened Strings
  import opened Tables

  /** Where column i starts. */
  function Offset(widths: seq<nat>, i: nat): nat
    requires i <= |widths|
  {
    if i == 0 then 0 else Offset(widths, i - 1) + widths[i - 1] + 2
  }

  /** The length of the first n columns with what separates them. */
  function Extent(widths: seq<nat>, n: nat): (e: nat)
    requires n <= |widths|
  {
    if n == 0 then 0 else Offset(widths, n - 1) + widths[n - 1]
  }

  ghost predicate Fits(cells: Row, widths: seq<nat>) {
    forall i: nat :: i < |widths| ==> |CellAt(cells, i)| <= widths[i]
  }

  lemma PadLength(c: string, width: nat, align: Alignment)
    requires |c| <= width
    ensures |Pad(c, width, align)| == width
  {
  }

  lemma {:induction false} LineLength(cells: Row, widths: seq<nat>, aligns: seq<Alignment>, n: nat)
    requires n <= |widths| && Fits(cells, widths)
    ensures |Line(cells, widths, aligns, n)| == Extent(widths, n)
  {
    if n > 0 {
      LineLength(cells, widths, aligns, n - 1);
      PadLength(CellAt(cells, n - 1), widths[n - 1], AlignOf(aligns, n - 1));
    }
  }

  /** piece stands in s from position a on. */
  ghost predicate StandsAt(s: string, a: nat, piece: string) {
    a + |piece| <= |s| && s[a..a + |piece|] == piece
  }

  lemma StandsInPrefix(s: string, t: string, a: nat, piece: string)
    requires StandsAt(s, a, piece)
    ensures StandsAt(s + t, a, piece)
  {
    assert (s + t)[a..a + |piece|] == s[a..a + |piece|];
  }

  lemma StandsAtEnd(s: string, piece: string)
    ensures StandsAt(s + piece, |s|, piece)
  {
    assert (s + piece)[|s|..|s| + |piece|] == piece;
  }

  lemma GapEndsAtOffset(cells: Row, widths: seq<nat>, aligns: seq<Alignment>, i: nat)
    requires i < |widths| && Fits(cells, widths)
    ensures |Line(cells, widths, aligns, i) + Gap(i)| == Offset(widths, i)
  {
    LineLength(cells, widths, aligns, i);
  }

  function Piece(cells: Row, widths: seq<nat>, aligns: seq<Alignment>, i: nat): string
    requires i < |widths|
  {
    Pad(CellAt(cells, i), widths[i], AlignOf(aligns, i))
  }

  /** Column i of a line is cell i, padded: in every line at the same place. */
  lemma {:induction false} CellSpan(cells: Row, widths: seq<nat>, aligns: seq<Alignment>, n: nat, i: nat)
    requires i < n <= |widths| && Fits(cells, widths)
    ensures StandsAt(Line(cells, widths, aligns, n), Offset(widths, i), Piece(cells, widths, aligns, i))
  {
    var line, last := Line(cells, widths, aligns, n - 1), Piece(cells, widths, aligns, n - 1);
    if i < n - 1 {
      CellSpan(cells, widths, aligns, n - 1, i);
      StandsInPrefix(line, Gap(n - 1), Offset(widths, i), Piece(cells, widths, aligns, i));
      StandsInPrefix(line + Gap(n - 1), last, Offset(widths, i), Piece(cells, widths, aligns, i));
    } else {
      GapEndsAtOffset(cells, widths, aligns, i);
      StandsAtEnd(line + Gap(i), last);
    }
  }

  /** piece follows the first m columns. */
  lemma GapAfter(cells: Row, widths: seq<nat>, aligns: seq<Alignment>, m: nat, piece: string)
    requires 0 < m < |widths| && Fits(cells, widths) && piece == Gap(m)
    ensures StandsAt(Line(cells, widths, aligns, m) + Gap(m), Extent(widths, m), piece)
  {
    LineLength(cells, widths, aligns, m);
    StandsAtEnd(Line(cells, widths, aligns, m), piece);
  }

  lemma LineExtends(cells: Row, widths: seq<nat>, aligns: seq<Alignment>, n: nat, at: nat, piece: string)
    requires n < |widths| && StandsAt(Line(cells, widths, aligns, n) + Gap(n), at, piece)
    ensures StandsAt(Line(cells, widths, aligns, n + 1), at, piece)
  {
    StandsInPrefix(Line(cells, widths, aligns, n) + Gap(n), Piece(cells, widths, aligns, n), at, piece);
  }

  lemma {:induction false} LineKeeps(cells: Row, widths: seq<nat>, aligns: seq<Alignment>, m: nat, n: nat, at: nat, piece: string)
    requires m <= n <= |widths| && StandsAt(Line(cells, widths, aligns, m), at, piece)
    ensures StandsAt(Line(cells, widths, aligns, n), at, piece)
  {
    if m < n {
      LineKeeps(cells, widths, aligns, m, n - 1, at, piece);
      StandsInPrefix(Line(cells, widths, aligns, n - 1), Gap(n - 1), at, piece);
      LineExtends(cells, widths, aligns, n - 1, at, piece);
    }
  }

  /** After every column but the last stands the gap. */
  lemma GapSpan(cells: Row, widths: seq<nat>, aligns: seq<Alignment>, m: nat, piece: string)
    requires 0 < m < |widths| && Fits(cells, widths) && piece == Gap(m)
    ensures StandsAt(FullLine(cells, widths, aligns), Extent(widths, m), piece)
  {
    GapAfter(cells, widths, aligns, m, piece);
    LineExtends(cells, widths, aligns, m, Extent(widths, m), piece);
    LineKeeps(cells, widths, aligns, m + 1, |widths|, Extent(widths, m), piece);
  }

  lemma StandsParts(s: string, a: nat, x: string, y: string)
    requires StandsAt(s, a, x + y)
    ensures StandsAt(s, a, x) && StandsAt(s, a + |x|, y)
  {
    var piece := s[a..a + |x + y|];
    assert piece[..|x|] == x && piece[|x|..] == y;
    assert s[a..a + |x|] == piece[..|x|] && s[a + |x|..a + |x| + |y|] == piece[|x|..];
  }

  predicate Blank(s: string) {
    forall i :: 0 <= i < |s| ==> s[i] == ' '
  }

  /** From a on, w characters hold c at their left or right end and are blank otherwise. */
  ghost predicate Holds(l: string, a: nat, w: nat, c: string, right: bool) {
    && |c| <= w && a + w <= |l|
    && if right then StandsAt(l, a + (w - |c|), c) && Blank(l[a..a + (w - |c|)])
       else StandsAt(l, a, c) && Blank(l[a + |c|..a + w])
  }

  /** Column i of l holds c at its left or right end, blank otherwise, with two spaces before the next column. */
  ghost predicate Shows(l: string, widths: seq<nat>, i: nat, c: string, right: bool)
    requires i < |widths|
  {
    && Holds(l, Offset(widths, i), widths[i], c, right)
    && (i + 1 < |widths| ==> StandsAt(l, Offset(widths, i) + widths[i], "  ") && Offset(widths, i + 1) == Offset(widths, i) + widths[i] + 2)
  }

  lemma SpacesAreBlank(l: string, a: nat, n: nat)
    requires StandsAt(l, a, Spaces(n))
    ensures Blank(l[a..a + n])
  {
  }

  lemma PadHolds(l: string, a: nat, w: nat, c: string, align: Alignment)
    requires |c| <= w && StandsAt(l, a, Pad(c, w, align))
    ensures Holds(l, a, w, c, align == AlignRight)
  {
    var n := w - |c|;
    if align == AlignRight {
      StandsParts(l, a, Spaces(n), c);
      SpacesAreBlank(l, a, n);
    } else {
      StandsParts(l, a, c, Spaces(n));
      SpacesAreBlank(l, a + |c|, n);
    }
  }

  // ---- Trimming -----------------------------------------------------------

  /** No white space at either end. */
  predicate Bare(c: string) {
    c != "" ==> !IsSpace(c[0]) && !IsSpace(c[|c| - 1])
  }

  lemma {:induction false} TrimLeftSpaces(n: nat, c: string)
    requires c != "" ==> !IsSpace(c[0])
    ensures TrimLeft(Repeat(' ', n) + c) == c
  {
    var s := Repeat(' ', n) + c;
    if n > 0 {
      assert s[1..] == Repeat(' ', n - 1) + c;
      TrimLeftSpaces(n - 1, c);
    } else {
      assert s == c;
    }
  }

  lemma {:induction false} TrimRightSpaces(n: nat, c: string)
    requires c != "" ==> !IsSpace(c[|c| - 1])
    ensures TrimRight(c + Repeat(' ', n)) == c
  {
    var s := c + Repeat(' ', n);
    if n > 0 {
      assert s[..|s| - 1] == c + Repeat(' ', n - 1);
      TrimRightSpaces(n - 1, c);
    } else {
      assert s == c;
    }
  }

  lemma TrimAfter(n: nat, c: string)
    requires Bare(c)
    ensures TrimSpace(c + Repeat(' ', n)) == c
  {
    if c == "" {
      assert c + Repeat(' ', n) == Repeat(' ', n) + c;
      TrimLeftSpaces(n, c);
    } else {
      assert (c + Repeat(' ', n))[0] == c[0];
      TrimRightSpaces(n, c);
    }
  }

  lemma TrimBefore(n: nat, c: string)
    requires Bare(c)
    ensures TrimSpace(Repeat(' ', n) + c) == c
  {
    TrimLeftSpaces(n, c);
  }

  /** Trimming undoes padding, on either side. */
  lemma TrimUndoesPad(c: string, width: nat, align: Alignment)
    requires Bare(c)
    ensures TrimSpace(Pad(c, width, align)) == c
  {
    var n := if width < |c| then 0 else width - |c|;
    TrimBefore(n, c);
    TrimAfter(n, c);
  }

  // ---- Lines of the text --------------------------------------------------

  /** The newline-terminated lines of a text. */
  function SplitLines(s: string): seq<string>
    decreases |s|
  {
    var (l, rest) := CutAt(s, '\n');
    if rest.None? then [] else [l] + SplitLines(rest.value)
  }

  lemma {:induction false} CutAfter(l: string, s: string)
    requires '\n' !in l
    ensures CutAt(l + "\n" + s, '\n') == (l, Some(s))
  {
    var t := l + "\n" + s;
    if l == "" {
      assert t[1..] == s && t[0] == '\n';
    } else {
      CutAfter(l[1..], s);
      assert t[0] == l[0] && t[1..] == l[1..] + "\n" + s;
      assert [l[0]] + l[1..] == l;
    }
  }

  lemma {:induction false} TextFront(lines: seq<string>)
    requires lines != []
    ensures Text(lines) == lines[0] + "\n" + Text(lines[1..])
  {
    var n := |lines| - 1;
    if n > 0 {
      TextFront(lines[..n]);
      assert lines[..n][1..] == lines[1..][..n - 1];
      var first, mid, last := lines[0] + "\n", Text(lines[1..][..n - 1]), lines[n];
      assert Text(lines[1..]) == mid + last + "\n";
      assert (first + mid) + last + "\n" == first + (mid + last + "\n");
    } else {
      assert lines[1..] == [];
      assert "" + lines[0] + "\n" == lines[0] + "\n" + "";
    }
  }

  lemma {:induction false} SplitText(lines: seq<string>)
    requires forall j :: 0 <= j < |lines| ==> '\n' !in lines[j]
    ensures SplitLines(Text(lines)) == lines
  {
    if lines != [] {
      TextFront(lines);
      CutAfter(lines[0], Text(lines[1..]));
      SplitText(lines[1..]);
    }
  }

  /** No cell holds a newline. */
  ghost predicate OneLine(cells: Row) {
    forall i :: 0 <= i < |cells| ==> '\n' !in cells[i]
  }

  lemma PadHasNoNewline(c: string, width: nat, align: Alignment)
    requires '\n' !in c
    ensures '\n' !in Pad(c, width, align)
  {
    InConcat(c, Spaces(width - |c|), '\n');
    InConcat(Spaces(width - |c|), c, '\n');
  }

  lemma {:induction false} LineHasNoNewline(cells: Row, widths: seq<nat>, aligns: seq<Alignment>, n: nat)
    requires n <= |widths| && OneLine(cells)
    ensures '\n' !in Line(cells, widths, aligns, n)
  {
    if n > 0 {
      LineHasNoNewline(cells, widths, aligns, n - 1);
      var line, pad := Line(cells, widths, aligns, n - 1), Pad(CellAt(cells, n - 1), widths[n - 1], AlignOf(aligns, n - 1));
      PadHasNoNewline(CellAt(cells, n - 1), widths[n - 1], AlignOf(aligns, n - 1));
      InConcat(line, Gap(n - 1), '\n');
      InConcat(line + Gap(n - 1), pad, '\n');
    }
  }

  lemma {:induction false} LinesAt(rows: seq<Row>, widths: seq<nat>, aligns: seq<Alignment>, j: nat)
    requires j < |rows|
    ensures Lines(rows, widths, aligns)[j] == FullLine(rows[j], widths, aligns)
  {
    if j < |rows| - 1 {
      LinesAt(rows[..|rows| - 1], widths, aligns, j);
    }
  }

  /** What line k of the table shows: the header, the dashes, or row k - 2. */
  function Shown(header: Row, rows: seq<Row>, k: nat): Row
    requires k < |rows| + 2
  {
    if k == 0 then header else if k == 1 then Dashes(Widths(header, rows)) else rows[k - 2]
  }

  lemma TableLineAt(header: Row, rows: seq<Row>, aligns: seq<Alignment>, k: nat)
    requires k < |rows| + 2
    ensures |TableLines(header, rows, aligns)| == |rows| + 2
    ensures TableLines(header, rows, aligns)[k] == FullLine(Shown(header, rows, k), Widths(header, rows), aligns)
  {
    if k >= 2 {
      LinesAt(rows, Widths(header, rows), aligns, k - 2);
    }
  }

  lemma ShownFits(header: Row, rows: seq<Row>, k: nat)
    requires k < |rows| + 2
    ensures Fits(Shown(header, rows, k), Widths(header, rows))
  {
    forall i: nat | i < |header|
      ensures |CellAt(Shown(header, rows, k), i)| <= Widths(header, rows)[i]
    {
      WidthIsLongest(header, rows, i);
    }
  }

  lemma TableSplits(header: Row, rows: seq<Row>, aligns: seq<Alignment>)
    requires OneLine(header) && forall j :: 0 <= j < |rows| ==> OneLine(rows[j])
    ensures SplitLines(Text(TableLines(header, rows, aligns))) == TableLines(header, rows, aligns)
  {
    var lines := TableLines(header, rows, aligns);
    TableLineAt(header, rows, aligns, 0);
    forall k | 0 <= k < |lines|
      ensures '\n' !in lines[k]
    {
      TableLineAt(header, rows, aligns, k);
      assert OneLine(Shown(header, rows, k));
      LineHasNoNewline(Shown(header, rows, k), Widths(header, rows), aligns, |header|);
    }
    SplitText(lines);
  }

  /** Column i of line l reads as cell c. */
  ghost predicate ReadsAs(l: string, widths: seq<nat>, i: nat, c: string)
    requires i < |widths|
  {
    && Offset(widths, i) + widths[i] <= |l|
    && (Bare(c) ==> TrimSpace(l[Offset(widths, i)..Offset(widths, i) + widths[i]]) == c)
  }

  lemma StandsReads(l: string, widths: seq<nat>, i: nat, c: string, align: Alignment)
    requires i < |widths| && |c| <= widths[i]
    requires StandsAt(l, Offset(widths, i), Pad(c, widths[i], align))
    ensures ReadsAs(l, widths, i, c)
  {
    var piece := Pad(c, widths[i], align);
    PadLength(c, widths[i], align);
    assert l[Offset(widths, i)..Offset(widths, i) + widths[i]] == piece;
    if Bare(c) {
      TrimUndoesPad(c, widths[i], align);
      assert TrimSpace(piece) == c;
    }
  }

  lemma LineReads(cells: Row, widths: seq<nat>, aligns: seq<Alignment>, i: nat)
    requires i < |widths| && Fits(cells, widths)
    ensures |FullLine(cells, widths, aligns)| == Extent(widths, |widths|)
    ensures ReadsAs(FullLine(cells, widths, aligns), widths, i, CellAt(cells, i))
  {
    LineLength(cells, widths, aligns, |widths|);
    CellSpan(cells, widths, aligns, |widths|, i);
    StandsReads(FullLine(cells, widths, aligns), widths, i, CellAt(cells, i), AlignOf(aligns, i));
  }

  /**
   * Reading back what Render wrote: as many lines as rows and two more, all of one length, and
   * column i at the same place in each; trimming that place gives the cell.
   */
  lemma ReadBack(header: Row, rows: seq<Row>, aligns: seq<Alignment>, k: nat, i: nat)
    requires OneLine(header) && forall j :: 0 <= j < |rows| ==> OneLine(rows[j])
    requires k < |rows| + 2 && i < |header|
    ensures var lines, w := SplitLines(Text(TableLines(header, rows, aligns))), Widths(header, rows);
      && |lines| == |rows| + 2
      && |lines[k]| == Extent(w, |w|)
      && ReadsAs(lines[k], w, i, CellAt(Shown(header, rows, k), i))
  {
    TableSplits(header, rows, aligns);
    TableLineAt(header, rows, aligns, k);
    ShownFits(header, rows, k);
    LineReads(Shown(header, rows, k), Widths(header, rows), aligns, i);
  }

  lemma LineShows(cells: Row, widths: seq<nat>, aligns: seq<Alignment>, i: nat)
    requires i < |widths| && Fits(cells, widths)
    ensures Shows(FullLine(cells, widths, aligns), widths, i, CellAt(cells, i), i < |aligns| && aligns[i] == AlignRight)
  {
    CellSpan(cells, widths, aligns, |widths|, i);
    if i + 1 < |widths| {
      GapSpan(cells, widths, aligns, i + 1, "  ");
    }
    PadHolds(FullLine(cells, widths, aligns), Offset(widths, i), widths[i], CellAt(cells, i), AlignOf(aligns, i));
  }

  /**
   * What stands in each line that Render writes: the header first, then dashes over the whole width of
   * every column, then the rows, each cell at the end of its column that the alignment says, the left
   * one where none is given.
   */
  lemma RenderShows(header: Row, rows: seq<Row>, aligns: seq<Alignment>, k: nat, i: nat)
    requires OneLine(header) && forall j :: 0 <= j < |rows| ==> OneLine(rows[j])
    requires k < |rows| + 2 && i < |header|
    ensures var lines, w := SplitLines(Text(TableLines(header, rows, aligns))), Widths(header, rows);
      var right := i < |aligns| && aligns[i] == AlignRight;
      && |lines| == |rows| + 2
      && (k == 0 ==> Shows(lines[k], w, i, header[i], right))
      && (k == 1 ==> Shows(lines[k], w, i, Repeat('-', w[i]), right))
      && (k >= 2 ==> Shows(lines[k], w, i, if i < |rows[k - 2]| then rows[k - 2][i] else "", right))
  {
    TableSplits(header, rows, aligns);
    TableLineAt(header, rows, aligns, k);
    ShownFits(header, rows, k);
    LineShows(Shown(header, rows, k), Widths(header, rows), aligns, i);
  }

  // ---- RenderTable --------------------------------------------------------

  lemma {:induction false} PlainLength(cells: Row, widths: seq<nat>, n: nat)
    requires n < |widths| && Fits(cells, widths)
    ensures |PlainLine(cells, widths, n)| == Offset(widths, n)
  {
    if n > 0 {
      PlainLength(cells, widths, n - 1);
      PadLength(CellAt(cells, n - 1), widths[n - 1], AlignLeft);
    }
  }

  lemma {:induction false} PlainSpan(cells: Row, widths: seq<nat>, n: nat, i: nat)
    requires i < n < |widths| && Fits(cells, widths)
    ensures StandsAt(PlainLine(cells, widths, n), Offset(widths, i), Pad(CellAt(cells, i), widths[i], AlignLeft))
  {
    var line, last := PlainLine(cells, widths, n - 1), Pad(CellAt(cells, n - 1), widths[n - 1], AlignLeft);
    if i < n - 1 {
      PlainSpan(cells, widths, n - 1, i);
      StandsInPrefix(line, last + "  ", Offset(widths, i), Pad(CellAt(cells, i), widths[i], AlignLeft));
    } else {
      PlainLength(cells, widths, i);
      StandsAtEnd(line, last);
      StandsInPrefix(line + last, "  ", Offset(widths, i), last);
      Assoc(line, last, "  ");
    }
  }

  /** Column i of plain line l reads as c; the last column runs to the line's end. */
  ghost predicate PlainReadsAs(l: string, widths: seq<nat>, i: nat, c: string)
    requires i < |widths|
  {
    if i == |widths| - 1 then Offset(widths, i) <= |l| && l[Offset(widths, i)..] == c
    else ReadsAs(l, widths, i, c)
  }

  lemma LastCellRunsOn(line: string, cell: string)
    ensures |line| <= |line + cell| && (line + cell)[|line|..] == cell
  {
  }

  lemma InnerCellReads(cells: Row, widths: seq<nat>, line: string, rest: string, i: nat)
    requires i < |widths| && Fits(cells, widths)
    requires StandsAt(line, Offset(widths, i), Pad(CellAt(cells, i), widths[i], AlignLeft))
    ensures ReadsAs(line + rest, widths, i, CellAt(cells, i))
  {
    StandsInPrefix(line, rest, Offset(widths, i), Pad(CellAt(cells, i), widths[i], AlignLeft));
    StandsReads(line + rest, widths, i, CellAt(cells, i), AlignLeft);
  }

  lemma PlainLineEnds(cells: Row, widths: seq<nat>)
    requires widths != []
    ensures var last := |widths| - 1; PlainLine(cells, widths, |widths|) == PlainLine(cells, widths, last) + CellAt(cells, last)
  {
  }

  lemma LastCellReads(cells: Row, widths: seq<nat>, last: nat)
    requires last == |widths| - 1 && Fits(cells, widths)
    ensures PlainReadsAs(PlainLine(cells, widths, last) + CellAt(cells, last), widths, last, CellAt(cells, last))
  {
    PlainLength(cells, widths, last);
    LastCellRunsOn(PlainLine(cells, widths, last), CellAt(cells, last));
  }

  lemma InnerReads(cells: Row, widths: seq<nat>, last: nat, i: nat)
    requires i < last == |widths| - 1 && Fits(cells, widths)
    ensures PlainReadsAs(PlainLine(cells, widths, last) + CellAt(cells, last), widths, i, CellAt(cells, i))
  {
    PlainSpan(cells, widths, last, i);
    InnerCellReads(cells, widths, PlainLine(cells, widths, last), CellAt(cells, last), i);
  }

  lemma PlainReads(cells: Row, widths: seq<nat>, i: nat)
    requires i < |widths| && Fits(cells, widths)
    ensures PlainReadsAs(PlainLine(cells, widths, |widths|), widths, i, CellAt(cells, i))
  {
    var last := |widths| - 1;
    PlainLineEnds(cells, widths);
    if i < last {
      InnerReads(cells, widths, last, i);
    } else {
      LastCellReads(cells, widths, last);
    }
  }

  lemma {:induction false} PlainLinesAt(rows: seq<Row>, widths: seq<nat>, j: nat)
    requires j < |rows|
    ensures PlainLines(rows, widths)[j] == PlainLine(rows[j], widths, |widths|)
  {
    if j < |rows| - 1 {
      PlainLinesAt(rows[..|rows| - 1], widths, j);
    }
  }

  lemma {:induction false} PlainHasNoNewline(cells: Row, widths: seq<nat>, n: nat)
    requires n <= |widths| && OneLine(cells)
    ensures '\n' !in PlainLine(cells, widths, n)
  {
    if n > 0 {
      PlainHasNoNewline(cells, widths, n - 1);
      var c, w := CellAt(cells, n - 1), widths[n - 1];
      assert '\n' !in c && '\n' !in Spaces(w - |c|);
      assert '\n' !in Pad(c, w, AlignLeft) && '\n' !in Pad(c, w, AlignLeft) + "  ";
    }
  }

  lemma PlainSplits(rows: seq<Row>, widths: seq<nat>)
    requires forall j :: 0 <= j < |rows| ==> OneLine(rows[j])
    ensures SplitLines(Text(PlainLines(rows, widths))) == PlainLines(rows, widths)
  {
    forall j | 0 <= j < |rows|
      ensures '\n' !in PlainLines(rows, widths)[j]
    {
      PlainLinesAt(rows, widths, j);
      PlainHasNoNewline(rows[j], widths, |widths|);
    }
    SplitText(PlainLines(rows, widths));
  }

  lemma PlainFits(header: Row, rows: seq<Row>, k: nat)
    requires k <= |rows|
    ensures Fits(([header] + rows)[k], Widths(header, rows))
  {
    ShownFits(header, rows, if k == 0 then 0 else k + 1);
  }

  /**
   * Reading back what RenderTable wrote: one line for the header and one per row, every cell at its
   * column's place.
   */
  lemma PlainReadBack(header: Row, rows: seq<Row>, k: nat, i: nat)
    requires OneLine(header) && forall j :: 0 <= j < |rows| ==> OneLine(rows[j])
    requires k <= |rows| && i < |header|
    ensures var w, lines := Widths(header, rows), SplitLines(Text(PlainLines([header] + rows, Widths(header, rows))));
      |lines| == |rows| + 1 && PlainReadsAs(lines[k], w, i, CellAt(([header] + rows)[k], i))
  {
    var all, w := [header] + rows, Widths(header, rows);
    PlainSplits(all, w);
    PlainFits(header, rows, k);
    PlainLinesAt(all, w, k);
    PlainReads(all[k], w, i);
  }

  lemma {:induction false} PlainGap(cells: Row, widths: seq<nat>, n: nat, i: nat)
    requires i < n < |widths| && Fits(cells, widths)
    ensures StandsAt(PlainLine(cells, widths, n), Offset(widths, i) + widths[i], "  ")
  {
    var line, last := PlainLine(cells, widths, n - 1), Pad(CellAt(cells, n - 1), widths[n - 1], AlignLeft);
    if i < n - 1 {
      PlainGap(cells, widths, n - 1, i);
      StandsInPrefix(line, last + "  ", Offset(widths, i) + widths[i], "  ");
    } else {
      PlainLength(cells, widths, i);
      PadLength(CellAt(cells, i), widths[i], AlignLeft);
      StandsAtEnd(line + last, "  ");
      Assoc(line, last, "  ");
    }
  }

  /** What stands in each line that RenderTable writes: every cell but the last at the left of its column. */
  lemma PlainShows(header: Row, rows: seq<Row>, k: nat, i: nat)
    requires OneLine(header) && forall j :: 0 <= j < |rows| ==> OneLine(rows[j])
    requires k <= |rows| && i + 1 < |header|
    ensures var w, lines := Widths(header, rows), SplitLines(Text(PlainLines([header] + rows, Widths(header, rows))));
      |lines| == |rows| + 1
      && Shows(lines[k], w, i, if k == 0 then header[i] else if i < |rows[k - 1]| then rows[k - 1][i] else "", false)
  {
    var all, w := [header] + rows, Widths(header, rows);
    PlainSplits(all, w);
    PlainFits(header, rows, k);
    PlainLinesAt(all, w, k);
    PlainCellShows(all[k], w, i);
  }

  lemma PrefixShows(line: string, rest: string, widths: seq<nat>, i: nat, c: string)
    requires i + 1 < |widths| && |c| <= widths[i]
    requires StandsAt(line, Offset(widths, i), Pad(c, widths[i], AlignLeft))
    requires StandsAt(line, Offset(widths, i) + widths[i], "  ")
    ensures Shows(line + rest, widths, i, c, false)
  {
    StandsInPrefix(line, rest, Offset(widths, i), Pad(c, widths[i], AlignLeft));
    StandsInPrefix(line, rest, Offset(widths, i) + widths[i], "  ");
    PadHolds(line + rest, Offset(widths, i), widths[i], c, AlignLeft);
  }

  lemma PlainCellShows(cells: Row, widths: seq<nat>, i: nat)
    requires i + 1 < |widths| && Fits(cells, widths)
    ensures Shows(PlainLine(cells, widths, |widths|), widths, i, CellAt(cells, i), false)
  {
    var last := |widths| - 1;
    PlainLineEnds(cells, widths);
    PlainSpan(cells, widths, last, i);
    PlainGap(cells, widths, last, i);
    PrefixShows(PlainLine(cells, widths, last), CellAt(cells, last), widths, i, CellAt(cells, i));
  }
}
