/** The text tables: column widths, Table.Render with its alignment, and the plain RenderTable. */
module Tables {
  import opened Common

  datatype Alignment = AlignLeft | AlignRight

  type Row = seq<string>

  // ---- Column widths ------------------------------------------------------

  /** The longest of the header and the rows in column i; rows may be short or long. */
  function WidthAt(header: Row, rows: seq<Row>, i: nat): nat
    requires i < |header|
  {
    if rows == [] then |header[i]|
    else
      var r := rows[|rows| - 1];
      var w := WidthAt(header, rows[..|rows| - 1], i);
      if i < |r| && |r[i]| > w then |r[i]| else w
  }

  function Widths(header: Row, rows: seq<Row>): (w: seq<nat>)
    ensures |w| == |header|
    ensures forall i :: 0 <= i < |header| ==> w[i] == WidthAt(header, rows, i)
  {
    seq(|header|, (i: nat) requires i < |header| => WidthAt(header, rows, i))
  }

  /** A cell's text; a short row has empty cells at its end. */
  function CellAt(cells: Row, i: nat): string {
    if i < |cells| then cells[i] else ""
  }

  /** Every cell fits its column, and some cell fills it. */
  lemma {:induction false} WidthIsLongest(header: Row, rows: seq<Row>, i: nat)
    requires i < |header|
    ensures |header[i]| <= WidthAt(header, rows, i)
    ensures forall j :: 0 <= j < |rows| ==> |CellAt(rows[j], i)| <= WidthAt(header, rows, i)
    ensures |header[i]| == WidthAt(header, rows, i)
         || exists j :: 0 <= j < |rows| && |CellAt(rows[j], i)| == WidthAt(header, rows, i)
  {
    if rows != [] {
      var n := |rows| - 1;
      WidthIsLongest(header, rows[..n], i);
      assert forall j :: 0 <= j < n ==> rows[..n][j] == rows[j];
      var w := WidthAt(header, rows[..n], i);
      if |CellAt(rows[n], i)| <= w && |header[i]| != w {
        var j :| 0 <= j < n && |CellAt(rows[..n][j], i)| == w;
        assert |CellAt(rows[j], i)| == w;
      }
    }
  }

  method ComputeWidths(header: Row, rows: seq<Row>) returns (widths: array<nat>)
    ensures fresh(widths) && widths[..] == Widths(header, rows)
  {
    widths := new nat[|header|];
    var i := 0;
    while i < |header|
      invariant 0 <= i <= |header|
      invariant forall k :: 0 <= k < i ==> widths[k] == |header[k]|
    {
      widths[i] := |header[i]|;
      i := i + 1;
    }
    var j := 0;
    while j < |rows|
      invariant 0 <= j <= |rows|
      invariant forall k :: 0 <= k < |header| ==> widths[k] == WidthAt(header, rows[..j], k)
    {
      var r := rows[j];
      ghost var before, after := rows[..j], rows[..j + 1];
      TakeBack(rows, j);
      i := 0;
      while i < |r|
        invariant 0 <= i <= |r|
        invariant forall k :: 0 <= k < |header| ==>
          widths[k] == WidthAt(header, if k < i then after else before, k)
      {
        if i < |header| && |r[i]| > widths[i] {
          widths[i] := |r[i]|;
        }
        i := i + 1;
      }
      j := j + 1;
    }
    TakeAll(rows, j);
  }

  // ---- Lines --------------------------------------------------------------

  function Repeat(c: char, n: nat): (s: string)
    ensures |s| == n && forall k :: 0 <= k < n ==> s[k] == c
  {
    seq(n, (_: nat) => c)
  }

  function Spaces(n: int): string {
    Repeat(' ', if n < 0 then 0 else n)
  }

  function AlignOf(aligns: seq<Alignment>, i: nat): Alignment {
    if i < |aligns| then aligns[i] else AlignLeft
  }

  function Pad(c: string, width: nat, align: Alignment): string {
    if align == AlignRight then Spaces(width - |c|) + c else c + Spaces(width - |c|)
  }

  /** What stands between column i and the one before it. */
  function Gap(i: nat): string {
    if i > 0 then "  " else ""
  }

  /** The first n columns of a line. */
  function Line(cells: Row, widths: seq<nat>, aligns: seq<Alignment>, n: nat): string
    requires n <= |widths|
  {
    if n == 0 then ""
    else Line(cells, widths, aligns, n - 1) + Gap(n - 1) + Pad(CellAt(cells, n - 1), widths[n - 1], AlignOf(aligns, n - 1))
  }

  function FullLine(cells: Row, widths: seq<nat>, aligns: seq<Alignment>): string {
    Line(cells, widths, aligns, |widths|)
  }

  function Dashes(widths: seq<nat>): (r: Row)
    ensures |r| == |widths| && forall i :: 0 <= i < |widths| ==> r[i] == Repeat('-', widths[i])
  {
    seq(|widths|, (i: nat) requires i < |widths| => Repeat('-', widths[i]))
  }

  function Lines(rows: seq<Row>, widths: seq<nat>, aligns: seq<Alignment>): (r: seq<string>)
    ensures |r| == |rows|
  {
    if rows == [] then []
    else Lines(rows[..|rows| - 1], widths, aligns) + [FullLine(rows[|rows| - 1], widths, aligns)]
  }

  /** Every line with its newline. */
  function Text(lines: seq<string>): string {
    if lines == [] then "" else Text(lines[..|lines| - 1]) + lines[|lines| - 1] + "\n"
  }

  /** The header, the separator and the rows. */
  function TableLines(header: Row, rows: seq<Row>, aligns: seq<Alignment>): seq<string> {
    var widths := Widths(header, rows);
    [FullLine(header, widths, aligns), FullLine(Dashes(widths), widths, aligns)] + Lines(rows, widths, aligns)
  }

  lemma TextSnoc(lines: seq<string>, l: string)
    ensures Text(lines + [l]) == Text(lines) + l + "\n"
  {
    SnocTake(lines, l);
  }

  /** A short row with empty cells added up to n columns. */
  function FillRow(row: Row, n: nat): (r: Row)
    ensures |r| == if |row| < n then n else |row|
    ensures forall i: nat :: CellAt(r, i) == CellAt(row, i)
  {
    if |row| < n then row + seq(n - |row|, (_: nat) => "") else row
  }

  /** Empty cells at the end of a row are what a short row stands for. */
  lemma FilledLine(row: Row, n: nat, widths: seq<nat>, aligns: seq<Alignment>)
    ensures FullLine(FillRow(row, n), widths, aligns) == FullLine(row, widths, aligns)
  {
    SameLine(FillRow(row, n), row, widths, aligns, |widths|);
  }

  lemma Regroup(b: string, line: string, gap: string, piece: string)
    ensures ((b + line) + gap) + piece == b + ((line + gap) + piece)
  {
  }

  lemma AppendCell(b: string, out: string, cells: Row, widths: seq<nat>, aligns: seq<Alignment>, i: nat)
    requires i < |widths| && out == b + Line(cells, widths, aligns, i)
    ensures (out + Gap(i)) + Pad(CellAt(cells, i), widths[i], AlignOf(aligns, i)) == b + Line(cells, widths, aligns, i + 1)
  {
    Regroup(b, Line(cells, widths, aligns, i), Gap(i), Pad(CellAt(cells, i), widths[i], AlignOf(aligns, i)));
  }

  /** Column i of a line, after what stands before it. */
  method WriteCell(out: string, i: nat, c: string, width: nat, align: Alignment) returns (r: string)
    ensures r == (out + Gap(i)) + Pad(c, width, align)
  {
    r := out;
    if i > 0 {
      r := r + "  ";
    }
    var pad := width - |c|;
    if pad < 0 {
      pad := 0;
    }
    assert r == out + Gap(i);
    r := r + if align == AlignRight then Repeat(' ', pad) + c else c + Repeat(' ', pad);
  }

  class Table {
    const header: Row
    var rows: seq<Row>

    constructor (header: Row)
      ensures this.header == header && rows == []
    {
      this.header := header;
      rows := [];
    }

    method AddRow(cells: Row)
      modifies this
      ensures rows == old(rows) + [cells]
    {
      rows := rows + [cells];
    }

    /** None is the index-out-of-range panic of a cell beyond the last column. */
    method WriteOneRow(cells: Row, widths: array<nat>, aligns: seq<Alignment>, b: string) returns (r: Option<string>)
      requires widths.Length == |header|
      ensures r.None? <==> |cells| > |header|
      ensures |cells| == |header| ==> r == Some(b + FullLine(cells, widths[..], aligns) + "\n")
    {
      var out := b;
      ghost var w := widths[..];
      var i := 0;
      while i < |cells|
        invariant 0 <= i <= |cells| && i <= widths.Length
        invariant out == b + Line(cells, w, aligns, i)
      {
        if i >= widths.Length {
          return None;
        }
        ghost var before := out;
        out := WriteCell(out, i, cells[i], widths[i], AlignOf(aligns, i));
        AppendCell(b, before, cells, w, aligns, i);
        i := i + 1;
      }
      r := Some(out + "\n");
    }

    method WriteSeparator(widths: array<nat>, aligns: seq<Alignment>, b: string) returns (out: string)
      ensures out == b + FullLine(Dashes(widths[..]), widths[..], aligns) + "\n"
    {
      out := b;
      ghost var w := widths[..];
      var i := 0;
      while i < widths.Length
        invariant 0 <= i <= widths.Length
        invariant out == b + Line(Dashes(w), w, aligns, i)
      {
        ghost var before := out;
        if i > 0 {
          out := out + "  ";
        }
        assert out == before + Gap(i);
        out := out + Repeat('-', widths[i]);
        PadFull(Repeat('-', w[i]), AlignOf(aligns, i));
        AppendCell(b, before, Dashes(w), w, aligns, i);
        i := i + 1;
      }
      out := out + "\n";
    }

    /** A row of the body, padded to the header's length. */
    method WriteBodyRow(cells: Row, widths: array<nat>, aligns: seq<Alignment>, b: string) returns (r: Option<string>)
      requires widths.Length == |header|
      ensures r.None? <==> |cells| > |header|
      ensures r.Some? ==> r.value == b + FullLine(cells, widths[..], aligns) + "\n"
    {
      var row := if |cells| < |header| then FillRow(cells, |header|) else cells;
      FilledLine(cells, |header|, widths[..], aligns);
      r := WriteOneRow(row, widths, aligns, b);
    }

    /** Panics exactly when some row is longer than the header; otherwise writes all the lines. */
    method Render(aligns: seq<Alignment>) returns (r: Option<string>)
      ensures r.None? <==> exists j :: 0 <= j < |rows| && |rows[j]| > |header|
      ensures r.Some? ==> r.value == Text(TableLines(header, rows, aligns))
    {
      var widths := ComputeWidths(header, rows);
      ghost var w := widths[..];
      var b := WriteOneRow(header, widths, aligns, "");
      var out := WriteSeparator(widths, aligns, b.value);
      ghost var h, d := FullLine(header, w, aligns), FullLine(Dashes(w), w, aligns);
      TextOfTwo(h, d);
      r := WriteBody(widths, aligns, out, [h, d]);
    }

    /** The rows of the body after the lines that are already written. */
    method WriteBody(widths: array<nat>, aligns: seq<Alignment>, b: string, ghost top: seq<string>) returns (r: Option<string>)
      requires widths.Length == |header| && b == Text(top)
      ensures r.None? <==> exists j :: 0 <= j < |rows| && |rows[j]| > |header|
      ensures r.Some? ==> r.value == Text(top + Lines(rows, widths[..], aligns))
    {
      var body, out := rows, b;
      ghost var w, n := widths[..], |header|;
      assert top + Lines([], w, aligns) == top;
      var j := 0;
      while j < |body|
        invariant 0 <= j <= |body|
        invariant RowsFit(body[..j], n)
        invariant out == Text(top + Lines(body[..j], w, aligns))
      {
        var next := WriteBodyRow(body[j], widths, aligns, out);
        if next.None? {
          return None;
        }
        AppendLine(top, body, w, aligns, j);
        RowsFitStep(body, n, j);
        out := next.value;
        j := j + 1;
      }
      TakeAll(body, j);
      r := Some(out);
    }
  }

  ghost predicate RowsFit(rows: seq<Row>, n: nat) {
    forall j :: 0 <= j < |rows| ==> |rows[j]| <= n
  }

  lemma RowsFitStep(rows: seq<Row>, n: nat, j: nat)
    requires j < |rows| && RowsFit(rows[..j], n) && |rows[j]| <= n
    ensures RowsFit(rows[..j + 1], n)
  {
    assert forall k :: 0 <= k < j ==> rows[..j + 1][k] == rows[..j][k];
  }

  lemma AppendLine(top: seq<string>, rows: seq<Row>, widths: seq<nat>, aligns: seq<Alignment>, j: nat)
    requires j < |rows|
    ensures Text(top + Lines(rows[..j + 1], widths, aligns))
         == Text(top + Lines(rows[..j], widths, aligns)) + FullLine(rows[j], widths, aligns) + "\n"
  {
    var lines, l := Lines(rows[..j], widths, aligns), FullLine(rows[j], widths, aligns);
    TakeBack(rows, j);
    assert top + (lines + [l]) == (top + lines) + [l];
    TextSnoc(top + lines, l);
  }

  lemma TextOfTwo(h: string, d: string)
    ensures ("" + h + "\n") + d + "\n" == Text([h, d])
  {
    TextSnoc([], h);
    TextSnoc([h], d);
    assert [] + [h] == [h] && [h] + [d] == [h, d];
  }

  lemma PadFull(c: string, align: Alignment)
    ensures Pad(c, |c|, align) == c
  {
    assert Spaces(0) == "";
  }

  lemma {:induction false} SameLine(r: Row, s: Row, widths: seq<nat>, aligns: seq<Alignment>, n: nat)
    requires n <= |widths| && forall i: nat :: i < n ==> CellAt(r, i) == CellAt(s, i)
    ensures Line(r, widths, aligns, n) == Line(s, widths, aligns, n)
  {
    if n > 0 {
      SameLine(r, s, widths, aligns, n - 1);
    }
  }

  // ---- RenderTable --------------------------------------------------------

  /** The first n columns of a plain line: left-aligned, the last column as it is. */
  function PlainLine(cells: Row, widths: seq<nat>, n: nat): string
    requires n <= |widths|
  {
    if n == 0 then ""
    else if n == |widths| then PlainLine(cells, widths, n - 1) + CellAt(cells, n - 1)
    else PlainLine(cells, widths, n - 1) + (Pad(CellAt(cells, n - 1), widths[n - 1], AlignLeft) + "  ")
  }

  function PlainLines(rows: seq<Row>, widths: seq<nat>): (r: seq<string>)
    ensures |r| == |rows|
  {
    if rows == [] then []
    else PlainLines(rows[..|rows| - 1], widths) + [PlainLine(rows[|rows| - 1], widths, |widths|)]
  }

  method WriteRow(w: string, cells: Row, widths: array<nat>) returns (out: string)
    ensures out == w + PlainLine(cells, widths[..], widths.Length) + "\n"
  {
    out := w;
    ghost var ws := widths[..];
    var i := 0;
    while i < widths.Length
      invariant 0 <= i <= widths.Length
      invariant out == w + PlainLine(cells, ws, i)
    {
      var cell := "";
      if i < |cells| {
        cell := cells[i];
      }
      ghost var line := PlainLine(cells, ws, i);
      if i == widths.Length - 1 {
        Assoc(w, line, cell);
        out := out + cell;
      } else {
        Assoc(w, line, Pad(cell, ws[i], AlignLeft) + "  ");
        out := out + (Pad(cell, widths[i], AlignLeft) + "  ");
      }
      i := i + 1;
    }
    out := out + "\n";
  }

  /** The header and the rows; cells beyond the header are dropped. */
  method RenderTable(header: Row, rows: seq<Row>) returns (out: string)
    ensures out == Text(PlainLines([header] + rows, Widths(header, rows)))
  {
    var widths := ComputeWidths(header, rows);
    ghost var w := widths[..];
    ghost var all := [header] + rows;
    out := WriteRow("", header, widths);
    assert PlainLines(all[..1], w) == [PlainLine(header, w, |w|)];
    TextSnoc([], PlainLine(header, w, |w|));
    assert [] + [PlainLine(header, w, |w|)] == PlainLines(all[..1], w);
    out := WriteRows(out, header, rows, widths);
  }

  lemma AddPlainLine(rows: seq<Row>, j: nat, widths: seq<nat>)
    requires j < |rows|
    ensures Text(PlainLines(rows[..j + 1], widths))
         == Text(PlainLines(rows[..j], widths)) + PlainLine(rows[j], widths, |widths|) + "\n"
  {
    var before, l := PlainLines(rows[..j], widths), PlainLine(rows[j], widths, |widths|);
    TakeBack(rows, j);
    assert PlainLines(rows[..j + 1], widths) == before + [l];
    TextSnoc(before, l);
  }

  method WriteRows(w: string, header: Row, rows: seq<Row>, widths: array<nat>) returns (out: string)
    requires w == Text(PlainLines(([header] + rows)[..1], widths[..]))
    ensures out == Text(PlainLines([header] + rows, widths[..]))
  {
    out := w;
    ghost var ws := widths[..];
    ghost var all := [header] + rows;
    var j := 0;
    while j < |rows|
      invariant 0 <= j <= |rows|
      invariant out == Text(PlainLines(all[..j + 1], ws))
    {
      out := WriteRow(out, rows[j], widths);
      AddPlainLine(all, j + 1, ws);
      j := j + 1;
    }
    TakeAll(all, j + 1);
  }
}
