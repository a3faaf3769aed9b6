/** The lines of a text diff, and their alignment in two columns. */
module Align {
  import opened Wrappers
  import opened WordDiff
  import opened ConflictNames

  datatype Change = Kept | Removed | Added

  datatype Line = Line(id: string, change: Change, oldNumber: Option<nat>, newNumber: Option<nat>,
                       segments: seq<Segment>,
                       pair: Option<string>, stop: Option<nat>, noted: bool)

  /** A row of two cells, either of which may be blank. */
  datatype SideRow = SideRow(id: string, left: Option<Line>, right: Option<Line>, changed: bool)

  function LineId(n: nat): string {
    "l" + Decimal(n)
  }

  lemma LineIdsDiffer(n: nat, m: nat)
    requires LineId(n) == LineId(m)
    ensures n == m
  {
    assert LineId(n)[1..] == Decimal(n) && LineId(m)[1..] == Decimal(m);
    DecimalInjective(n, m);
  }

  function OldLines(lines: seq<Line>): seq<Line> {
    if lines == [] then []
    else OldLines(lines[..|lines| - 1]) + if lines[|lines| - 1].change == Added then [] else [lines[|lines| - 1]]
  }

  function NewLines(lines: seq<Line>): seq<Line> {
    if lines == [] then []
    else NewLines(lines[..|lines| - 1]) + if lines[|lines| - 1].change == Removed then [] else [lines[|lines| - 1]]
  }

  /** One more line, on the sides that have it. */
  lemma LinesPush(lines: seq<Line>, line: Line)
    ensures OldLines(lines + [line]) == OldLines(lines) + if line.change == Added then [] else [line]
    ensures NewLines(lines + [line]) == NewLines(lines) + if line.change == Removed then [] else [line]
  {
    assert (lines + [line])[..|lines|] == lines;
  }

  lemma Assoc(x: seq<Line>, y: seq<Line>, z: seq<Line>)
    ensures x + (y + z) == (x + y) + z
  {
  }

  lemma LinesJoin(xs: seq<Line>, ys: seq<Line>)
    ensures OldLines(xs + ys) == OldLines(xs) + OldLines(ys) && NewLines(xs + ys) == NewLines(xs) + NewLines(ys)
  {
    assert ys[..|ys|] == ys;
    JoinUpTo(xs, ys, |ys|);
  }

  lemma {:induction false} JoinUpTo(xs: seq<Line>, ys: seq<Line>, k: nat)
    requires k <= |ys|
    ensures OldLines(xs + ys[..k]) == OldLines(xs) + OldLines(ys[..k])
    ensures NewLines(xs + ys[..k]) == NewLines(xs) + NewLines(ys[..k])
    decreases k
  {
    if k == 0 {
      assert xs + ys[..0] == xs;
    } else {
      JoinUpTo(xs, ys, k - 1);
      assert ys[..k] == ys[..k - 1] + [ys[k - 1]];
      JoinOne(xs, ys[..k - 1], ys[k - 1]);
    }
  }

  lemma JoinOne(xs: seq<Line>, front: seq<Line>, last: Line)
    requires OldLines(xs + front) == OldLines(xs) + OldLines(front)
      && NewLines(xs + front) == NewLines(xs) + NewLines(front)
    ensures OldLines(xs + (front + [last])) == OldLines(xs) + OldLines(front + [last])
    ensures NewLines(xs + (front + [last])) == NewLines(xs) + NewLines(front + [last])
  {
    hide OldLines, NewLines;
    Assoc(xs, front, [last]);
    LinesPush(xs + front, last);
    LinesPush(front, last);
    Assoc(OldLines(xs), OldLines(front), if last.change == Added then [] else [last]);
    Assoc(NewLines(xs), NewLines(front), if last.change == Removed then [] else [last]);
  }

  lemma {:induction false} LinesOfOne(lines: seq<Line>, change: Change)
    requires forall i :: 0 <= i < |lines| ==> lines[i].change == change
    ensures OldLines(lines) == (if change == Added then [] else lines)
      && NewLines(lines) == if change == Removed then [] else lines
    decreases |lines|
  {
    if lines != [] {
      var front, last := lines[..|lines| - 1], lines[|lines| - 1];
      assert last.change == change && lines == front + [last];
      LinesOfOne(front, change);
    }
  }

  lemma LineNext(lines: seq<Line>, k: nat)
    requires k < |lines|
    ensures OldLines(lines[..k + 1]) == OldLines(lines[..k]) + if lines[k].change == Added then [] else [lines[k]]
  {
    assert lines[..k + 1][..k] == lines[..k];
  }

  function ById(lines: seq<Line>): map<string, Line> {
    if lines == [] then map[] else ById(lines[..|lines| - 1])[lines[|lines| - 1].id := lines[|lines| - 1]]
  }

  /** Every line is called by its place. */
  ghost predicate Numbered(lines: seq<Line>) {
    forall i :: 0 <= i < |lines| ==> lines[i].id == LineId(i)
  }

  lemma {:induction false} FoundByPlace(lines: seq<Line>, k: nat)
    requires Numbered(lines) && k < |lines|
    ensures LineId(k) in ById(lines) && ById(lines)[LineId(k)] == lines[k]
    decreases |lines|
  {
    hide LineId;
    var n := |lines| - 1;
    if k < n {
      FoundByPlace(lines[..n], k);
      if LineId(k) == LineId(n) {
        LineIdsDiffer(k, n);
      }
    }
  }

  /** What stands on the right of the row of line `k`, if anything. */
  function RightCell(lines: seq<Line>, k: nat): Option<Line>
    requires k < |lines|
  {
    var line := lines[k];
    match line.change
    case Kept => Some(line)
    case Removed => if line.pair.None? then None else Get(ById(lines), line.pair.value)
    case Added => if line.pair.None? || line.pair.value !in ById(lines) then Some(line) else None
  }

  function RightCells(lines: seq<Line>, k: nat): seq<Line>
    requires k <= |lines|
  {
    if k == 0 then []
    else RightCells(lines, k - 1) + if RightCell(lines, k - 1).Some? then [RightCell(lines, k - 1).value] else []
  }

  /** Pairs are placed so that drawing each added line of a pair opposite its removed line puts no line out of order. */
  ghost predicate Zipped(lines: seq<Line>) {
    RightCells(lines, |lines|) == NewLines(lines)
  }

  function Lefts(rows: seq<SideRow>): seq<Line> {
    if rows == [] then []
    else Lefts(rows[..|rows| - 1]) + if rows[|rows| - 1].left.Some? then [rows[|rows| - 1].left.value] else []
  }

  function Rights(rows: seq<SideRow>): seq<Line> {
    if rows == [] then []
    else Rights(rows[..|rows| - 1]) + if rows[|rows| - 1].right.Some? then [rows[|rows| - 1].right.value] else []
  }

  lemma OneRow(rows: seq<SideRow>, row: SideRow)
    ensures Lefts(rows + [row]) == Lefts(rows) + if row.left.Some? then [row.left.value] else []
    ensures Rights(rows + [row]) == Rights(rows) + if row.right.Some? then [row.right.value] else []
  {
    assert (rows + [row])[..|rows|] == rows;
  }

  /** A kept line stands on both sides, a removed one opposite its partner, if it has one; what is added opposite
    nothing. */
  ghost predicate RowOf(row: SideRow, lines: seq<Line>) {
    match row.left
    case None => row.right.Some? && row.right.value.change == Added && row.changed
    case Some(line) =>
      && line in lines && line.change != Added && (row.changed <==> line.change == Removed)
      && row.right == if line.change == Kept then Some(line)
                      else if line.pair.None? then None else Get(ById(lines), line.pair.value)
  }

  /** The left column holds the lines of the old text, in order, and the right column those of the new one. */
  method AlignLines(lines: seq<Line>) returns (rows: seq<SideRow>)
    ensures Lefts(rows) == OldLines(lines)
    ensures Zipped(lines) ==> Rights(rows) == NewLines(lines)
    ensures forall row :: row in rows ==> RowOf(row, lines)
  {
    hide Lefts, Rights, OldLines, ById;
    var byId := ById(lines);
    rows := [];
    NoLines(lines);
    for k := 0 to |lines|
      invariant Lefts(rows) == OldLines(lines[..k]) && Rights(rows) == RightCells(lines, k)
      invariant forall row :: row in rows ==> RowOf(row, lines)
    {
      var line := lines[k];
      LineNext(lines, k);
      var row := SideRow(line.id, None, Some(line), true);
      var drawn := true;
      if line.change == Kept {
        row := SideRow(line.id, Some(line), Some(line), false);
      } else if line.change == Removed {
        var partner := if line.pair.None? then None else Get(byId, line.pair.value);
        row := SideRow(line.id, Some(line), partner, true);
      } else {
        drawn := line.pair.None? || line.pair.value !in byId;
      }
      if drawn {
        OneRow(rows, row);
        rows := rows + [row];
      }
    }
    assert lines[..|lines|] == lines;
  }

  lemma NoLines(lines: seq<Line>)
    ensures Lefts([]) == OldLines(lines[..0]) && Rights([]) == RightCells(lines, 0)
  {
  }
}
