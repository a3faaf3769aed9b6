/** The line diff of two texts. */
module TextDiff {
  import opened Wrappers
  import opened Sequence
  import opened Scripts
  import opened WordDiff
  import opened Align

  datatype StopChange = StopAdded | StopRemoved | StopChanged

  datatype Stop = Stop(index: nat, target: string, change: StopChange)

  datatype Counts = Counts(added: nat, removed: nat, changed: nat)

  datatype TextModel = TextModel(lines: seq<Line>, stops: seq<Stop>, counts: Counts, identical: bool)

  /** The lines of a text; one more than it has line feeds. */
  function Split(text: string): (r: seq<string>)
    ensures r != []
  {
    if text == "" then [""]
    else
      var front, last := Split(text[..|text| - 1]), text[|text| - 1];
      if last == '\n' then front + [""] else front[..|front| - 1] + [front[|front| - 1] + [last]]
  }

  function Join(lines: seq<string>): string {
    if lines == [] then ""
    else if |lines| == 1 then lines[0]
    else Join(lines[..|lines| - 1]) + "\n" + lines[|lines| - 1]
  }

  /** Splitting loses nothing. */
  lemma {:induction false} JoinSplit(text: string)
    ensures Join(Split(text)) == text
    decreases |text|
  {
    if text != "" {
      var short, last := text[..|text| - 1], text[|text| - 1];
      JoinSplit(short);
      var front := Split(short);
      assert text == short + [last];
      if last == '\n' {
        assert (front + [""])[..|front|] == front;
      } else {
        var n := |front| - 1;
        var more := front[..n] + [front[n] + [last]];
        assert more[..n] == front[..n];
      }
    }
  }

  /** What it is split at is in none of the pieces: they are the lines. */
  lemma {:induction false} PiecesAreLines(text: string)
    ensures forall i :: 0 <= i < |Split(text)| ==> '\n' !in Split(text)[i]
    decreases |text|
  {
    if text != "" {
      PiecesAreLines(text[..|text| - 1]);
    }
  }

  function StripCr(line: string): string {
    if line != "" && line[|line| - 1] == '\r' then line[..|line| - 1] else line
  }

  /** A line is drawn without the carriage return it may end with, and with everything else. */
  lemma DrawnWithoutCr(line: string)
    ensures if line != "" && line[|line| - 1] == '\r' then line == StripCr(line) + "\r" else line == StripCr(line)
  {
  }

  function AllText(segments: seq<Segment>): string {
    if segments == [] then "" else AllText(segments[..|segments| - 1]) + segments[|segments| - 1].text
  }

  function Without(segments: seq<Segment>, kind: SegmentKind): seq<Segment> {
    if segments == [] then []
    else Without(segments[..|segments| - 1], kind)
         + if segments[|segments| - 1].kind == kind then [] else [segments[|segments| - 1]]
  }

  lemma AllTextNext(segments: seq<Segment>, s: Segment)
    ensures AllText(segments + [s]) == AllText(segments) + s.text
  {
    assert (segments + [s])[..|segments|] == segments;
  }

  lemma WithoutNext(segments: seq<Segment>, s: Segment, kind: SegmentKind)
    ensures AllText(Without(segments + [s], kind))
      == AllText(Without(segments, kind)) + if s.kind == kind then "" else s.text
  {
    assert (segments + [s])[..|segments|] == segments;
    AllTextNext(Without(segments, kind), s);
    if s.kind == kind {
      assert Without(segments + [s], kind) == Without(segments, kind);
    }
  }

  lemma {:induction false} SideReads(words: seq<Segment>)
    ensures AllText(Without(words, Inserted)) == OldText(words) && AllText(Without(words, Deleted)) == NewText(words)
    decreases |words|
  {
    hide AllText, OldText, NewText;
    if words == [] {
      NothingRead();
    } else {
      var front, last := words[..|words| - 1], words[|words| - 1];
      SideReads(front);
      assert words == front + [last];
      WithoutNext(front, last, Inserted);
      WithoutNext(front, last, Deleted);
      OneSegment(front, last);
    }
  }

  lemma NothingRead()
    ensures AllText([]) == OldText([]) == NewText([]) == ""
  {
  }

  function Plain(text: string): (r: seq<Segment>)
    ensures AllText(r) == text && NoMarks(r)
  {
    assert [Segment(Unchanged, text)][..0] == [];
    [Segment(Unchanged, text)]
  }

  /** `lines` are the first of `raw`, in order, each with its number and the text it is drawn with. */
  ghost predicate ReadsOld(lines: seq<Line>, raw: seq<string>, n: nat) {
    && |lines| == n <= |raw|
    && forall i :: 0 <= i < n ==> lines[i].oldNumber == Some(i + 1) && AllText(lines[i].segments) == StripCr(raw[i])
  }

  ghost predicate ReadsNew(lines: seq<Line>, raw: seq<string>, n: nat) {
    && |lines| == n <= |raw|
    && forall i :: 0 <= i < n ==> lines[i].newNumber == Some(i + 1) && AllText(lines[i].segments) == StripCr(raw[i])
  }

  /** A removed line and an added line that name each other. */
  ghost predicate Mutual(lines: seq<Line>, k: nat, m: nat)
    requires k < |lines| && m < |lines|
  {
    && lines[k].pair == Some(LineId(m)) && lines[m].pair == Some(LineId(k))
    && (lines[k].change == Align.Removed <==> lines[m].change == Align.Added)
    && lines[k].change != Align.Kept && lines[m].change != Align.Kept
  }

  ghost predicate Paired(lines: seq<Line>) {
    forall k :: 0 <= k < |lines| && lines[k].pair.Some? ==> exists m :: 0 <= m < |lines| && Mutual(lines, k, m)
  }

  /** A line shown as kept is the same line, its ending included, on both sides. */
  ghost predicate KeptAreSame(lines: seq<Line>, rawA: seq<string>, rawB: seq<string>) {
    forall k :: 0 <= k < |lines| && lines[k].change == Align.Kept ==>
      && lines[k].oldNumber.Some? && 1 <= lines[k].oldNumber.value <= |rawA|
      && lines[k].newNumber.Some? && 1 <= lines[k].newNumber.value <= |rawB|
      && rawA[lines[k].oldNumber.value - 1] == rawB[lines[k].newNumber.value - 1]
  }

  /** The lines show the first `x` old and the first `y` new ones. */
  ghost predicate Shows(lines: seq<Line>, rawA: seq<string>, x: nat, rawB: seq<string>, y: nat) {
    && Numbered(lines) && Paired(lines) && Zipped(lines) && KeptAreSame(lines, rawA, rawB)
    && ReadsOld(OldLines(lines), rawA, x) && ReadsNew(NewLines(lines), rawB, y)
  }

  /** How a line counts: a pair is one change, counted on its removed line. */
  function StopFor(line: Line): Option<StopChange> {
    match line.change
    case Kept => None
    case Removed => Some(if line.pair.Some? then StopChanged else StopRemoved)
    case Added => if line.pair.Some? then None else Some(StopAdded)
  }

  /** The stops of a list of lines: one per change, in order, numbered from zero. */
  function StopsOf(lines: seq<Line>): seq<Stop> {
    if lines == [] then []
    else
      var front, last := StopsOf(lines[..|lines| - 1]), lines[|lines| - 1];
      front + if StopFor(last).Some? then [Stop(|front|, last.id, StopFor(last).value)] else []
  }

  function CountOf(stops: seq<Stop>, change: StopChange): nat {
    if stops == [] then 0
    else CountOf(stops[..|stops| - 1], change) + if stops[|stops| - 1].change == change then 1 else 0
  }

  lemma {:induction false} CountsAddUp(stops: seq<Stop>)
    ensures CountOf(stops, StopAdded) + CountOf(stops, StopRemoved) + CountOf(stops, StopChanged) == |stops|
  {
    if stops != [] {
      CountsAddUp(stops[..|stops| - 1]);
    }
  }

  ghost predicate Counted(stops: seq<Stop>, counts: Counts) {
    && counts.added == CountOf(stops, StopAdded) && counts.removed == CountOf(stops, StopRemoved)
    && counts.changed == CountOf(stops, StopChanged)
  }

  /** The stops are those of the lines, and every line that has one is marked with its number. */
  ghost predicate Stopped(lines: seq<Line>, stops: seq<Stop>, counts: Counts) {
    && stops == StopsOf(lines) && Counted(stops, counts)
    && forall k :: 0 <= k < |lines| ==> Marked(lines[k], StopsOf(lines[..k]))
  }

  /** A line's mark: the number of its stop, if it has one, given the stops before it. */
  predicate Marked(line: Line, before: seq<Stop>) {
    line.stop == if StopFor(line).Some? then Some(|before|) else None
  }

  lemma StopNext(lines: seq<Line>, stops: seq<Stop>, counts: Counts, line: Line)
    requires Stopped(lines, stops, counts)
    requires Marked(line, stops)
    ensures StopFor(line).None? ==> Stopped(lines + [line], stops, counts)
    ensures StopFor(line).Some? ==>
      var change := StopFor(line).value;
      Stopped(lines + [line], stops + [Stop(|stops|, line.id, change)], Bumped(counts, change))
  {
    hide CountOf, Marked;
    var more := lines + [line];
    assert more[..|lines|] == lines;
    forall k | 0 <= k < |more|
      ensures Marked(more[k], StopsOf(more[..k]))
    {
      if k < |lines| {
        assert more[..k] == lines[..k];
      }
    }
    if StopFor(line).Some? {
      CountNext(stops, Stop(|stops|, line.id, StopFor(line).value));
    }
  }

  lemma CountNext(stops: seq<Stop>, stop: Stop)
    ensures forall change ::
              CountOf(stops + [stop], change) == CountOf(stops, change) + if stop.change == change then 1 else 0
  {
    assert (stops + [stop])[..|stops|] == stops;
  }

  function Bumped(counts: Counts, change: StopChange): Counts {
    match change
    case StopAdded => counts.(added := counts.added + 1)
    case StopRemoved => counts.(removed := counts.removed + 1)
    case StopChanged => counts.(changed := counts.changed + 1)
  }

  // Runs of changes.

  function Min(m: nat, n: nat): nat {
    if m < n then m else n
  }

  function Max(m: nat, n: nat): nat {
    if m < n then n else m
  }

  /** The removed lines of a run of `m` removals and `n` additions, the first of them line `base`. */
  ghost predicate RemovedRun(run: seq<Line>, base: nat, raw: seq<string>, x: nat, m: nat, n: nat) {
    && |run| <= m && x + |run| <= |raw|
    && forall k :: 0 <= k < |run| ==>
         && run[k].id == LineId(base + k) && run[k].change == Align.Removed && run[k].oldNumber == Some(x + k + 1)
         && run[k].pair == (if k < Min(m, n) then Some(LineId(base + m + k)) else None)
         && AllText(run[k].segments) == StripCr(raw[x + k])
  }

  ghost predicate AddedRun(run: seq<Line>, base: nat, raw: seq<string>, y: nat, m: nat, n: nat) {
    && |run| <= n && y + |run| <= |raw|
    && forall k :: 0 <= k < |run| ==>
         && run[k].id == LineId(base + m + k) && run[k].change == Align.Added && run[k].newNumber == Some(y + k + 1)
         && run[k].pair == (if k < Min(m, n) then Some(LineId(base + k)) else None)
         && AllText(run[k].segments) == StripCr(raw[y + k])
  }

  lemma {:induction false} RightCellsStay(lines: seq<Line>, more: seq<Line>, k: nat)
    requires Numbered(lines + more) && Paired(lines) && k <= |lines|
    ensures RightCells(lines + more, k) == RightCells(lines, k)
    decreases k
  {
    hide RightCell, Numbered, Paired;
    if k > 0 {
      RightCellsStay(lines, more, k - 1);
      RightCellStays(lines, more, k - 1);
    }
  }

  lemma RightCellStays(lines: seq<Line>, more: seq<Line>, k: nat)
    requires Numbered(lines + more) && Paired(lines) && k < |lines|
    ensures RightCell(lines + more, k) == RightCell(lines, k)
  {
    hide ById, LineId, Numbered;
    var all, line := lines + more, lines[k];
    assert all[k] == line;
    if line.pair.Some? {
      var m :| 0 <= m < |lines| && Mutual(lines, k, m);
      NumberedPart(lines, more);
      FoundByPlace(lines, m);
      FoundByPlace(all, m);
      assert all[m] == lines[m];
    }
  }

  lemma NumberedPart(lines: seq<Line>, more: seq<Line>)
    requires Numbered(lines + more)
    ensures Numbered(lines)
  {
    assert forall k :: 0 <= k < |lines| ==> (lines + more)[k] == lines[k];
  }

  /** Line `i` of a list that ends, from `base` on, in a run of `m` removals and `n` additions paired from the front. */
  ghost predicate RunLine(line: Line, base: nat, m: nat, n: nat, i: nat) {
    && line.id == LineId(i)
    && (base <= i < base + m ==>
          line.change == Align.Removed && line.pair == if i - base < n then Some(LineId(i + m)) else None)
    && (base + m <= i ==>
          line.change == Align.Added && line.pair == if i - base - m < m then Some(LineId(i - m)) else None)
  }

  ghost predicate RunIn(all: seq<Line>, base: nat, m: nat, n: nat) {
    |all| == base + m + n && forall i :: 0 <= i < |all| ==> RunLine(all[i], base, m, n, i)
  }

  lemma CellOfRemoved(all: seq<Line>, base: nat, m: nat, n: nat, k: nat)
    requires RunIn(all, base, m, n) && k < m
    ensures RightCell(all, base + k) == if k < n then Some(all[base + m + k]) else None
  {
    hide ById, LineId;
    RunLength(all, base, m, n);
    assert RunLine(all[base + k], base, m, n, base + k);
    if k < n {
      FoundByPlace(all, base + m + k);
    }
  }

  lemma CellOfAdded(all: seq<Line>, base: nat, m: nat, n: nat, k: nat)
    requires RunIn(all, base, m, n) && k < n
    ensures RightCell(all, base + m + k) == if k < m then None else Some(all[base + m + k])
  {
    hide ById, LineId;
    RunLength(all, base, m, n);
    assert RunLine(all[base + m + k], base, m, n, base + m + k);
    if k < m {
      FoundByPlace(all, base + k);
    }
  }

  /** The rows of the removed lines show the added lines they are paired with. */
  lemma {:induction false} RemovedRows(all: seq<Line>, base: nat, m: nat, n: nat, k: nat)
    requires RunIn(all, base, m, n) && k <= m
    ensures RightCells(all, base + k) == RightCells(all, base) + all[base + m..base + m + Min(k, n)]
    decreases k
  {
    hide RunIn, RightCell;
    assert |all| == base + m + n by {
      RunLength(all, base, m, n);
    }
    if k > 0 {
      RemovedRows(all, base, m, n, k - 1);
      CellOfRemoved(all, base, m, n, k - 1);
    }
  }

  lemma RunLength(all: seq<Line>, base: nat, m: nat, n: nat)
    requires RunIn(all, base, m, n)
    ensures |all| == base + m + n && Numbered(all)
  {
    hide LineId;
    forall i | 0 <= i < |all|
      ensures all[i].id == LineId(i)
    {
      assert RunLine(all[i], base, m, n, i);
    }
  }

  /** The rows of the added lines show those that have no partner. */
  lemma {:induction false} AddedRows(all: seq<Line>, base: nat, m: nat, n: nat, k: nat)
    requires RunIn(all, base, m, n) && k <= n
    ensures RightCells(all, base + m + k) == RightCells(all, base) + all[base + m..base + m + Max(k, Min(m, n))]
    decreases k
  {
    hide RunIn, RightCell;
    assert |all| == base + m + n by {
      RunLength(all, base, m, n);
    }
    if k == 0 {
      RemovedRows(all, base, m, n, m);
    } else {
      AddedRows(all, base, m, n, k - 1);
      CellOfAdded(all, base, m, n, k - 1);
    }
  }

  lemma NewLinesStay(lines: seq<Line>, more: seq<Line>)
    requires Numbered(lines + more) && Paired(lines) && Zipped(lines)
    ensures RightCells(lines + more, |lines|) == NewLines(lines)
  {
    hide RightCells;
    RightCellsStay(lines, more, |lines|);
  }

  lemma ReadsMore(was: seq<Line>, raw: seq<string>, n: nat, more: seq<Line>, old': bool)
    requires if old' then ReadsOld(was, raw, n) else ReadsNew(was, raw, n)
    requires n + |more| <= |raw|
    requires forall k :: 0 <= k < |more| ==>
      && (if old' then more[k].oldNumber else more[k].newNumber) == Some(n + k + 1)
      && AllText(more[k].segments) == StripCr(raw[n + k])
    ensures if old' then ReadsOld(was + more, raw, n + |more|) else ReadsNew(was + more, raw, n + |more|)
  {
    hide AllText, StripCr;
    var all := was + more;
    forall i | 0 <= i < |all|
      ensures (if old' then all[i].oldNumber else all[i].newNumber) == Some(i + 1)
      ensures AllText(all[i].segments) == StripCr(raw[i])
    {
      if i >= n {
        assert all[i] == more[i - n];
      }
    }
  }

  lemma PairsStay(lines: seq<Line>, more: seq<Line>, k: nat)
    requires Paired(lines) && k < |lines| && lines[k].pair.Some?
    ensures exists m :: 0 <= m < |lines + more| && Mutual(lines + more, k, m)
  {
    hide LineId;
    var m :| 0 <= m < |lines| && Mutual(lines, k, m);
    assert Mutual(lines + more, k, m);
  }

  /** One more kept line. */
  lemma ShowsKept(lines: seq<Line>, rawA: seq<string>, x: nat, rawB: seq<string>, y: nat, line: Line)
    requires Shows(lines, rawA, x, rawB, y) && x < |rawA| && y < |rawB| && rawA[x] == rawB[y]
    requires line.id == LineId(|lines|) && line.change == Align.Kept && line.pair.None?
    requires line.oldNumber == Some(x + 1) && line.newNumber == Some(y + 1)
      && AllText(line.segments) == StripCr(rawA[x])
    ensures Shows(lines + [line], rawA, x + 1, rawB, y + 1)
  {
    hide AllText, StripCr, LineId, OldLines, NewLines, Zipped, Paired, Numbered, KeptAreSame;
    LinesJoin(lines, [line]);
    LinesOfOne([line], Align.Kept);
    ReadsMore(OldLines(lines), rawA, x, [line], true);
    ReadsMore(NewLines(lines), rawB, y, [line], false);
    KeptPairs(lines, line);
    KeptMore(lines, rawA, rawB, line);
    KeptZips(lines, line);
  }

  lemma KeptMore(lines: seq<Line>, rawA: seq<string>, rawB: seq<string>, line: Line)
    requires Numbered(lines) && KeptAreSame(lines, rawA, rawB) && line.id == LineId(|lines|)
      && line.change == Align.Kept
    requires line.oldNumber.Some? && 1 <= line.oldNumber.value <= |rawA| && line.newNumber.Some?
      && 1 <= line.newNumber.value <= |rawB|
    requires rawA[line.oldNumber.value - 1] == rawB[line.newNumber.value - 1]
    ensures Numbered(lines + [line]) && KeptAreSame(lines + [line], rawA, rawB)
  {
    hide LineId;
  }

  lemma KeptZips(lines: seq<Line>, line: Line)
    requires Numbered(lines + [line]) && Paired(lines) && Zipped(lines) && line.change == Align.Kept
    requires NewLines(lines + [line]) == NewLines(lines) + [line]
    ensures Zipped(lines + [line])
  {
    hide Numbered, Paired, NewLines, RightCells;
    NewLinesStay(lines, [line]);
    OneCell(lines + [line]);
  }

  lemma KeptPairs(lines: seq<Line>, line: Line)
    requires Paired(lines) && line.pair.None?
    ensures Paired(lines + [line])
  {
    hide LineId, Mutual;
    var all := lines + [line];
    forall k | 0 <= k < |all| && all[k].pair.Some?
      ensures exists m :: 0 <= m < |all| && Mutual(all, k, m)
    {
      PairsStay(lines, [line], k);
    }
  }

  lemma OneCell(all: seq<Line>)
    requires all != [] && all[|all| - 1].change == Align.Kept
    ensures RightCells(all, |all|) == RightCells(all, |all| - 1) + [all[|all| - 1]]
  {
  }

  /** One more run of changes. */
  lemma ShowsRun(lines: seq<Line>, rawA: seq<string>, x: nat, rawB: seq<string>, y: nat, removed: seq<Line>,
                 added: seq<Line>)
    requires Shows(lines, rawA, x, rawB, y)
    requires RemovedRun(removed, |lines|, rawA, x, |removed|, |added|)
      && AddedRun(added, |lines|, rawB, y, |removed|, |added|)
    ensures Shows(lines + removed + added, rawA, x + |removed|, rawB, y + |added|)
  {
    hide AllText, StripCr, LineId, OldLines, NewLines, ById, RightCells, Mutual, Zipped, Paired, KeptAreSame, Numbered,
      RunIn;
    var all := lines + removed + added;
    LinesJoin(lines + removed, added);
    LinesJoin(lines, removed);
    LinesOfOne(removed, Align.Removed);
    LinesOfOne(added, Align.Added);
    assert OldLines(all) == OldLines(lines) + removed && NewLines(all) == NewLines(lines) + added;
    ReadsMore(OldLines(lines), rawA, x, removed, true);
    ReadsMore(NewLines(lines), rawB, y, added, false);
    RunIsIn(lines, rawA, x, rawB, y, removed, added);
    RunLength(all, |lines|, |removed|, |added|);
    assert all[..|lines|] == lines && all[|lines| + |removed|..] == added;
    RunZips(all, |lines|, |removed|, |added|);
    RunPairs(all, |lines|, |removed|, |added|);
    RunKeeps(lines, rawA, rawB, removed, added);
  }

  lemma RunIsIn(lines: seq<Line>, rawA: seq<string>, x: nat, rawB: seq<string>, y: nat, removed: seq<Line>,
                added: seq<Line>)
    requires Numbered(lines)
    requires RemovedRun(removed, |lines|, rawA, x, |removed|, |added|)
      && AddedRun(added, |lines|, rawB, y, |removed|, |added|)
    ensures RunIn(lines + removed + added, |lines|, |removed|, |added|)
  {
    hide AllText, StripCr, LineId, RemovedRun, AddedRun, Numbered, RunLine;
    var all, base, m, n := lines + removed + added, |lines|, |removed|, |added|;
    forall i | 0 <= i < |all|
      ensures RunLine(all[i], base, m, n, i)
    {
      if i < base {
        assert all[i] == lines[i];
        EarlierLine(lines, m, n, i);
      } else if i < base + m {
        assert all[i] == removed[i - base];
        RemovedAt(removed, base, rawA, x, m, n, i - base);
      } else {
        assert all[i] == added[i - base - m];
        AddedAt(added, base, rawB, y, m, n, i - base - m);
      }
    }
  }

  lemma EarlierLine(lines: seq<Line>, m: nat, n: nat, i: nat)
    requires Numbered(lines) && i < |lines|
    ensures RunLine(lines[i], |lines|, m, n, i)
  {
    hide LineId;
  }

  lemma RemovedAt(run: seq<Line>, base: nat, raw: seq<string>, x: nat, m: nat, n: nat, k: nat)
    requires RemovedRun(run, base, raw, x, m, n) && k < |run|
    requires |run| == m
    ensures RunLine(run[k], base, m, n, base + k)
  {
    hide AllText, StripCr, LineId;
  }

  lemma AddedAt(run: seq<Line>, base: nat, raw: seq<string>, y: nat, m: nat, n: nat, k: nat)
    requires AddedRun(run, base, raw, y, m, n) && k < |run|
    requires |run| == n
    ensures RunLine(run[k], base, m, n, base + m + k)
  {
    hide AllText, StripCr, LineId;
  }

  lemma RunZips(all: seq<Line>, base: nat, m: nat, n: nat)
    requires RunIn(all, base, m, n) && Paired(all[..base]) && Zipped(all[..base])
    requires NewLines(all) == NewLines(all[..base]) + all[base + m..]
    ensures Zipped(all)
  {
    hide RightCells, NewLines, LineId, Paired, RunIn;
    RunLength(all, base, m, n);
    assert all == all[..base] + all[base..];
    NewLinesStay(all[..base], all[base..]);
    AddedRows(all, base, m, n, n);
  }

  lemma RunPairs(all: seq<Line>, base: nat, m: nat, n: nat)
    requires RunIn(all, base, m, n) && Paired(all[..base])
    ensures Paired(all)
  {
    hide LineId, Mutual, RunIn;
    RunLength(all, base, m, n);
    assert all == all[..base] + all[base..];
    forall k | 0 <= k < |all| && all[k].pair.Some?
      ensures exists l :: 0 <= l < |all| && Mutual(all, k, l)
    {
      if k < base {
        PairsStay(all[..base], all[base..], k);
      } else {
        RunMutual(all, base, m, n, k);
      }
    }
  }

  lemma RunMutual(all: seq<Line>, base: nat, m: nat, n: nat, k: nat)
    requires RunIn(all, base, m, n) && base <= k < |all| && all[k].pair.Some?
    ensures exists l :: 0 <= l < |all| && Mutual(all, k, l)
  {
    hide LineId;
    assert RunLine(all[k], base, m, n, k);
    if k < base + m {
      assert RunLine(all[k + m], base, m, n, k + m);
      assert Mutual(all, k, k + m);
    } else {
      assert RunLine(all[k - m], base, m, n, k - m);
      assert Mutual(all, k, k - m);
    }
  }

  lemma RunKeeps(lines: seq<Line>, rawA: seq<string>, rawB: seq<string>, removed: seq<Line>, added: seq<Line>)
    requires RunIn(lines + removed + added, |lines|, |removed|, |added|) && KeptAreSame(lines, rawA, rawB)
    ensures KeptAreSame(lines + removed + added, rawA, rawB)
  {
    hide LineId;
    var all := lines + removed + added;
    assert forall k :: 0 <= k < |lines| ==> all[k] == lines[k];
    assert forall k :: |lines| <= k < |all| ==> RunLine(all[k], |lines|, |removed|, |added|, k);
  }

  // The diff itself.

  /** The words of each pair: what the removed line and the added line of it have in common and what not. */
  method PairWords(classes: CharClasses, a: seq<string>, b: seq<string>, removed: seq<nat>, added: seq<nat>)
    returns (words: seq<seq<Segment>>)
    requires forall k :: 0 <= k < |removed| ==> removed[k] < |a|
    requires forall k :: 0 <= k < |added| ==> added[k] < |b|
    ensures |words| == Min(|removed|, |added|)
    ensures forall k :: 0 <= k < |words| ==> OldText(words[k]) == a[removed[k]] && NewText(words[k]) == b[added[k]]
    ensures MarkedLittle(classes, words)
  {
    hide OldText, NewText, CommonText, MarksLittle;
    words := [];
    for k := 0 to Min(|removed|, |added|)
      invariant |words| == k
      invariant forall i :: 0 <= i < k ==> OldText(words[i]) == a[removed[i]] && NewText(words[i]) == b[added[i]]
      invariant MarkedLittle(classes, words)
    {
      var it := WordDiff.WordDiff(classes, a[removed[k]], b[added[k]]);
      words := words + [it];
    }
  }

  ghost predicate MarkedLittle(classes: CharClasses, words: seq<seq<Segment>>) {
    forall k :: 0 <= k < |words| ==> MarksLittle(classes, OldText(words[k]), NewText(words[k]), CommonText(words[k]))
  }

  /** Numbers that follow each other. */
  ghost predicate Consecutive(s: seq<nat>, from: nat) {
    forall k :: 0 <= k < |s| ==> s[k] == from + k
  }

  /** Removed lines are drawn with the unchanged and removed words of their pair, and never noted. */
  ghost predicate WordedOld(run: seq<Line>, words: seq<seq<Segment>>) {
    forall k :: 0 <= k < |run| ==>
      !run[k].noted && if k < |words| then run[k].segments == Without(words[k], Inserted) else NoMarks(run[k].segments)
  }

  /** Added lines are drawn with the unchanged and added words of theirs, and noted when all they differ in is the
    ending. */
  ghost predicate WordedNew(run: seq<Line>, words: seq<seq<Segment>>, rawA: seq<string>, x: nat, rawB: seq<string>,
                            y: nat) {
    && x + |words| <= |rawA| && y + |run| <= |rawB|
    && forall k :: 0 <= k < |run| ==>
         && (run[k].noted <==> k < |words| && StripCr(rawA[x + k]) == StripCr(rawB[y + k]))
         && if k < |words| then run[k].segments == Without(words[k], Deleted) else NoMarks(run[k].segments)
  }

  method PushRemoved(rawA: seq<string>, lines: seq<Line>, stops: seq<Stop>, counts: Counts, removed: seq<nat>,
                     added: seq<nat>, words: seq<seq<Segment>>, ghost x: nat)
    returns (run: seq<Line>, stops': seq<Stop>, counts': Counts)
    requires Stopped(lines, stops, counts) && Consecutive(removed, x) && x + |removed| <= |rawA|
    requires |words| == Min(|removed|, |added|)
    requires forall k :: 0 <= k < |words| ==> OldText(words[k]) == StripCr(rawA[removed[k]])
    ensures |run| == |removed| && RemovedRun(run, |lines|, rawA, x, |removed|, |added|) && WordedOld(run, words)
    ensures Stopped(lines + run, stops', counts') && |stops'| == |stops| + |removed|
  {
    hide StripCr, AllText, OldText, NewText, LineId, Stopped, RemovedRun, WordedOld, Without;
    run, stops', counts' := [], stops, counts;
    assert lines + [] == lines;
    NoRun(|lines|, rawA, [], x, 0, |removed|, |added|, words);
    for k := 0 to |removed|
      invariant |run| == k && RemovedRun(run, |lines|, rawA, x, |removed|, |added|) && WordedOld(run, words)
      invariant Stopped(lines + run, stops', counts') && |stops'| == |stops| + k
    {
      var isPair := k < |words|;
      if isPair {
        SideReads(words[k]);
      }
      var line := Line(LineId(|lines| + k), Align.Removed, Some(removed[k] + 1), None,
                       if isPair then Without(words[k], Inserted) else Plain(StripCr(rawA[removed[k]])),
                       if isPair then Some(LineId(|lines| + |removed| + k)) else None, Some(|stops'|), false);
      var change := if isPair then StopChanged else StopRemoved;
      StopNext(lines + run, stops', counts', line);
      RemovedNext(run, |lines|, rawA, x, |removed|, |added|, line, words);
      assert lines + (run + [line]) == lines + run + [line];
      stops', counts' := stops' + [Stop(|stops'|, line.id, change)], Bumped(counts', change);
      run := run + [line];
    }
  }

  lemma NoRun(base: nat, rawA: seq<string>, rawB: seq<string>, x: nat, y: nat, m: nat, n: nat, words: seq<seq<Segment>>)
    ensures x <= |rawA| ==> RemovedRun([], base, rawA, x, m, n) && WordedOld([], words)
    ensures x + |words| <= |rawA| && y <= |rawB| ==>
      AddedRun([], base, rawB, y, m, n) && WordedNew([], words, rawA, x, rawB, y)
  {
  }

  lemma RemovedNext(run: seq<Line>, base: nat, raw: seq<string>, x: nat, m: nat, n: nat, line: Line,
                    words: seq<seq<Segment>>)
    requires RemovedRun(run, base, raw, x, m, n) && WordedOld(run, words) && |run| < m && x + |run| < |raw|
    requires line.id == LineId(base + |run|) && line.change == Align.Removed && line.oldNumber == Some(x + |run| + 1)
    requires line.pair == (if |run| < Min(m, n) then Some(LineId(base + m + |run|)) else None)
    requires AllText(line.segments) == StripCr(raw[x + |run|])
    requires !line.noted
    requires if |run| < |words| then line.segments == Without(words[|run|], Inserted) else NoMarks(line.segments)
    ensures RemovedRun(run + [line], base, raw, x, m, n) && WordedOld(run + [line], words)
  {
    hide StripCr, AllText, LineId, Without;
  }

  lemma AddedNext(run: seq<Line>, base: nat, rawA: seq<string>, x: nat, raw: seq<string>, y: nat, m: nat, n: nat,
                  line: Line, words: seq<seq<Segment>>)
    requires AddedRun(run, base, raw, y, m, n) && WordedNew(run, words, rawA, x, raw, y) && |run| < n
      && y + |run| < |raw|
    requires line.id == LineId(base + m + |run|) && line.change == Align.Added && line.newNumber == Some(y + |run| + 1)
    requires line.pair == (if |run| < Min(m, n) then Some(LineId(base + |run|)) else None)
    requires AllText(line.segments) == StripCr(raw[y + |run|])
    requires line.noted <==> |run| < |words| && StripCr(rawA[x + |run|]) == StripCr(raw[y + |run|])
    requires if |run| < |words| then line.segments == Without(words[|run|], Deleted) else NoMarks(line.segments)
    ensures AddedRun(run + [line], base, raw, y, m, n) && WordedNew(run + [line], words, rawA, x, raw, y)
  {
    hide StripCr, AllText, LineId, Without;
  }

  method PushAdded(rawA: seq<string>, rawB: seq<string>, base: nat, lines: seq<Line>, stops: seq<Stop>, counts: Counts,
                   removed: seq<nat>, added: seq<nat>, words: seq<seq<Segment>>, ghost x: nat, ghost y: nat)
    returns (run: seq<Line>, stops': seq<Stop>, counts': Counts)
    requires Stopped(lines, stops, counts) && Consecutive(removed, x) && x + |removed| <= |rawA|
    requires Consecutive(added, y) && y + |added| <= |rawB|
    requires |words| == Min(|removed|, |added|)
    requires forall k :: 0 <= k < |words| ==> NewText(words[k]) == StripCr(rawB[added[k]])
    ensures |run| == |added| && AddedRun(run, base, rawB, y, |removed|, |added|)
      && WordedNew(run, words, rawA, x, rawB, y)
    ensures Stopped(lines + run, stops', counts') && |stops'| == |stops| + |added| - |words|
  {
    hide StripCr, AllText, OldText, NewText, LineId, Stopped, AddedRun, WordedNew, Without;
    run, stops', counts' := [], stops, counts;
    assert lines + [] == lines;
    NoRun(base, rawA, rawB, x, y, |removed|, |added|, words);
    for k := 0 to |added|
      invariant |run| == k && AddedRun(run, base, rawB, y, |removed|, |added|)
        && WordedNew(run, words, rawA, x, rawB, y)
      invariant Stopped(lines + run, stops', counts') && |stops'| == |stops| + k - Min(k, |words|)
    {
      var isPair := k < |words|;
      if isPair {
        SideReads(words[k]);
      }
      var line := Line(LineId(base + |removed| + k), Align.Added, None, Some(added[k] + 1),
                       if isPair then Without(words[k], Deleted) else Plain(StripCr(rawB[added[k]])),
                       if isPair then Some(LineId(base + k)) else None, if isPair then None else Some(|stops'|),
                       isPair && StripCr(rawA[removed[k]]) == StripCr(rawB[added[k]]));
      StopNext(lines + run, stops', counts', line);
      AddedNext(run, base, rawA, x, rawB, y, |removed|, |added|, line, words);
      assert lines + (run + [line]) == lines + run + [line];
      if !isPair {
        stops', counts' := stops' + [Stop(|stops'|, line.id, StopAdded)], Bumped(counts', StopAdded);
      }
      run := run + [line];
    }
  }

  // What the two lines of a pair have in common.

  lemma {:induction false} CommonStays(words: seq<Segment>, kind: SegmentKind)
    requires kind != Unchanged
    ensures CommonText(Without(words, kind)) == CommonText(words)
    decreases |words|
  {
    if words != [] {
      var front, last := words[..|words| - 1], words[|words| - 1];
      CommonStays(front, kind);
      var left := Without(front, kind);
      if last.kind == kind {
        assert Without(words, kind) == left;
      } else {
        assert (left + [last])[..|left|] == left;
      }
    }
  }

  /** A removed line and an added line that are a pair: what is unmarked in one is unmarked in the other, no more is
    marked than needed, and the added one is noted exactly when both read the same, so that they differ in nothing but
    the ending. */
  ghost predicate Fit(classes: CharClasses, gone: Line, here: Line) {
    && CommonText(gone.segments) == CommonText(here.segments)
    && (here.noted <==> AllText(gone.segments) == AllText(here.segments))
    && MarksLittle(classes, AllText(gone.segments), AllText(here.segments), CommonText(gone.segments))
  }

  ghost predicate PairsFit(classes: CharClasses, lines: seq<Line>) {
    && (forall k, m ::
          0 <= k < |lines| && 0 <= m < |lines| && Mutual(lines, k, m) && lines[k].change == Align.Removed ==>
            Fit(classes, lines[k], lines[m]))
    && (forall k :: 0 <= k < |lines| && lines[k].noted ==> lines[k].change == Align.Added && lines[k].pair.Some?)
    && forall k :: 0 <= k < |lines| && lines[k].pair.None? ==> NoMarks(lines[k].segments)
  }

  ghost predicate RunFits(classes: CharClasses, removed: seq<Line>, added: seq<Line>) {
    && (forall k :: 0 <= k < Min(|removed|, |added|) ==> Fit(classes, removed[k], added[k]))
    && (forall k :: 0 <= k < |removed| ==> !removed[k].noted)
    && (forall k :: 0 <= k < |added| && added[k].noted ==> added[k].change == Align.Added && added[k].pair.Some?)
    && (forall k :: |added| <= k < |removed| ==> NoMarks(removed[k].segments))
    && (forall k :: |removed| <= k < |added| ==> NoMarks(added[k].segments))
  }

  lemma WordsFit(classes: CharClasses, removed: seq<Line>, added: seq<Line>, words: seq<seq<Segment>>, base: nat,
                 rawA: seq<string>, x: nat, rawB: seq<string>, y: nat)
    requires RemovedRun(removed, base, rawA, x, |removed|, |added|)
      && AddedRun(added, base, rawB, y, |removed|, |added|)
    requires |words| == Min(|removed|, |added|) && WordedOld(removed, words)
      && WordedNew(added, words, rawA, x, rawB, y)
    requires MarkedLittle(classes, words)
    ensures RunFits(classes, removed, added)
  {
    hide StripCr, AllText, CommonText, LineId, Without, OldText, NewText, MarksLittle;
    forall k | 0 <= k < |words|
      ensures Fit(classes, removed[k], added[k])
    {
      CommonStays(words[k], Inserted);
      CommonStays(words[k], Deleted);
      SideReads(words[k]);
    }
  }

  /** In a numbered list a line has one partner. */
  lemma PartnerIs(lines: seq<Line>, k: nat, m: nat, n: nat)
    requires k < |lines| && m < |lines| && n < |lines| && Mutual(lines, k, m) && lines[k].pair == Some(LineId(n))
    ensures m == n
  {
    hide LineId;
    LineIdsDiffer(m, n);
  }

  lemma RunFitsIn(classes: CharClasses, all: seq<Line>, base: nat, m: nat, n: nat)
    requires RunIn(all, base, m, n) && Paired(all[..base]) && PairsFit(classes, all[..base])
      && RunFits(classes, all[base..base + m], all[base + m..])
    ensures PairsFit(classes, all)
  {
    hide LineId, RunIn, Fit, Paired, Mutual, RunLine;
    RunLength(all, base, m, n);
    var lines, removed, added := all[..base], all[base..base + m], all[base + m..];
    forall k, l | 0 <= k < |all| && 0 <= l < |all| && Mutual(all, k, l) && all[k].change == Align.Removed
      ensures Fit(classes, all[k], all[l])
    {
      if k < base {
        PartnerBefore(all, base, k, l);
        assert lines[k] == all[k] && lines[l] == all[l];
      } else {
        PartnerInRun(all, base, m, n, k, l);
        assert removed[k - base] == all[k] && added[k - base] == all[l];
      }
    }
    assert forall k :: base <= k < base + m ==> all[k] == removed[k - base] && !all[k].noted;
    forall k | 0 <= k < |all| && all[k].noted
      ensures all[k].change == Align.Added && all[k].pair.Some?
    {
      if k < base {
        assert lines[k] == all[k];
      } else {
        assert added[k - base - m] == all[k];
      }
    }
    forall k | 0 <= k < |all| && all[k].pair.None?
      ensures NoMarks(all[k].segments)
    {
      if k < base {
        assert lines[k] == all[k];
      } else {
        LeftOver(all, base, m, n, k);
        if k < base + m {
          assert removed[k - base] == all[k];
        } else {
          assert added[k - base - m] == all[k];
        }
      }
    }
  }

  /** What is left over in a run is what the other side has no match for. */
  lemma LeftOver(all: seq<Line>, base: nat, m: nat, n: nat, k: nat)
    requires RunIn(all, base, m, n) && base <= k < |all| && all[k].pair.None?
    ensures if k < base + m then k - base >= n else k - base - m >= m
  {
    hide LineId;
    assert RunLine(all[k], base, m, n, k);
  }

  lemma PartnerBefore(all: seq<Line>, base: nat, k: nat, l: nat)
    requires k < base <= |all| && l < |all| && Paired(all[..base]) && Mutual(all, k, l)
    ensures l < base && Mutual(all[..base], k, l)
  {
    hide LineId;
    var lines := all[..base];
    assert lines[k] == all[k];
    var m :| 0 <= m < |lines| && Mutual(lines, k, m);
    PartnerIs(all, k, l, m);
  }

  lemma PartnerInRun(all: seq<Line>, base: nat, m: nat, n: nat, k: nat, l: nat)
    requires RunIn(all, base, m, n) && base <= k < |all| && l < |all| && Mutual(all, k, l)
      && all[k].change == Align.Removed
    ensures l == k + m && k - base < Min(m, n)
  {
    hide LineId;
    assert RunLine(all[k], base, m, n, k);
    PartnerIs(all, k, l, k + m);
  }

  lemma KeptFits(classes: CharClasses, lines: seq<Line>, line: Line)
    requires PairsFit(classes, lines) && Paired(lines) && line.pair.None? && !line.noted && NoMarks(line.segments)
    ensures PairsFit(classes, lines + [line])
  {
    hide LineId, Fit, Paired;
    var all := lines + [line];
    assert all[..|lines|] == lines;
    forall k, l | 0 <= k < |all| && 0 <= l < |all| && Mutual(all, k, l) && all[k].change == Align.Removed
      ensures Fit(classes, all[k], all[l])
    {
      PartnerBefore(all, |lines|, k, l);
      assert lines[k] == all[k] && lines[l] == all[l];
    }
  }

  // Every stretch of changes is zipped.

  /** The lines from `i` to before `j` are all the changes between two kept lines, or an end and a kept line. */
  ghost predicate Stretch(lines: seq<Line>, i: nat, j: nat) {
    && i < j <= |lines| && (forall k :: i <= k < j ==> lines[k].change != Align.Kept)
    && (i > 0 ==> lines[i - 1].change == Align.Kept) && (j < |lines| ==> lines[j].change == Align.Kept)
  }

  /** First `m` removed lines, then the added ones; the first of both are a pair, and the second, until either side has
    no more. */
  ghost predicate ZippedAt(lines: seq<Line>, i: nat, j: nat, m: nat)
    requires i + m <= j <= |lines|
  {
    && (forall k :: i <= k < i + m ==> lines[k].change == Align.Removed && (k + m >= j ==> lines[k].pair.None?))
    && (forall k :: i + m <= k < j ==> lines[k].change == Align.Added && (k >= i + m + m ==> lines[k].pair.None?))
    && forall k, l :: i <= k < i + m && l == k + m && l < j ==>
         lines[k].pair == Some(lines[l].id) && lines[l].pair == Some(lines[k].id)
  }

  ghost predicate StretchZipped(lines: seq<Line>, i: nat, j: nat)
    requires j <= |lines|
  {
    exists m: nat :: i + m <= j && ZippedAt(lines, i, j, m)
  }

  ghost predicate AllZipped(lines: seq<Line>) {
    && (forall i, j :: Stretch(lines, i, j) ==> StretchZipped(lines, i, j))
    && forall k :: 0 <= k < |lines| && lines[k].change == Align.Kept ==> lines[k].pair.None?
  }

  lemma StretchBefore(lines: seq<Line>, more: seq<Line>, i: nat, j: nat)
    requires AllZipped(lines) && Stretch(lines + more, i, j) && j <= |lines|
    ensures StretchZipped(lines + more, i, j)
  {
    var all := lines + more;
    assert forall k :: 0 <= k < |lines| ==> all[k] == lines[k];
    assert Stretch(lines, i, j);
    var m: nat :| i + m <= j && ZippedAt(lines, i, j, m);
    assert ZippedAt(all, i, j, m);
  }

  lemma KeptZipped(lines: seq<Line>, line: Line)
    requires AllZipped(lines) && line.change == Align.Kept && line.pair.None?
    ensures AllZipped(lines + [line])
  {
    hide StretchZipped;
    var all := lines + [line];
    assert all[|all| - 1] == line;
    forall i: nat, j: nat | Stretch(all, i, j)
      ensures StretchZipped(all, i, j)
    {
      StretchBefore(lines, [line], i, j);
    }
  }

  lemma RunZipped(lines: seq<Line>, removed: seq<Line>, added: seq<Line>)
    requires AllZipped(lines) && (lines != [] ==> lines[|lines| - 1].change == Align.Kept)
    requires RunIn(lines + removed + added, |lines|, |removed|, |added|)
    ensures AllZipped(lines + removed + added)
  {
    hide StretchZipped, LineId, RunLine, ZippedAt;
    var all, base, m := lines + removed + added, |lines|, |removed|;
    var more := removed + added;
    assert all == lines + more;
    assert forall k :: 0 <= k < base ==> all[k] == lines[k];
    RunLooks(all, base, m, |added|);
    assert base > 0 ==> all[base - 1].change == Align.Kept;
    forall i: nat, j: nat | Stretch(all, i, j)
      ensures StretchZipped(all, i, j)
    {
      if j <= base {
        StretchBefore(lines, more, i, j);
      } else {
        StretchIsRun(all, base, i, j);
        OneStretch(all, base, m);
      }
    }
  }

  lemma StretchIsRun(all: seq<Line>, base: nat, i: nat, j: nat)
    requires base <= |all| && (base > 0 ==> all[base - 1].change == Align.Kept)
    requires forall k :: base <= k < |all| ==> all[k].change != Align.Kept
    requires Stretch(all, i, j) && j > base
    ensures i == base && j == |all|
  {
  }

  lemma OneStretch(all: seq<Line>, base: nat, m: nat)
    requires base + m <= |all| && ZippedAt(all, base, |all|, m)
    ensures StretchZipped(all, base, |all|)
  {
    hide ZippedAt;
  }

  lemma RunLooks(all: seq<Line>, base: nat, m: nat, n: nat)
    requires RunIn(all, base, m, n)
    ensures ZippedAt(all, base, |all|, m)
    ensures forall k :: base <= k < |all| ==> all[k].change != Align.Kept
  {
    hide LineId;
    RunLength(all, base, m, n);
    assert forall k :: base <= k < |all| ==> RunLine(all[k], base, m, n, k);
  }

  // What the counts count.

  ghost function Where(lines: seq<Line>, change: Align.Change, paired: bool): (r: set<int>)
    ensures forall k :: k in r <==> 0 <= k < |lines| && lines[k].change == change && lines[k].pair.Some? == paired
  {
    set k | 0 <= k < |lines| && lines[k].change == change && lines[k].pair.Some? == paired
  }

  /** A pair counts as one change; what has no partner counts as removed or as added. */
  ghost predicate CountsChanges(lines: seq<Line>, counts: Counts) {
    && counts.changed == |Where(lines, Align.Removed, true)|
    && counts.removed == |Where(lines, Align.Removed, false)|
    && counts.added == |Where(lines, Align.Added, false)|
  }

  lemma {:induction false} StopsCount(lines: seq<Line>)
    ensures CountOf(StopsOf(lines), StopChanged) == |Where(lines, Align.Removed, true)|
    ensures CountOf(StopsOf(lines), StopRemoved) == |Where(lines, Align.Removed, false)|
    ensures CountOf(StopsOf(lines), StopAdded) == |Where(lines, Align.Added, false)|
  {
    hide StopsOf, CountOf, Where;
    if lines == [] {
      NothingCounted();
    } else {
      var n := |lines| - 1;
      StopsCount(lines[..n]);
      OneWhere(lines, Align.Removed, true);
      OneWhere(lines, Align.Removed, false);
      OneWhere(lines, Align.Added, false);
      StopsGrow(lines, StopsOf(lines[..n]), lines[n]);
    }
  }

  lemma NothingCounted()
    ensures forall change :: CountOf(StopsOf([]), change) == 0
    ensures forall change, paired :: |Where([], change, paired)| == 0
  {
    hide StopFor;
    assert forall change, paired :: Where([], change, paired) == {};
  }

  /** The last line adds its stop, if it has one. */
  lemma StopsGrow(lines: seq<Line>, stops: seq<Stop>, last: Line)
    requires lines != [] && stops == StopsOf(lines[..|lines| - 1]) && last == lines[|lines| - 1]
    ensures forall change ::
              CountOf(StopsOf(lines), change) == CountOf(stops, change) + if StopFor(last) == Some(change) then 1 else 0
  {
    hide CountOf;
    if StopFor(last).Some? {
      var stop := Stop(|stops|, last.id, StopFor(last).value);
      assert StopsOf(lines) == stops + [stop];
      CountNext(stops, stop);
    } else {
      assert StopsOf(lines) == stops;
    }
  }

  lemma OneWhere(lines: seq<Line>, change: Align.Change, paired: bool)
    requires lines != []
    ensures var front, last := lines[..|lines| - 1], lines[|lines| - 1];
            |Where(lines, change, paired)|
            == |Where(front, change, paired)| + if last.change == change && last.pair.Some? == paired then 1 else 0
  {
    var n := |lines| - 1;
    var front, all := Where(lines[..n], change, paired), Where(lines, change, paired);
    forall k
      ensures k in all <==> k in front || (k == n && lines[n].change == change && lines[n].pair.Some? == paired)
    {
      if 0 <= k < n {
        assert lines[..n][k] == lines[k];
      }
    }
    if lines[n].change == change && lines[n].pair.Some? == paired {
      assert all == front + {n};
    } else {
      assert all == front;
    }
  }

  /** How many lines are shown as kept. */
  function KeptLines(lines: seq<Line>): nat {
    if lines == [] then 0
    else KeptLines(lines[..|lines| - 1]) + if lines[|lines| - 1].change == Align.Kept then 1 else 0
  }

  lemma {:induction false} KeptLinesJoin(lines: seq<Line>, more: seq<Line>)
    ensures KeptLines(lines + more) == KeptLines(lines) + KeptLines(more)
    ensures (forall i :: 0 <= i < |more| ==> more[i].change != Align.Kept) ==> KeptLines(more) == 0
    decreases |more|
  {
    if more == [] {
      assert lines + more == lines;
    } else {
      var front := more[..|more| - 1];
      KeptLinesJoin(lines, front);
      assert (lines + more)[..|lines + more| - 1] == lines + front;
    }
  }

  /** No line that could be kept is shown as changed: no script between the two texts' lines keeps more of them. */
  ghost predicate KeepsMost(left: string, right: string, kept: nat) {
    forall other :: IsEditScript(Split(left), Split(right), (x: string, y: string) => x == y, other) ==>
      KeptCount(other) <= kept
  }

  /** A line diff: its lines read as both texts, in order, keep as many lines as can be kept, and its stops count its
    changes. */
  ghost predicate IsTextDiff(classes: CharClasses, left: string, right: string, model: TextModel) {
    && KeepsMost(left, right, KeptLines(model.lines))
    && Shows(model.lines, Split(left), |Split(left)|, Split(right), |Split(right)|) && PairsFit(classes, model.lines)
    && AllZipped(model.lines) && CountsChanges(model.lines, model.counts)
    && Stopped(model.lines, model.stops, model.counts)
    && model.counts.added + model.counts.removed + model.counts.changed == |model.stops|
    && (model.identical <==> model.stops == []) && (model.identical <==> left == right)
  }

  function Stripped(raw: seq<string>): (r: seq<string>)
    ensures |r| == |raw| && forall i :: 0 <= i < |raw| ==> r[i] == StripCr(raw[i])
  {
    seq(|raw|, i requires 0 <= i < |raw| => StripCr(raw[i]))
  }

  ghost predicate NoChangeYet(ops: seq<SequenceOp>, i: nat)
    requires i <= |ops|
  {
    forall k :: 0 <= k < i ==> ops[k].Equal?
  }

  lemma KeptNext(ops: seq<SequenceOp>, k: nat)
    requires k < |ops|
    ensures KeptCount(ops[..k + 1]) == KeptCount(ops[..k]) + if ops[k].Equal? then 1 else 0
  {
    assert ops[..k + 1][..k] == ops[..k];
  }

  /** The change run that begins at `start`, as what it removes and what it adds. */
  method CollectRun(ops: seq<SequenceOp>, start: nat, n: nat, m: nat, ghost x: nat, ghost y: nat)
    returns (removed: seq<nat>, added: seq<nat>, end: nat)
    requires OldSide(ops) == Range(0, n) && NewSide(ops) == Range(0, m)
    requires start < |ops| && !ops[start].Equal? && ReadTo(ops, start, x, y) && x <= n && y <= m
    ensures start < end <= |ops| && |removed| + |added| == end - start
    ensures x + |removed| <= n && y + |added| <= m && ReadTo(ops, end, x + |removed|, y + |added|)
    ensures Consecutive(removed, x) && Consecutive(added, y)
    ensures KeptCount(ops[..end]) == KeptCount(ops[..start])
    ensures end == |ops| || ops[end].Equal?
  {
    hide OldSide, NewSide, ReadTo;
    removed, added, end := [], [], start;
    while end < |ops| && !ops[end].Equal?
      invariant start <= end <= |ops| && |removed| + |added| == end - start
      invariant KeptCount(ops[..end]) == KeptCount(ops[..start])
      invariant x + |removed| <= n && y + |added| <= m && ReadTo(ops, end, x + |removed|, y + |added|)
      invariant Consecutive(removed, x) && Consecutive(added, y)
    {
      NextOp(ops, n, m, end, x + |removed|, y + |added|);
      KeptNext(ops, end);
      if ops[end].Removed? {
        removed := removed + [ops[end].a];
      } else {
        added := added + [ops[end].b];
      }
      end := end + 1;
    }
  }

  method TextDiff(classes: CharClasses, left: string, right: string) returns (model: TextModel)
    ensures IsTextDiff(classes, left, right, model)
  {
    hide OldSide, NewSide, Edits, Shows, Stopped, RemovedRun, AddedRun, ReadTo, StripCr, AllText, LineId, Split,
      RemovalsLead, KeptCount, KeptLines, KeepsMost, PairsFit, WordedOld, WordedNew, AllZipped, CountsChanges,
      MarkedLittle, Drawn, NoMarks;
    var rawA, rawB := Split(left), Split(right);
    var a, b := Stripped(rawA), Stripped(rawB);
    var equals := (x: string, y: string) => x == y;
    var ops := DiffSequence(rawA, rawB, equals);
    var lines: seq<Line>, stops: seq<Stop>, counts := [], [], Counts(0, 0, 0);
    ghost var x: nat, y: nat := 0, 0;
    Begin(classes, ops, rawA, rawB);
    var i := 0;
    while i < |ops|
      invariant 0 <= i <= |ops| && ReadTo(ops, i, x, y) && x <= |rawA| && y <= |rawB|
      invariant Drawn(classes, lines, rawA, x, rawB, y) && Stopped(lines, stops, counts)
      invariant stops == [] <==> NoChangeYet(ops, i)
      invariant KeptLines(lines) == KeptCount(ops[..i])
      invariant lines != [] && i < |ops| && !ops[i].Equal? ==> lines[|lines| - 1].change == Align.Kept
    {
      var op := ops[i];
      NextOp(ops, |rawA|, |rawB|, i, x, y);
      assert op in ops;
      if op.Equal? {
        var line := Line(LineId(|lines|), Align.Kept, Some(op.a + 1), Some(op.b + 1), Plain(a[op.a]), None, None,
                         false);
        DrawKept(classes, lines, rawA, x, rawB, y, line);
        StopNext(lines, stops, counts, line);
        KeptNext(ops, i);
        OneKept(lines, line);
        lines := lines + [line];
        i, x, y := i + 1, x + 1, y + 1;
      } else {
        assert !NoChangeYet(ops, i + 1);
        var removed, added, end := CollectRun(ops, i, |rawA|, |rawB|, x, y);
        assert !NoChangeYet(ops, end);
        var words := PairWords(classes, a, b, removed, added);
        var gone, stops1, counts1 := PushRemoved(rawA, lines, stops, counts, removed, added, words, x);
        var here, stops2, counts2 :=
          PushAdded(rawA, rawB, |lines|, lines + gone, stops1, counts1, removed, added, words, x, y);
        DrawRun(classes, lines, rawA, x, rawB, y, gone, here, words);
        NoneKept(lines, rawA, x, rawB, y, gone, here);
        lines, stops, counts := lines + gone + here, stops2, counts2;
        i, x, y := end, x + |removed|, y + |added|;
      }
    }
    ReadAll(ops, |rawA|, |rawB|, x, y);
    AllDrawn(classes, lines, rawA, x, rawB, y);
    model := TextModel(lines, stops, counts, stops == []);
    Identical(left, right, ops);
    Cheapest(left, right, ops);
    assert ops[..i] == ops;
    CountsAddUp(stops);
    StoppedCounts(lines, stops, counts);
    CountsMean(lines, stops, counts);
  }

  /** What the lines drawn so far are: the first `x` old and `y` new ones, with pairs that fit, every stretch zipped. */
  ghost predicate Drawn(classes: CharClasses, lines: seq<Line>, rawA: seq<string>, x: nat, rawB: seq<string>, y: nat) {
    Shows(lines, rawA, x, rawB, y) && PairsFit(classes, lines) && AllZipped(lines)
  }

  lemma AllDrawn(classes: CharClasses, lines: seq<Line>, rawA: seq<string>, x: nat, rawB: seq<string>, y: nat)
    requires Drawn(classes, lines, rawA, x, rawB, y)
    ensures Shows(lines, rawA, x, rawB, y) && PairsFit(classes, lines) && AllZipped(lines)
  {
  }

  lemma DrawKept(classes: CharClasses, lines: seq<Line>, rawA: seq<string>, x: nat, rawB: seq<string>, y: nat,
                 line: Line)
    requires Drawn(classes, lines, rawA, x, rawB, y) && x < |rawA| && y < |rawB| && rawA[x] == rawB[y]
    requires line.id == LineId(|lines|) && line.change == Align.Kept && line.pair.None? && !line.noted
    requires line.oldNumber == Some(x + 1) && line.newNumber == Some(y + 1)
    requires AllText(line.segments) == StripCr(rawA[x]) && NoMarks(line.segments)
    ensures Drawn(classes, lines + [line], rawA, x + 1, rawB, y + 1)
  {
    hide Shows, PairsFit, AllZipped, StripCr, AllText, LineId, NoMarks;
    ShowsKept(lines, rawA, x, rawB, y, line);
    FitsKept(classes, lines, rawA, x, rawB, y, line);
    KeptZipped(lines, line);
  }

  lemma DrawRun(classes: CharClasses, lines: seq<Line>, rawA: seq<string>, x: nat, rawB: seq<string>, y: nat,
                removed: seq<Line>, added: seq<Line>, words: seq<seq<Segment>>)
    requires Drawn(classes, lines, rawA, x, rawB, y) && (lines != [] ==> lines[|lines| - 1].change == Align.Kept)
    requires RemovedRun(removed, |lines|, rawA, x, |removed|, |added|)
      && AddedRun(added, |lines|, rawB, y, |removed|, |added|)
    requires |words| == Min(|removed|, |added|) && WordedOld(removed, words)
      && WordedNew(added, words, rawA, x, rawB, y)
    requires MarkedLittle(classes, words)
    ensures Drawn(classes, lines + removed + added, rawA, x + |removed|, rawB, y + |added|)
  {
    hide Shows, PairsFit, AllZipped, RemovedRun, AddedRun, WordedOld, WordedNew, MarkedLittle;
    ShowsRun(lines, rawA, x, rawB, y, removed, added);
    FitsRun(classes, lines, rawA, x, rawB, y, removed, added, words);
    ZippedRun(lines, rawA, x, rawB, y, removed, added);
  }

  lemma CountsMean(lines: seq<Line>, stops: seq<Stop>, counts: Counts)
    requires Stopped(lines, stops, counts)
    ensures CountsChanges(lines, counts)
  {
    hide StopsOf, CountOf, Where;
    StopsCount(lines);
  }

  lemma ZippedRun(lines: seq<Line>, rawA: seq<string>, x: nat, rawB: seq<string>, y: nat, removed: seq<Line>,
                  added: seq<Line>)
    requires Shows(lines, rawA, x, rawB, y) && AllZipped(lines)
    requires lines != [] ==> lines[|lines| - 1].change == Align.Kept
    requires RemovedRun(removed, |lines|, rawA, x, |removed|, |added|)
      && AddedRun(added, |lines|, rawB, y, |removed|, |added|)
    ensures AllZipped(lines + removed + added)
  {
    hide Paired, Numbered, Zipped, KeptAreSame, ReadsOld, ReadsNew, RemovedRun, AddedRun, RunIn, AllZipped;
    RunIsIn(lines, rawA, x, rawB, y, removed, added);
    RunZipped(lines, removed, added);
  }

  /** A cheapest script of the lines of two texts keeps everything exactly when the texts are the same. */
  lemma Identical(left: string, right: string, ops: seq<SequenceOp>)
    requires IsEditScript(Split(left), Split(right), (x: string, y: string) => x == y, ops)
    requires forall other :: IsEditScript(Split(left), Split(right), (x: string, y: string) => x == y, other) ==>
      Edits(ops) <= Edits(other)
    ensures NoChangeYet(ops, |ops|) <==> left == right
  {
    hide OldSide, NewSide, Edits, Split, Join;
    NoEditIff(Split(left), Split(right), (x: string, y: string) => x == y, ops);
    NoEditsAllEqual(ops);
    JoinSplit(left);
    JoinSplit(right);
  }

  lemma Cheapest(left: string, right: string, ops: seq<SequenceOp>)
    requires IsEditScript(Split(left), Split(right), (x: string, y: string) => x == y, ops)
    requires forall other :: IsEditScript(Split(left), Split(right), (x: string, y: string) => x == y, other) ==>
      Edits(ops) <= Edits(other)
    ensures KeepsMost(left, right, KeptCount(ops))
  {
    hide OldSide, NewSide, Edits, Split, KeptCount;
    forall other | IsEditScript(Split(left), Split(right), (x: string, y: string) => x == y, other)
      ensures KeptCount(other) <= KeptCount(ops)
    {
      CheapestKeepsMost(Split(left), Split(right), (x: string, y: string) => x == y, ops, other);
    }
  }

  lemma OneKept(lines: seq<Line>, line: Line)
    ensures KeptLines(lines + [line]) == KeptLines(lines) + if line.change == Align.Kept then 1 else 0
  {
    assert (lines + [line])[..|lines|] == lines;
  }

  lemma FitsKept(classes: CharClasses, lines: seq<Line>, rawA: seq<string>, x: nat, rawB: seq<string>, y: nat,
                 line: Line)
    requires Shows(lines, rawA, x, rawB, y) && PairsFit(classes, lines) && line.pair.None? && !line.noted
      && NoMarks(line.segments)
    ensures PairsFit(classes, lines + [line])
  {
    hide PairsFit, Paired, Numbered, Zipped, KeptAreSame, ReadsOld, ReadsNew;
    KeptFits(classes, lines, line);
  }

  lemma FitsRun(classes: CharClasses, lines: seq<Line>, rawA: seq<string>, x: nat, rawB: seq<string>, y: nat,
                removed: seq<Line>, added: seq<Line>, words: seq<seq<Segment>>)
    requires Shows(lines, rawA, x, rawB, y) && PairsFit(classes, lines)
    requires RemovedRun(removed, |lines|, rawA, x, |removed|, |added|)
      && AddedRun(added, |lines|, rawB, y, |removed|, |added|)
    requires |words| == Min(|removed|, |added|) && WordedOld(removed, words)
      && WordedNew(added, words, rawA, x, rawB, y)
    requires MarkedLittle(classes, words)
    ensures PairsFit(classes, lines + removed + added)
  {
    hide PairsFit, Paired, Numbered, Zipped, KeptAreSame, ReadsOld, ReadsNew, RemovedRun, AddedRun, WordedOld,
      WordedNew, RunIn, RunFits, MarkedLittle;
    var all, base, m := lines + removed + added, |lines|, |removed|;
    RunIsIn(lines, rawA, x, rawB, y, removed, added);
    WordsFit(classes, removed, added, words, base, rawA, x, rawB, y);
    assert all[..base] == lines && all[base..base + m] == removed && all[base + m..] == added;
    RunFitsIn(classes, all, base, m, |added|);
  }

  lemma NoneKept(lines: seq<Line>, rawA: seq<string>, x: nat, rawB: seq<string>, y: nat, removed: seq<Line>,
                 added: seq<Line>)
    requires RemovedRun(removed, |lines|, rawA, x, |removed|, |added|)
      && AddedRun(added, |lines|, rawB, y, |removed|, |added|)
    ensures KeptLines(lines + removed + added) == KeptLines(lines)
  {
    hide AllText, StripCr, LineId, KeptLines;
    KeptLinesJoin(lines, removed);
    KeptLinesJoin(lines + removed, added);
  }

  lemma StoppedCounts(lines: seq<Line>, stops: seq<Stop>, counts: Counts)
    requires Stopped(lines, stops, counts)
    ensures Counted(stops, counts)
  {
  }

  lemma Begin(classes: CharClasses, ops: seq<SequenceOp>, rawA: seq<string>, rawB: seq<string>)
    ensures ReadTo(ops, 0, 0, 0) && Shows([], rawA, 0, rawB, 0) && Drawn(classes, [], rawA, 0, rawB, 0)
      && Stopped([], [], Counts(0, 0, 0))
    ensures KeptLines([]) == KeptCount(ops[..0]) && AllZipped([])
  {
    ReadNothing(ops);
  }

  /** The two-column view: the left cells that are not blank read exactly the old text's lines, in order, and the right
    cells the new text's. */
  method SideBySide(classes: CharClasses, left: string, right: string) returns (model: TextModel, rows: seq<SideRow>)
    ensures IsTextDiff(classes, left, right, model)
    ensures ReadsOld(Lefts(rows), Split(left), |Split(left)|) && ReadsNew(Rights(rows), Split(right), |Split(right)|)
    ensures forall row :: row in rows && row.left.Some? && row.left.value.pair.Some? ==>
      row.right.Some? && row.right.value.id == row.left.value.pair.value
        && row.right.value.pair == Some(row.left.value.id)
  {
    hide Lefts, Rights, OldLines, NewLines, Numbered, Paired, KeptAreSame, ReadsOld, ReadsNew, Split, RowOf;
    model := TextDiff(classes, left, right);
    rows := AlignLines(model.lines);
    forall row | row in rows && row.left.Some? && row.left.value.pair.Some?
      ensures row.right.Some? && row.right.value.id == row.left.value.pair.value
        && row.right.value.pair == Some(row.left.value.id)
    {
      OneRowForAPair(model.lines, row);
    }
  }

  lemma OneRowForAPair(lines: seq<Line>, row: SideRow)
    requires Numbered(lines) && Paired(lines) && RowOf(row, lines)
    requires row.left.Some? && row.left.value.pair.Some?
    ensures row.right.Some? && row.right.value.id == row.left.value.pair.value
      && row.right.value.pair == Some(row.left.value.id)
  {
    hide LineId, ById;
    var k :| 0 <= k < |lines| && lines[k] == row.left.value;
    var m :| 0 <= m < |lines| && Mutual(lines, k, m);
    FoundByPlace(lines, m);
  }
}
