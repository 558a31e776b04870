/** The profiler's statistics as values: what a tic does to them, what a
    sequence of tics leaves behind, which rows a report prints and how an
    annotated copy pairs each source line with its statistics. The class in
    module Profiler is specified by these functions. */
module Recording {
  import opened Basics
  import opened LineCount

  /** The statistics of one source line: how often it was tic'd and the
      running average of the durations that ended at it, in nanoseconds. */
  datatype Cell = Cell(calls: int, average: int)

  /** The whole recorder: call counts and averages indexed by `line - 1`, and
      the time stamp of the previous tic (or of construction). */
  datatype Snapshot = Snapshot(counts: seq<int>, averages: seq<int>, previous: int)

  predicate WellFormed(s: Snapshot)
  {
    |s.counts| == |s.averages| && forall i :: 0 <= i < |s.counts| ==> s.counts[i] >= 0
  }

  /** A recorder just constructed at time `now` over `numlines` lines. */
  function Fresh(numlines: nat, now: int): (s: Snapshot)
    ensures WellFormed(s) && |s.counts| == numlines
  {
    Snapshot(seq(numlines, _ => 0), seq(numlines, _ => 0), now)
  }

  // ---------------------------------------------------------------------
  // The incremental mean

  /** The average after one more duration `d`, given average `a` over `n`
      earlier durations, in the integer arithmetic of the recorder. */
  function FoldMean(a: int, n: int, d: int): (r: int)
    requires n >= 0
    ensures n == 0 ==> r == d
    ensures a >= 0 && d >= 0 ==> r >= 0
  {
    TruncDiv(a * n + d, n + 1)
  }

  /** A duration equal to the current average leaves the average unchanged,
      and the first duration of a line becomes its average. */
  lemma FoldMeanConstant(a: int, n: int, d: int)
    requires n >= 0 && (n == 0 || a == d)
    ensures FoldMean(a, n, d) == d
  {
    assert a * n + d == d * (n + 1);
    TruncDivExact(d, n + 1);
  }

  /** If the old average (when there is one) and the new duration lie in
      `[lo, hi]`, so does the new average. */
  lemma FoldMeanBounds(a: int, n: int, d: int, lo: int, hi: int)
    requires n >= 0 && lo <= d <= hi && (n == 0 || lo <= a <= hi)
    ensures lo <= FoldMean(a, n, d) <= hi
  {
    assert lo * n <= a * n <= hi * n;
    TruncDivBounds(a * n + d, n + 1, lo, hi);
  }

  /** The stored average of `count` non-negative durations summing to `total`
      never exceeds their exact mean and falls short of it by at most
      `(count - 1) / 2`: each truncation loses less than one unit per
      earlier duration. */
  predicate DriftWithin(count: int, average: int, total: int)
  {
    average >= 0 && count * average <= total && 2 * (total - count * average) <= count * (count - 1)
  }

  lemma FoldMeanDrift(a: int, n: int, d: int, t: int)
    requires n >= 0 && d >= 0 && DriftWithin(n, a, t)
    ensures DriftWithin(n + 1, FoldMean(a, n, d), t + d)
  {
    var x := a * n + d;
    assert x >= 0;
    var q := FoldMean(a, n, d);
    assert q == x / (n + 1);
    DriftStep(n, a, t, q, x % (n + 1), d);
  }

  /** The drift step in terms of quotient `q` and remainder `r` of the
      division: the remainder is the new loss, below one unit per earlier
      duration. */
  lemma DriftStep(n: int, a: int, t: int, q: int, r: int, d: int)
    requires n >= 0 && q >= 0 && 0 <= r <= n && DriftWithin(n, a, t)
    requires q * (n + 1) + r == a * n + d
    ensures DriftWithin(n + 1, q, t + d)
  {
    assert (t + d) - (n + 1) * q == (t - n * a) + r;
    assert n * (n - 1) + 2 * n == (n + 1) * n;
  }

  // ---------------------------------------------------------------------
  // Tics

  /** A tic on `line` at time `now`: the line's count grows by one, the
      duration since the previous tic is folded into its average, and `now`
      becomes the previous time stamp. Nothing else changes. */
  function TicSpec(s: Snapshot, line: int, now: int): (r: Snapshot)
    requires WellFormed(s) && 1 <= line <= |s.counts|
    ensures WellFormed(r) && |r.counts| == |s.counts|
  {
    var n := s.counts[line - 1];
    Snapshot(s.counts[line - 1 := n + 1],
             s.averages[line - 1 := FoldMean(s.averages[line - 1], n, now - s.previous)],
             now)
  }

  /** A tic as a caller issues it: the line it names and the time it reads. */
  datatype Event = Event(line: int, now: int)

  predicate InRange(evs: seq<Event>, numlines: int)
  {
    forall k :: 0 <= k < |evs| ==> 1 <= evs[k].line <= numlines
  }

  /** The recorder after the tics `evs`, in order. */
  function Run(s: Snapshot, evs: seq<Event>): (r: Snapshot)
    requires WellFormed(s) && InRange(evs, |s.counts|)
    ensures WellFormed(r) && |r.counts| == |s.counts|
    ensures r.previous == if evs == [] then s.previous else evs[|evs| - 1].now
    decreases |evs|
  {
    if evs == [] then s else Run(TicSpec(s, evs[0].line, evs[0].now), evs[1..])
  }

  /** How many of the tics `evs` name `line`. */
  function Occurrences(evs: seq<Event>, line: int): nat
  {
    if evs == [] then 0 else (if evs[0].line == line then 1 else 0) + Occurrences(evs[1..], line)
  }

  /** The duration each tic observes: the time since the tic before it, the
      first one measured from `prev`. */
  function Durations(prev: int, evs: seq<Event>): (ds: seq<int>)
    ensures |ds| == |evs|
    decreases |evs|
  {
    if evs == [] then [] else [evs[0].now - prev] + Durations(evs[0].now, evs[1..])
  }

  /** The sum of the durations observed by the tics on `line`. */
  function LineTotal(prev: int, evs: seq<Event>, line: int): int
    decreases |evs|
  {
    if evs == [] then 0
    else (if evs[0].line == line then evs[0].now - prev else 0) + LineTotal(evs[0].now, evs[1..], line)
  }

  predicate Within(ds: seq<int>, lo: int, hi: int)
  {
    forall k :: 0 <= k < |ds| ==> lo <= ds[k] <= hi
  }

  predicate NonNegative(ds: seq<int>)
  {
    forall k :: 0 <= k < |ds| ==> ds[k] >= 0
  }

  /** Every line that has been tic'd has its average in `[lo, hi]`. */
  predicate AveragesWithin(s: Snapshot, lo: int, hi: int)
    requires WellFormed(s)
  {
    forall i :: 0 <= i < |s.counts| && s.counts[i] > 0 ==> lo <= s.averages[i] <= hi
  }

  /** Each tic adds one to the count of the line it names; a line that no tic
      names keeps its count and its average. */
  lemma {:induction false} RunCounts(s: Snapshot, evs: seq<Event>, i: int)
    requires WellFormed(s) && InRange(evs, |s.counts|) && 0 <= i < |s.counts|
    ensures Run(s, evs).counts[i] == s.counts[i] + Occurrences(evs, i + 1)
    ensures Occurrences(evs, i + 1) == 0 ==> Run(s, evs).averages[i] == s.averages[i]
    decreases |evs|
  {
    if evs != [] {
      var s' := TicSpec(s, evs[0].line, evs[0].now);
      assert InRange(evs[1..], |s'.counts|);
      RunCounts(s', evs[1..], i);
    }
  }

  /** From a fresh recorder, every count is the number of tics on its line,
      and a line never tic'd keeps count 0 and average 0. */
  lemma FreshRunCounts(numlines: nat, start: int, evs: seq<Event>)
    requires InRange(evs, numlines)
    ensures var r := Run(Fresh(numlines, start), evs);
      forall i :: 0 <= i < numlines ==>
        r.counts[i] == Occurrences(evs, i + 1) && (r.counts[i] == 0 ==> r.averages[i] == 0)
  {
    forall i | 0 <= i < numlines
      ensures Run(Fresh(numlines, start), evs).counts[i] == Occurrences(evs, i + 1)
      ensures Occurrences(evs, i + 1) == 0 ==> Run(Fresh(numlines, start), evs).averages[i] == 0
    {
      RunCounts(Fresh(numlines, start), evs, i);
    }
  }

  lemma {:induction false} OccurrencesSameLine(evs: seq<Event>, line: int)
    requires forall k :: 0 <= k < |evs| ==> evs[k].line == line
    ensures Occurrences(evs, line) == |evs|
    decreases |evs|
  {
    if evs != [] {
      OccurrencesSameLine(evs[1..], line);
    }
  }

  /** `k` tics on the same line of a fresh recorder leave that line's count
      at `k`. */
  lemma RepeatedTicsCount(numlines: nat, start: int, evs: seq<Event>, line: int)
    requires 1 <= line <= numlines
    requires forall k :: 0 <= k < |evs| ==> evs[k].line == line
    ensures Run(Fresh(numlines, start), evs).counts[line - 1] == |evs|
  {
    RunCounts(Fresh(numlines, start), evs, line - 1);
    OccurrencesSameLine(evs, line);
  }

  /** When every duration lies in `[lo, hi]`, every average stays there. */
  lemma {:induction false} RunAveragesWithin(s: Snapshot, evs: seq<Event>, lo: int, hi: int)
    requires WellFormed(s) && InRange(evs, |s.counts|)
    requires AveragesWithin(s, lo, hi) && Within(Durations(s.previous, evs), lo, hi)
    ensures AveragesWithin(Run(s, evs), lo, hi)
    decreases |evs|
  {
    if evs != [] {
      var e := evs[0];
      var ds := Durations(s.previous, evs);
      assert ds[0] == e.now - s.previous;
      FoldMeanBounds(s.averages[e.line - 1], s.counts[e.line - 1], e.now - s.previous, lo, hi);
      var s' := TicSpec(s, e.line, e.now);
      assert AveragesWithin(s', lo, hi);
      assert Durations(s'.previous, evs[1..]) == ds[1..];
      assert InRange(evs[1..], |s'.counts|);
      RunAveragesWithin(s', evs[1..], lo, hi);
    }
  }

  /** From a fresh recorder, when every observed duration is `d`, every line
      that has been tic'd has average exactly `d`. */
  lemma ConstantDurationAverage(numlines: nat, start: int, evs: seq<Event>, d: int)
    requires InRange(evs, numlines) && Within(Durations(start, evs), d, d)
    ensures var r := Run(Fresh(numlines, start), evs);
      forall i :: 0 <= i < numlines && r.counts[i] > 0 ==> r.averages[i] == d
  {
    RunAveragesWithin(Fresh(numlines, start), evs, d, d);
  }

  lemma {:induction false} RunDrift(s: Snapshot, evs: seq<Event>, i: int, t: int)
    requires WellFormed(s) && InRange(evs, |s.counts|) && 0 <= i < |s.counts|
    requires NonNegative(Durations(s.previous, evs))
    requires DriftWithin(s.counts[i], s.averages[i], t)
    ensures DriftWithin(Run(s, evs).counts[i], Run(s, evs).averages[i], t + LineTotal(s.previous, evs, i + 1))
    decreases |evs|
  {
    if evs != [] {
      var e := evs[0];
      var d := e.now - s.previous;
      var ds := Durations(s.previous, evs);
      assert ds[0] == d;
      var s' := TicSpec(s, e.line, e.now);
      var t' := if e.line == i + 1 then t + d else t;
      if e.line == i + 1 {
        FoldMeanDrift(s.averages[i], s.counts[i], d, t);
      }
      assert DriftWithin(s'.counts[i], s'.averages[i], t');
      assert Durations(s'.previous, evs[1..]) == ds[1..];
      assert InRange(evs[1..], |s'.counts|);
      RunDrift(s', evs[1..], i, t');
    }
  }

  /** From a fresh recorder and with non-negative durations, each line's
      stored average is its exact mean rounded down, less a drift of at most
      `(count - 1) / 2` that the per-tic truncation accumulates. */
  lemma FreshRunDrift(numlines: nat, start: int, evs: seq<Event>, i: int)
    requires InRange(evs, numlines) && 0 <= i < numlines
    requires NonNegative(Durations(start, evs))
    ensures var r := Run(Fresh(numlines, start), evs);
      DriftWithin(r.counts[i], r.averages[i], LineTotal(start, evs, i + 1))
  {
    RunDrift(Fresh(numlines, start), evs, i, 0);
  }

  /** Three durations of 1, 4 and 4 nanoseconds, folded one at a time. */
  lemma DriftExampleMean()
    ensures FoldMean(FoldMean(FoldMean(0, 0, 1), 1, 4), 2, 4) == 2
  {
  }

  lemma DriftExampleRun(s: Snapshot, evs: seq<Event>)
    requires s == Fresh(1, 0) && evs == [Event(1, 1), Event(1, 5), Event(1, 9)]
    ensures InRange(evs, 1)
    ensures Run(s, evs) == Snapshot([3], [FoldMean(FoldMean(FoldMean(0, 0, 1), 1, 4), 2, 4)], 9)
  {
    assert s.counts == [0] && s.averages == [0];
    var s1 := TicSpec(s, 1, 1);
    assert s1.counts == [1] && s1.averages == [FoldMean(0, 0, 1)];
    var s2 := TicSpec(s1, 1, 5);
    assert s2.counts == [2] && s2.averages == [FoldMean(FoldMean(0, 0, 1), 1, 4)];
    var s3 := TicSpec(s2, 1, 9);
    assert s3.counts == [3] && s3.averages == [FoldMean(FoldMean(FoldMean(0, 0, 1), 1, 4), 2, 4)];
    assert evs[1..][1..][1..] == [];
    assert Run(s, evs) == Run(s1, evs[1..]) == Run(s2, evs[1..][1..]) == s3;
  }

  lemma DriftExampleTotal(evs: seq<Event>)
    requires evs == [Event(1, 1), Event(1, 5), Event(1, 9)]
    ensures LineTotal(0, evs, 1) == 9
  {
    assert LineTotal(0, evs, 1) == 1 + LineTotal(1, evs[1..], 1);
    assert LineTotal(1, evs[1..], 1) == 4 + LineTotal(5, evs[1..][1..], 1);
    assert LineTotal(5, evs[1..][1..], 1) == 4 + LineTotal(9, [], 1);
  }

  /** The drift is real and the bound of `DriftWithin` is reached: three tics
      of one line, 1, 4 and 4 nanoseconds apart, total 9 with mean 3, but
      the recorder stores an average of 2. */
  lemma TruncationDriftExample(s: Snapshot, evs: seq<Event>)
    requires s == Fresh(1, 0) && evs == [Event(1, 1), Event(1, 5), Event(1, 9)]
    ensures InRange(evs, 1)
    ensures var r := Run(s, evs); r.counts == [3] && r.averages == [2]
    ensures LineTotal(0, evs, 1) == 9
  {
    DriftExampleRun(s, evs);
    DriftExampleMean();
    DriftExampleTotal(evs);
  }

  // ---------------------------------------------------------------------
  // The report

  /** One printed report row: a line index and its statistics. */
  datatype Row = Row(line: int, cell: Cell)

  /** The rows printed for the lines `1..k`: the lines with a non-zero count,
      in ascending order. */
  function RowsUpTo(s: Snapshot, k: nat): (rows: seq<Row>)
    requires WellFormed(s) && k <= |s.counts|
    ensures |rows| <= k
    ensures forall j :: 0 <= j < |rows| ==> rows[j].cell.calls > 0
  {
    if k == 0 then []
    else RowsUpTo(s, k - 1)
         + (if s.counts[k - 1] > 0 then [Row(k, Cell(s.counts[k - 1], s.averages[k - 1]))] else [])
  }

  /** The rows of the report: at most one per line, each for a line that
      has been tic'd. */
  function ReportRows(s: Snapshot): (rows: seq<Row>)
    requires WellFormed(s)
    ensures |rows| <= |s.counts|
    ensures forall j :: 0 <= j < |rows| ==> rows[j].cell.calls > 0
  {
    RowsUpTo(s, |s.counts|)
  }

  /** `r` names a line with a non-zero count and carries its statistics. */
  predicate RowFor(s: Snapshot, r: Row)
    requires WellFormed(s)
  {
    1 <= r.line <= |s.counts| && s.counts[r.line - 1] > 0
    && r.cell == Cell(s.counts[r.line - 1], s.averages[r.line - 1])
  }

  /** Each row's line is greater than the line of every row before it, so no
      line appears twice. */
  predicate StrictlyAscending(rows: seq<Row>)
  {
    forall j, j' :: 0 <= j < j' < |rows| ==> rows[j].line < rows[j'].line
  }

  /** Row `j` printed for the lines `1..k` is a line among them with a
      non-zero count and carries that line's statistics; rows ascend. */
  lemma {:induction false} RowsUpToSound(s: Snapshot, k: nat)
    requires WellFormed(s) && k <= |s.counts|
    ensures forall j :: 0 <= j < |RowsUpTo(s, k)| ==> RowFor(s, RowsUpTo(s, k)[j]) && RowsUpTo(s, k)[j].line <= k
    ensures StrictlyAscending(RowsUpTo(s, k))
  {
    if k > 0 {
      RowsUpToSound(s, k - 1);
      var prev := RowsUpTo(s, k - 1);
      var rows := RowsUpTo(s, k);
      assert forall j :: 0 <= j < |prev| ==> rows[j] == prev[j];
    }
  }

  /** Every line among `1..k` with a non-zero count has its row. */
  lemma {:induction false} RowsUpToComplete(s: Snapshot, k: nat)
    requires WellFormed(s) && k <= |s.counts|
    ensures forall i :: 0 <= i < k && s.counts[i] > 0 ==>
      Row(i + 1, Cell(s.counts[i], s.averages[i])) in RowsUpTo(s, k)
  {
    if k > 0 {
      RowsUpToComplete(s, k - 1);
      var prev := RowsUpTo(s, k - 1);
      var rows := RowsUpTo(s, k);
      assert forall r :: r in prev ==> r in rows;
    }
  }

  lemma RowsUpToExact(s: Snapshot, k: nat)
    requires WellFormed(s) && k <= |s.counts|
    ensures forall r :: r in RowsUpTo(s, k) <==> 1 <= r.line <= k && RowFor(s, r)
    ensures StrictlyAscending(RowsUpTo(s, k))
  {
    RowsUpToSound(s, k);
    RowsUpToComplete(s, k);
  }

  /** The report holds exactly one row for each line with a non-zero count,
      carrying that line's count and average, in ascending line order. */
  lemma ReportRowsExact(s: Snapshot)
    requires WellFormed(s)
    ensures forall r :: r in ReportRows(s) <==>
      1 <= r.line <= |s.counts| && s.counts[r.line - 1] > 0
      && r.cell == Cell(s.counts[r.line - 1], s.averages[r.line - 1])
    ensures StrictlyAscending(ReportRows(s))
  {
    RowsUpToExact(s, |s.counts|);
  }

  // ---------------------------------------------------------------------
  // The annotated copy

  /** One line of the annotated copy: its number, its statistics when it has
      been tic'd (otherwise a blank comment of the same width), and the
      original text. */
  datatype AnnotatedLine = AnnotatedLine(line: int, cell: Option<Cell>, text: string)

  /** The statistics shown next to source line `k + 1`: none for a line that
      was never tic'd or that lies past the recorded lines. */
  function CellAt(s: Snapshot, k: int): (c: Option<Cell>)
    requires WellFormed(s)
    ensures c.Some? ==> Row(k + 1, c.value) in ReportRows(s)
    ensures c.None? ==> forall r :: r in ReportRows(s) ==> r.line != k + 1
  {
    ReportRowsExact(s);
    if 0 <= k < |s.counts| && s.counts[k] > 0 then Some(Cell(s.counts[k], s.averages[k])) else None
  }

  function Annotate(s: Snapshot, lines: seq<string>): (out: seq<AnnotatedLine>)
    requires WellFormed(s)
    ensures |out| == |lines|
  {
    seq(|lines|, k requires 0 <= k < |lines| => AnnotatedLine(k + 1, CellAt(s, k), lines[k]))
  }

  /** The annotation loop as written reads the counter of every source line,
      so it is defined only while the file has no more lines than the
      recorder; within that range it agrees with `Annotate`. */
  function AnnotateAsWritten(s: Snapshot, lines: seq<string>): (out: seq<AnnotatedLine>)
    requires WellFormed(s) && |lines| <= |s.counts|
    ensures out == Annotate(s, lines)
  {
    seq(|lines|, k requires 0 <= k < |lines| =>
      AnnotatedLine(k + 1, if s.counts[k] > 0 then Some(Cell(s.counts[k], s.averages[k])) else None, lines[k]))
  }

  /** A recorder built for one line, annotating a source of two lines: the
      file has more lines than the counters, so `AnnotateAsWritten` cannot be
      applied and the loop as written reads past the end of `call_counter`. */
  lemma AnnotateOverrunsCounters()
    ensures var s := Fresh(1, 0);
      WellFormed(s) && |Lines("a\nb\n")| == 2 > |s.counts|
  {
    LinesCount("a\nb\n");
    assert "a\nb\n"[1..] == "\nb\n";
    assert "a\nb\n"[1..][1..] == "b\n";
    assert "a\nb\n"[1..][1..][1..] == "\n";
    assert "a\nb\n"[1..][1..][1..][1..] == "";
  }

  /** Annotating one more line appends one entry for it. */
  lemma AnnotateSnoc(s: Snapshot, lines: seq<string>, line: string)
    requires WellFormed(s)
    ensures Annotate(s, lines + [line])
         == Annotate(s, lines) + [AnnotatedLine(|lines| + 1, CellAt(s, |lines|), line)]
  {
    var lhs := Annotate(s, lines + [line]);
    var rhs := Annotate(s, lines) + [AnnotatedLine(|lines| + 1, CellAt(s, |lines|), line)];
    assert |lhs| == |rhs|;
    forall k | 0 <= k < |lhs|
      ensures lhs[k] == rhs[k]
    {
      if k < |lines| {
        assert (lines + [line])[k] == lines[k];
      }
    }
  }

  /** One `getline` step of the annotation loop: the line read next is the
      next of the text's lines, and annotating it appends one entry. */
  lemma AnnotateStep(s: Snapshot, text: string, done: seq<string>, rest: string)
    requires WellFormed(s) && rest != [] && Lines(text) == done + Lines(rest)
    ensures var (line, next) := NextLine(rest);
      Lines(text) == (done + [line]) + Lines(next)
      && Annotate(s, done + [line]) == Annotate(s, done) + [AnnotatedLine(|done| + 1, CellAt(s, |done|), line)]
  {
    var (line, next) := NextLine(rest);
    assert Lines(rest) == [line] + Lines(next);
    assert done + Lines(rest) == (done + [line]) + Lines(next);
    AnnotateSnoc(s, done, line);
  }

  /** Source line `k + 1` carries statistics in the annotated copy exactly
      when the report has a row for it, and they are the same statistics. */
  lemma AnnotateMatchesReport(s: Snapshot, lines: seq<string>, k: int, c: Cell)
    requires WellFormed(s) && 0 <= k < |lines|
    ensures Annotate(s, lines)[k].cell == Some(c) <==> Row(k + 1, c) in ReportRows(s)
  {
    ReportRowsExact(s);
  }

  function Texts(out: seq<AnnotatedLine>): (ts: seq<string>)
    ensures |ts| == |out|
  {
    seq(|out|, k requires 0 <= k < |out| => out[k].text)
  }

  /** The annotated copy of a source text holds every line of the text, once
      and in order, numbered from 1: writing each copied line followed by a
      newline reproduces the text. */
  lemma AnnotateCopiesEveryLine(s: Snapshot, text: string)
    requires WellFormed(s)
    ensures var out := Annotate(s, Lines(text));
      (forall k :: 0 <= k < |out| ==> out[k].line == k + 1)
      && Texts(out) == Lines(text)
      && Unlines(Texts(out)) == text + (if HasTrailingLine(text) then "\n" else "")
  {
    var out := Annotate(s, Lines(text));
    assert Texts(out) == Lines(text);
    LinesRoundTrip(text);
  }
}
