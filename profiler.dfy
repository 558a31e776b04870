/** The `SimpleProfiler` class: a per-source-line timing recorder. It keeps
    two arrays indexed by `line - 1`, the call counts and the running average
    durations in nanoseconds, and the time stamp of the previous tic. Every
    time stamp is passed in as `now` (nanoseconds), in place of reading the
    clock; a source file is passed in as its contents, `None` when it cannot
    be opened. */
module Profiler {
  import opened Basics
  import opened LineCount
  import opened Decimal
  import opened Units
  import opened Recording

  /** The static `ObjCounter`, made an explicit object: it hands every new
      profiler the next id. */
  class IdCounter {
    /** The last id handed out; 0 before any. */
    var last: int

    constructor ()
      ensures last == 0
    {
      last := 0;
    }

    /** `++ObjCounter`. */
    method Next() returns (id: int)
      modifies this
      ensures last == old(last) + 1 && id == last
    {
      last := last + 1;
      id := last;
    }
  }

  /** `std::vector::resize` given a negative size (converted to a huge
      unsigned one) throws `std::length_error`. */
  datatype Error = LengthError

  /** The name of the annotated copy: the source name, `_prf`, the profiler
      id in decimal, and `.h`. */
  function OutfileName(filename: string, id: int): (name: string)
    ensures |name| >= |filename| + 7
    ensures name[..|filename|] == filename && name[|filename|..|filename| + 4] == "_prf"
    ensures name[|name| - 2..] == ".h"
  {
    filename + "_prf" + IntToString(id) + ".h"
  }

  /** The id can be read back out of the annotated copy's name. */
  lemma OutfileNameRoundTrip(filename: string, id: int)
    ensures var name := OutfileName(filename, id);
      |filename| + 5 <= |name| - 2
      && var digits := name[|filename| + 4 .. |name| - 2];
      (if digits[0] == '-' then AllDigits(digits[1..]) else AllDigits(digits))
      && ParseInt(digits) == id
  {
    var name := OutfileName(filename, id);
    assert name[|filename| + 4 .. |name| - 2] == IntToString(id);
    IntToStringRoundTrip(id);
  }

  /** Profilers with different ids write their annotated copies of the same
      source to different files. */
  lemma OutfileNamesDistinct(filename: string, id1: int, id2: int)
    requires id1 != id2
    ensures OutfileName(filename, id1) != OutfileName(filename, id2)
  {
    OutfileNameRoundTrip(filename, id1);
    OutfileNameRoundTrip(filename, id2);
  }

  /** An annotated copy: the file it goes to, and its lines; `None` when the
      source could not be opened, in which case the output file is created
      and left empty. */
  datatype AnnotationPlan = AnnotationPlan(outfile: string, body: Option<seq<AnnotatedLine>>)

  /** What one `output` call produces: the unit it uses, the report rows when
      printing, and the annotated copy when annotating. */
  datatype OutputPlan = OutputPlan(unit: Unit, report: Option<seq<Row>>, annotation: Option<AnnotationPlan>)

  class SimpleProfiler {
    const filename: string
    const profilerId: int
    const numlines: nat
    const averageTime: array<int>
    const callCounter: array<int>
    var previousTime: int

    ghost predicate Valid()
      reads this, callCounter, averageTime
    {
      averageTime.Length == numlines && callCounter.Length == numlines
      && averageTime != callCounter
      && WellFormed(State())
    }

    /** The recorder's statistics as a value. */
    ghost function State(): Snapshot
      reads this, callCounter, averageTime
    {
      Snapshot(callCounter[..], averageTime[..], previousTime)
    }

    /** Both constructors: `numlines` zeroed cells in each array, and the
        construction time as the previous time stamp. */
    constructor (filename: string, id: int, numlines: nat, now: int)
      ensures Valid() && fresh(callCounter) && fresh(averageTime)
      ensures this.filename == filename && profilerId == id && this.numlines == numlines
      ensures State() == Fresh(numlines, now)
    {
      this.filename := filename;
      profilerId := id;
      this.numlines := numlines;
      averageTime := new int[numlines](_ => 0);
      callCounter := new int[numlines](_ => 0);
      previousTime := now;
      new;
      assert callCounter[..] == seq(numlines, _ => 0);
      assert averageTime[..] == seq(numlines, _ => 0);
    }

    /** `getSizeAverageTime`: the averages are sized to the line count. */
    function SizeAverageTime(): (n: int)
      reads this, callCounter, averageTime
      requires Valid()
      ensures n == numlines
    {
      averageTime.Length
    }

    /** `getSizeCallCounter`: the counts are sized to the line count. */
    function SizeCallCounter(): (n: int)
      reads this, callCounter, averageTime
      requires Valid()
      ensures n == numlines
    {
      callCounter.Length
    }

    /** `tic(line)` at time `now`: one more call of `line`, the time since
        the previous tic folded into its average, and `now` kept as the
        previous time stamp. Only cell `line - 1` of each array changes. */
    method Tic(line: int, now: int)
      requires Valid()
      requires 1 <= line <= numlines
      modifies callCounter, averageTime, this`previousTime
      ensures Valid()
      ensures State() == TicSpec(old(State()), line, now)
      ensures callCounter[line - 1] == old(callCounter[line - 1]) + 1
      ensures forall i :: 0 <= i < numlines && i != line - 1 ==>
        callCounter[i] == old(callCounter[i]) && averageTime[i] == old(averageTime[i])
      ensures previousTime == now
    {
      var n := callCounter[line - 1];
      callCounter[line - 1] := n + 1;
      var duration := now - previousTime;
      averageTime[line - 1] := FoldMean(averageTime[line - 1], n, duration);
      previousTime := now;
    }

    /** The rows the report prints, visiting lines 1 to `numlines` and
        keeping those with a non-zero count. Reading changes nothing, so
        two reports with no tic between them print the same rows. */
    method Report() returns (rows: seq<Row>)
      requires Valid()
      ensures rows == ReportRows(State())
    {
      rows := [];
      var i := 1;
      while i <= numlines
        invariant 1 <= i <= numlines + 1
        invariant rows == RowsUpTo(State(), i - 1)
      {
        if callCounter[i - 1] > 0 {
          rows := rows + [Row(i, Cell(callCounter[i - 1], averageTime[i - 1]))];
        }
        i := i + 1;
      }
    }

    /** The statistics printed beside source line `k + 1`: none when it was
        never tic'd or lies past the recorded lines. */
    function CellOf(k: int): (c: Option<Cell>)
      reads this, callCounter, averageTime
      requires Valid()
      ensures c == CellAt(State(), k)
    {
      if 0 <= k < numlines && callCounter[k] > 0 then Some(Cell(callCounter[k], averageTime[k])) else None
    }

    /** The annotated copy of the source text: one `getline` line at a time,
        numbered from 1, each with its statistics when it has been tic'd.
        A line past `numlines` is treated as never tic'd. */
    method AnnotateSource(text: string) returns (out: seq<AnnotatedLine>)
      requires Valid()
      ensures out == Annotate(State(), Lines(text))
    {
      var rest := text;
      ghost var done: seq<string> := [];
      ghost var st := State();
      out := [];
      var i := 0;
      while rest != []
        invariant Lines(text) == done + Lines(rest)
        invariant i == |done| && out == Annotate(st, done)
        decreases |rest|
      {
        var (line, next) := NextLine(rest);
        var cell := CellOf(i);
        AnnotateStep(st, text, done, rest);
        i := i + 1;
        out := out + [AnnotatedLine(i, cell, line)];
        done := done + [line];
        rest := next;
      }
    }

    /** `output(annotate, print, type)`, with the same defaults: selects the
        unit, prints the report when `printRows` holds and writes the
        annotated copy when `annotate` holds. `source` is the source file as
        it reads at this moment. */
    method Output(source: Option<string>, annotate: bool := true, printRows: bool := true, unitType: int := 2)
      returns (plan: OutputPlan)
      requires Valid()
      ensures plan.unit == SelectUnit(unitType)
      ensures plan.report == if printRows then Some(ReportRows(State())) else None
      ensures plan.annotation ==
        if !annotate then None
        else Some(AnnotationPlan(OutfileName(filename, profilerId),
                                 if source.Some? then Some(Annotate(State(), Lines(source.value))) else None))
    {
      var unit := SelectUnit(unitType);
      var report: Option<seq<Row>> := None;
      if printRows {
        var rows := Report();
        report := Some(rows);
      }
      var annotation: Option<AnnotationPlan> := None;
      if annotate {
        var outfile := OutfileName(filename, profilerId);
        var body: Option<seq<AnnotatedLine>> := None;
        if source.Some? {
          var lines := AnnotateSource(source.value);
          body := Some(lines);
        }
        annotation := Some(AnnotationPlan(outfile, body));
      }
      plan := OutputPlan(unit, report, annotation);
    }
  }

  /** A profiler just built by a constructor. */
  ghost predicate Constructed(p: SimpleProfiler, filename: string, id: int, numlines: nat, now: int)
    reads p, p.callCounter, p.averageTime
  {
    p.Valid() && p.filename == filename && p.profilerId == id && p.numlines == numlines
    && p.State() == Fresh(numlines, now)
  }

  /** `SimpleProfiler(filename, numlines)` at time `now`: takes the next id
      first, then sizes the arrays, which fails for a negative line count. */
  method Create(ids: IdCounter, filename: string, numlines: int, now: int)
    returns (r: Result<SimpleProfiler, Error>)
    modifies ids
    ensures ids.last == old(ids.last) + 1
    ensures r.Failure? <==> numlines < 0
    ensures r.Success? ==>
      fresh(r.value) && fresh(r.value.callCounter) && fresh(r.value.averageTime)
      && Constructed(r.value, filename, ids.last, numlines, now)
  {
    var id := ids.Next();
    if numlines < 0 {
      return Failure(LengthError);
    }
    var p := new SimpleProfiler(filename, id, numlines, now);
    r := Success(p);
  }

  /** `SimpleProfiler(filename)` at time `now`: takes the next id first, then
      counts the lines of the file; a file that cannot be opened yields -1
      lines and the sizing fails. */
  method CreateFromFile(ids: IdCounter, filename: string, file: Option<string>, now: int)
    returns (r: Result<SimpleProfiler, Error>)
    modifies ids
    ensures ids.last == old(ids.last) + 1
    ensures r.Failure? <==> file.None?
    ensures r.Success? ==>
      fresh(r.value) && fresh(r.value.callCounter) && fresh(r.value.averageTime)
      && Constructed(r.value, filename, ids.last, |Lines(file.value)|, now)
  {
    var id := ids.Next();
    var n := ReadNumlines(file);
    if n < 0 {
      return Failure(LengthError);
    }
    var p := new SimpleProfiler(filename, id, n, now);
    r := Success(p);
  }

  /** Two profilers of the same readable source, as a program that profiles
      itself twice sets them up: the later one has the larger id, and their
      annotated copies go to different files. */
  method TwoProfilersOnOneSource(ids: IdCounter, filename: string, text: string, now1: int, now2: int)
    returns (p: SimpleProfiler, q: SimpleProfiler)
    modifies ids
    ensures p.profilerId < q.profilerId
    ensures OutfileName(filename, p.profilerId) != OutfileName(filename, q.profilerId)
  {
    var r1 := CreateFromFile(ids, filename, Some(text), now1);
    var r2 := CreateFromFile(ids, filename, Some(text), now2);
    p, q := r1.value, r2.value;
    OutfileNamesDistinct(filename, p.profilerId, q.profilerId);
  }
}
