/**
 * The job-shop reader and encoder (domains/jobshop/__init__.py): a header line with the number of
 * jobs and machines, then one row of processing times and one row of machine numbers per job, each
 * possibly preceded by one alphabetic title line; the encoder builds one activity per (job,
 * operation), chained within each job, on unit-capacity machines and a shared pool of operators.
 */
module JobShop {
  import opened Results
  import opened Builtins
  import opened Scheduling

  datatype Option<T> = None | Some(value: T)

  /** What _parse reads from the file before building the problem. */
  datatype Instance = Instance(numJobs: int, numMach: int, times: seq<seq<int>>, machines: seq<seq<int>>)

  // ================================================================ _ints

  /** _ints: the integers of the whitespace-separated words of a line. */
  function LineInts(line: string): Result<seq<int>> {
    Ints(Split(RStrip(line)))
  }

  /**
   * _ints succeeds exactly when int() accepts every word of the line, and then returns their values
   * in order; otherwise it raises the ValueError of a word int() refuses.
   */
  lemma LineIntsWords(line: string)
    ensures var words := Split(line);
      LineInts(line).Ok? <==> forall k :: 0 <= k < |words| ==> ParseInt(words[k]).Ok?
    ensures var words := Split(line);
      LineInts(line).Ok? ==>
        |LineInts(line).value| == |words|
        && forall k :: 0 <= k < |words| ==> ParseInt(words[k]) == Ok(LineInts(line).value[k])
    ensures var words := Split(line);
      LineInts(line).Err? ==>
        exists k :: 0 <= k < |words| && ParseInt(words[k]).Err? && LineInts(line).error == BadInteger(words[k])
  {
    SplitRStrip(line);
    IntsFirstBad(Split(line));
  }

  /** The integers printed on one line, separated by single spaces. */
  function PrintedLine(xs: seq<int>): string {
    JoinWords(Printed(xs))
  }

  /** _ints reads back the integers of a printed line. */
  lemma LineIntsOfLine(xs: seq<int>)
    ensures LineInts(PrintedLine(xs)) == Ok(xs)
  {
    SplitRStrip(PrintedLine(xs));
    IntsOfPrintedLine(xs);
  }

  /** A printed line of integers is never taken for a title: it does not start with a letter. */
  lemma LineNotTitle(xs: seq<int>)
    ensures |PrintedLine(xs)| > 0 ==> !IsLetter(PrintedLine(xs)[0])
    ensures !IsAlpha(PrintedLine(xs))
  {
    var words := Printed(xs);
    if |words| > 0 {
      assert PrintedLine(xs)[0] == words[0][0];
    }
  }

  // ================================================================ reading the lines

  /**
   * The header: lines.pop(0), replaced by the next line when its first character is a letter; its
   * first two integers. An empty first line or running out of lines raises IndexError; fewer than
   * two integers make the unpacking raise ValueError.
   */
  function ReadHeader(lines: seq<string>): Result<(int, int, seq<string>)> {
    if |lines| == 0 then Err(IndexOutOfRange)
    else if |lines[0]| == 0 then Err(IndexOutOfRange)
    else if IsLetter(lines[0][0]) && |lines| == 1 then Err(IndexOutOfRange)
    else
      var skip := if IsLetter(lines[0][0]) then 1 else 0;
      var values :- LineInts(lines[skip]);
      if |values| < 2 then Err(TooFewValues)
      else Ok((values[0], values[1], lines[skip + 1..]))
  }

  /**
   * One data row: lines.pop(0), replaced by the next line when it is alphabetic as a whole; its
   * integers, and the lines left. Running out of lines raises IndexError.
   */
  function ReadRow(lines: seq<string>): Result<(seq<int>, seq<string>)> {
    if |lines| == 0 then Err(IndexOutOfRange)
    else if IsAlpha(lines[0]) && |lines| == 1 then Err(IndexOutOfRange)
    else
      var skip := if IsAlpha(lines[0]) then 1 else 0;
      var row :- LineInts(lines[skip]);
      Ok((row, lines[skip + 1..]))
  }

  /** n data rows read one after the other, and the lines left. */
  function ReadRows(lines: seq<string>, n: nat): Result<(seq<seq<int>>, seq<string>)>
    decreases n
  {
    if n == 0 then Ok(([], lines))
    else
      var done :- ReadRows(lines, n - 1);
      var next :- ReadRow(done.1);
      Ok((done.0 + [next.0], next.1))
  }

  /** The parse phase of _parse: the header, num_jobs rows of times, then num_jobs rows of machines. */
  function ReadInstance(lines: seq<string>): Result<Instance> {
    var header :- ReadHeader(lines);
    var times :- ReadRows(header.2, RangeLength(header.0));
    var machines :- ReadRows(times.1, RangeLength(header.0));
    Ok(Instance(header.0, header.1, times.0, machines.0))
  }

  /** A failing row stops the reading: the rows after it are never read. */
  lemma {:induction false} ReadRowsFirstError(lines: seq<string>, j: nat, n: nat)
    requires j <= n && ReadRows(lines, j).Err?
    ensures ReadRows(lines, n) == ReadRows(lines, j)
    decreases n
  {
    if j < n {
      ReadRowsFirstError(lines, j, n - 1);
    }
  }

  /**
   * Reading n rows yields n rows and consumes between n and 2n lines from the front: one per row,
   * plus at most one title line before each.
   */
  lemma {:induction false} ReadRowsConsumes(lines: seq<string>, n: nat)
    ensures ReadRows(lines, n).Ok? ==>
      var (rows, rest) := ReadRows(lines, n).value;
      && |rows| == n
      && n <= |lines| - |rest| <= 2 * n
      && rest == lines[|lines| - |rest|..]
    decreases n
  {
    if n > 0 && ReadRows(lines, n).Ok? {
      ReadRowsConsumes(lines, n - 1);
      var rest := ReadRows(lines, n - 1).value.1;
      var rest' := ReadRows(lines, n).value.1;
      assert rest' == rest[|rest| - |rest'|..];
    }
  }

  /** The instance read has num_jobs rows of times and num_jobs rows of machines. */
  lemma ReadInstanceRows(lines: seq<string>)
    ensures ReadInstance(lines).Ok? ==>
      var inst := ReadInstance(lines).value;
      |inst.times| == RangeLength(inst.numJobs) && |inst.machines| == RangeLength(inst.numJobs)
  {
    var header := ReadHeader(lines);
    if header.Ok? {
      ReadRowsConsumes(header.value.2, RangeLength(header.value.0));
      var times := ReadRows(header.value.2, RangeLength(header.value.0));
      if times.Ok? {
        ReadRowsConsumes(times.value.1, RangeLength(header.value.0));
      }
    }
  }

  /**
   * One title line before a row is skipped: the row is then read as if the title were absent. A
   * title with nothing after it raises IndexError, and a second title is read as the row, which
   * int() refuses.
   */
  lemma TitleLines(title: string, lines: seq<string>)
    requires IsAlpha(title)
    ensures lines == [] ==> ReadRow([title] + lines) == Err(IndexOutOfRange)
    ensures |lines| > 0 && !IsAlpha(lines[0]) ==> ReadRow([title] + lines) == ReadRow(lines)
    ensures |lines| > 0 && IsAlpha(lines[0]) ==> ReadRow([title] + lines) == Err(BadInteger(lines[0]))
  {
    if |lines| > 0 {
      var next := lines[0];
      assert ([title] + lines)[1] == next && ([title] + lines)[2..] == lines[1..];
      if IsAlpha(next) {
        RStripSpec(next);
        assert RStrip(next) == next;
        SplitJoinWords([next]);
        assert Split(next) == [next];
      }
    }
  }

  /** The rows of a matrix, printed one per line. */
  function Lines(rows: seq<seq<int>>): (r: seq<string>)
    ensures |r| == |rows|
    ensures forall j :: 0 <= j < |rows| ==> r[j] == PrintedLine(rows[j])
  {
    if |rows| == 0 then [] else Lines(rows[..|rows| - 1]) + [PrintedLine(rows[|rows| - 1])]
  }

  /** Rows printed one per line, without title lines, read back as themselves. */
  lemma {:induction false} ReadLinesOfRows(rows: seq<seq<int>>, rest: seq<string>)
    ensures ReadRows(Lines(rows) + rest, |rows|) == Ok((rows, rest))
    decreases |rows|
  {
    if |rows| > 0 {
      var n := |rows| - 1;
      assert rows[..n] + [rows[n]] == rows;
      assert Lines(rows) + rest == Lines(rows[..n]) + ([PrintedLine(rows[n])] + rest);
      ReadLinesOfRows(rows[..n], [PrintedLine(rows[n])] + rest);
      var tail := [PrintedLine(rows[n])] + rest;
      LineNotTitle(rows[n]);
      LineIntsOfLine(rows[n]);
      assert tail[0] == PrintedLine(rows[n]) && tail[1..] == rest;
      assert ReadRow(tail) == Ok((rows[n], rest));
    } else {
      assert Lines(rows) + rest == rest;
    }
  }

  /** The lines of a job-shop file holding the instance, without title lines. */
  function Render(inst: Instance): seq<string> {
    [PrintedLine([inst.numJobs, inst.numMach])] + Lines(inst.times) + Lines(inst.machines)
  }

  /**
   * A printed header line, without a title before it, gives its first two values as the counts
   * and the lines after it; further values on the line are ignored.
   */
  lemma ReadHeaderOfLine(numJobs: int, numMach: int, more: seq<int>, body: seq<string>)
    ensures ReadHeader([PrintedLine([numJobs, numMach] + more)] + body) == Ok((numJobs, numMach, body))
  {
    var header := [numJobs, numMach] + more;
    var lines := [PrintedLine(header)] + body;
    LineNotTitle(header);
    LineIntsOfLine(header);
    assert Printed(header)[0] == IntToString(numJobs);
    assert |PrintedLine(header)| > 0;
    assert lines[0] == PrintedLine(header) && lines[1..] == body;
  }

  /**
   * A title line starting with a letter before the header is skipped: the printed header after it
   * gives its first two values and the lines after it.
   */
  lemma ReadHeaderTitled(title: string, numJobs: int, numMach: int, more: seq<int>, body: seq<string>)
    requires |title| > 0 && IsLetter(title[0])
    ensures ReadHeader([title, PrintedLine([numJobs, numMach] + more)] + body) == Ok((numJobs, numMach, body))
  {
    var header := [numJobs, numMach] + more;
    var lines := [title, PrintedLine(header)] + body;
    LineIntsOfLine(header);
    assert lines[0] == title && lines[1] == PrintedLine(header) && lines[2..] == body;
  }

  /** Reading the rendered file gives the instance back, when it has one row per job in each matrix. */
  lemma ReadRendered(inst: Instance)
    requires |inst.times| == RangeLength(inst.numJobs) && |inst.machines| == RangeLength(inst.numJobs)
    ensures ReadInstance(Render(inst)) == Ok(inst)
  {
    var body := Lines(inst.times) + Lines(inst.machines);
    assert [inst.numJobs, inst.numMach] + [] == [inst.numJobs, inst.numMach];
    assert Render(inst) == [PrintedLine([inst.numJobs, inst.numMach] + [])] + body;
    ReadHeaderOfLine(inst.numJobs, inst.numMach, [], body);
    ReadLinesOfRows(inst.times, Lines(inst.machines));
    assert Lines(inst.machines) + [] == Lines(inst.machines);
    ReadLinesOfRows(inst.machines, []);
  }

  /** The rows of a matrix printed one per line, each after its own title line. */
  function TitledLines(rows: seq<seq<int>>, titles: seq<string>): (r: seq<string>)
    requires |titles| == |rows|
    ensures |r| == 2 * |rows|
  {
    if |rows| == 0 then []
    else
      var n := |rows| - 1;
      TitledLines(rows[..n], titles[..n]) + [titles[n], PrintedLine(rows[n])]
  }

  /** Rows printed one per line after alphabetic title lines read back as themselves. */
  lemma {:induction false} ReadTitledRows(rows: seq<seq<int>>, titles: seq<string>, rest: seq<string>)
    requires |titles| == |rows|
    requires forall j :: 0 <= j < |titles| ==> IsAlpha(titles[j])
    ensures ReadRows(TitledLines(rows, titles) + rest, |rows|) == Ok((rows, rest))
    decreases |rows|
  {
    if |rows| > 0 {
      var n := |rows| - 1;
      var tail := [titles[n], PrintedLine(rows[n])] + rest;
      assert rows[..n] + [rows[n]] == rows;
      assert TitledLines(rows, titles) + rest == TitledLines(rows[..n], titles[..n]) + tail;
      ReadTitledRows(rows[..n], titles[..n], tail);
      LineNotTitle(rows[n]);
      LineIntsOfLine(rows[n]);
      TitleLines(titles[n], [PrintedLine(rows[n])] + rest);
      assert tail == [titles[n]] + ([PrintedLine(rows[n])] + rest);
      assert ([PrintedLine(rows[n])] + rest)[0] == PrintedLine(rows[n]) && ([PrintedLine(rows[n])] + rest)[1..] == rest;
      assert ReadRow(tail) == Ok((rows[n], rest));
    } else {
      assert TitledLines(rows, titles) + rest == rest;
    }
  }

  /** The lines of a job-shop file holding the instance, with a title line before the header and before every row. */
  function RenderTitled(inst: Instance, title: string, timeTitles: seq<string>, machineTitles: seq<string>): seq<string>
    requires |timeTitles| == |inst.times| && |machineTitles| == |inst.machines|
  {
    [title, PrintedLine([inst.numJobs, inst.numMach])] + TitledLines(inst.times, timeTitles)
    + TitledLines(inst.machines, machineTitles)
  }

  /**
   * Title lines change nothing: a file with a title before the header and an alphabetic title
   * before every row reads as the same file without them.
   */
  lemma ReadRenderedTitled(inst: Instance, title: string, timeTitles: seq<string>, machineTitles: seq<string>)
    requires |inst.times| == RangeLength(inst.numJobs) && |inst.machines| == RangeLength(inst.numJobs)
    requires |timeTitles| == |inst.times| && |machineTitles| == |inst.machines|
    requires |title| > 0 && IsLetter(title[0])
    requires forall j :: 0 <= j < |timeTitles| ==> IsAlpha(timeTitles[j])
    requires forall j :: 0 <= j < |machineTitles| ==> IsAlpha(machineTitles[j])
    ensures ReadInstance(RenderTitled(inst, title, timeTitles, machineTitles)) == ReadInstance(Render(inst))
    ensures ReadInstance(RenderTitled(inst, title, timeTitles, machineTitles)) == Ok(inst)
  {
    var machineLines := TitledLines(inst.machines, machineTitles);
    var body := TitledLines(inst.times, timeTitles) + machineLines;
    assert [inst.numJobs, inst.numMach] + [] == [inst.numJobs, inst.numMach];
    assert RenderTitled(inst, title, timeTitles, machineTitles)
      == [title, PrintedLine([inst.numJobs, inst.numMach] + [])] + body;
    ReadHeaderTitled(title, inst.numJobs, inst.numMach, [], body);
    ReadTitledRows(inst.times, timeTitles, machineLines);
    assert machineLines + [] == machineLines;
    ReadTitledRows(inst.machines, machineTitles, []);
    ReadRendered(inst);
  }

  /**
   * The parse phase as _parse runs it: lines.pop(0) for the header (and once more after a title),
   * then one loop per matrix popping one row (and at most one title line before it) per job.
   */
  method ReadLines(lines: seq<string>) returns (r: Result<Instance>)
    ensures r == ReadInstance(lines)
  {
    var rest := lines;
    if |rest| == 0 {
      return Err(IndexOutOfRange);
    }
    var head := rest[0];
    rest := rest[1..];
    if |head| == 0 {
      return Err(IndexOutOfRange);
    }
    if IsLetter(head[0]) {
      if |rest| == 0 {
        return Err(IndexOutOfRange);
      }
      head := rest[0];
      rest := rest[1..];
    }
    var values := LineInts(head);
    if values.Err? {
      return Err(values.error);
    }
    if |values.value| < 2 {
      return Err(TooFewValues);
    }
    var numJobs, numMach := values.value[0], values.value[1];
    assert ReadHeader(lines) == Ok((numJobs, numMach, rest));
    var times;
    times, rest := PopRows(rest, RangeLength(numJobs));
    if times.Err? {
      return Err(times.error);
    }
    var machines;
    machines, rest := PopRows(rest, RangeLength(numJobs));
    if machines.Err? {
      return Err(machines.error);
    }
    return Ok(Instance(numJobs, numMach, times.value, machines.value));
  }

  /** One loop of the parse phase: n times, lines.pop(0), popping once more after a title line. */
  method PopRows(lines: seq<string>, n: nat) returns (r: Result<seq<seq<int>>>, rest: seq<string>)
    ensures r.Err? ==> ReadRows(lines, n) == Err(r.error)
    ensures r.Ok? ==> ReadRows(lines, n) == Ok((r.value, rest))
  {
    var rows := [];
    rest := lines;
    for j := 0 to n
      invariant ReadRows(lines, j) == Ok((rows, rest))
    {
      ghost var before := rest;
      if |rest| == 0 {
        assert ReadRow(before) == Err(IndexOutOfRange);
        ReadRowsFirstError(lines, j + 1, n);
        return Err(IndexOutOfRange), rest;
      }
      var line := rest[0];
      rest := rest[1..];
      if IsAlpha(line) {
        if |rest| == 0 {
          assert ReadRow(before) == Err(IndexOutOfRange);
          ReadRowsFirstError(lines, j + 1, n);
          return Err(IndexOutOfRange), rest;
        }
        line := rest[0];
        rest := rest[1..];
      }
      var row := LineInts(line);
      if row.Err? {
        assert ReadRow(before) == Err(row.error);
        ReadRowsFirstError(lines, j + 1, n);
        return Err(row.error), rest;
      }
      assert ReadRow(before) == Ok((row.value, rest));
      rows := rows + [row.value];
    }
    return Ok(rows), rest;
  }

  // ================================================================ building the problem

  /** f"jobshop-{filepath.stem}-operators-{num_operators}" */
  function ProblemName(stem: string, numOperators: int): string {
    "jobshop-" + stem + "-operators-" + IntToString(numOperators)
  }

  /** f"m{i+1}": machines are numbered from 1 in their names. */
  function MachineName(i: int): string {
    "m" + IntToString(i + 1)
  }

  /** f"t_{j}_{m}": operation m of job j, both numbered from 0. */
  function OperationName(j: int, m: int): string {
    "t_" + IntToString(j) + "_" + IntToString(m)
  }

  /** The machine numbers are 1-based; machine_objects[k - 1] resolves them, negative indices included. */
  predicate CellFits(inst: Instance, j: nat, m: nat) {
    && j < |inst.times| && m < |inst.times[j]|
    && j < |inst.machines| && m < |inst.machines[j]|
    && IsValidIndex(RangeLength(inst.numMach), inst.machines[j][m] - 1)
  }

  /** Every operation of the first n jobs has a time and a machine that machine_objects can index. */
  predicate RowsFit(inst: Instance, n: nat) {
    forall j, m :: 0 <= j < n && 0 <= m < RangeLength(inst.numMach) ==> CellFits(inst, j, m)
  }

  /** Operation m of job j: its time, one unit of its machine, then one operator. */
  function Operation(inst: Instance, j: nat, m: nat): Activity
    requires CellFits(inst, j, m)
  {
    var machine := ResolveIndex(RangeLength(inst.numMach), inst.machines[j][m] - 1);
    Activity(OperationName(j, m), inst.times[j][m], [Usage(machine, 1), Usage(RangeLength(inst.numMach), 1)])
  }

  /**
   * The position of operation 0 of job j when every job has width operations; it is j * width
   * (StartIsProduct), defined by repeated addition so that proofs stay linear.
   */
  function Start(j: nat, width: nat): nat
    decreases j
  {
    if j == 0 then 0 else Start(j - 1, width) + width
  }

  lemma {:induction false} StartIsProduct(j: nat, width: nat)
    ensures Start(j, width) == j * width
    decreases j
  {
    if j > 0 {
      StartIsProduct(j - 1, width);
      assert (j - 1) * width + width == j * width;
    }
  }

  /** Operation m < width of job j < n lies before the first operation of job n. */
  lemma {:induction false} StartBelow(j: nat, m: nat, n: nat, width: nat)
    requires j < n && m < width
    ensures Start(j, width) + m < Start(n, width)
    decreases n
  {
    if j < n - 1 {
      StartBelow(j, m, n - 1, width);
    }
  }

  /** The first count operations of job j, in order. */
  function JobOperations(inst: Instance, j: nat, count: nat): (r: seq<Activity>)
    requires forall m :: 0 <= m < count ==> CellFits(inst, j, m)
    ensures |r| == count
    decreases count
  {
    if count == 0 then [] else JobOperations(inst, j, count - 1) + [Operation(inst, j, count - 1)]
  }

  /** The operations of the first n jobs, job after job. */
  function Operations(inst: Instance, n: nat): seq<Activity>
    requires RowsFit(inst, n)
    decreases n
  {
    if n == 0 then []
    else Operations(inst, n - 1) + JobOperations(inst, n - 1, RangeLength(inst.numMach))
  }

  /** The precedences chaining count consecutive activities that start at position first. */
  function Chain(first: nat, count: nat): seq<Precedence>
    decreases count
  {
    if count <= 1 then [] else Chain(first, count - 1) + [Precedence(first + count - 2, first + count - 1)]
  }

  /** The chains of the first n jobs, each of width operations. */
  function Chains(n: nat, width: nat): seq<Precedence>
    decreases n
  {
    if n == 0 then [] else Chains(n - 1, width) + Chain(Start(n - 1, width), width)
  }

  /** The first count machines, m1 onwards, each of capacity 1. */
  function MachineResources(count: nat): (r: seq<Resource>)
    ensures |r| == count
    decreases count
  {
    if count == 0 then [] else MachineResources(count - 1) + [Resource(MachineName(count - 1), 1)]
  }

  /**
   * The build phase of _parse: the machines and the operator pool, one activity per operation in
   * job-major order, the chain of each job and the makespan objective; a missing time or machine
   * number, or one machine_objects cannot index, raises IndexError.
   */
  function Schedule(inst: Instance, stem: string, numOperators: int): Result<SchedulingProblem> {
    var jobs := RangeLength(inst.numJobs);
    var width := RangeLength(inst.numMach);
    if !RowsFit(inst, jobs) then Err(IndexOutOfRange)
    else Ok(SchedulingProblem(
      ProblemName(stem, numOperators),
      MachineResources(width) + [Resource("operators", numOperators)],
      Operations(inst, jobs),
      Chains(jobs, width),
      [MinimizeMakespan]))
  }

  /** _parse: the parse phase, then the build phase. */
  function JobShopProblem(lines: seq<string>, stem: string, numOperators: int): Result<SchedulingProblem> {
    var inst :- ReadInstance(lines);
    Schedule(inst, stem, numOperators)
  }

  /**
   * One iteration of the inner loop: add operation m of job j with its time, make it use its machine
   * and one operator, and chain it after prev_in_job when there is one.
   */
  method AddOperation(pb0: SchedulingProblem, inst: Instance, j: nat, m: nat, machineObjects: seq<nat>, operators: nat, prevInJob: Option<nat>)
    returns (r: Result<SchedulingProblem>)
    requires |machineObjects| == RangeLength(inst.numMach)
    requires forall k :: 0 <= k < |machineObjects| ==> machineObjects[k] == k
    requires operators == RangeLength(inst.numMach)
    ensures r.Err? <==> !CellFits(inst, j, m)
    ensures r.Err? ==> r.error == IndexOutOfRange
    ensures r.Ok? ==> r.value == pb0.(
      activities := pb0.activities + [Operation(inst, j, m)],
      precedences := pb0.precedences + (if prevInJob.Some? then [Precedence(prevInJob.value, |pb0.activities|)] else []))
  {
    if j >= |inst.times| || m >= |inst.times[j]| {
      return Err(IndexOutOfRange);
    }
    var pb := pb0.AddActivity(OperationName(j, m), inst.times[j][m]);
    var act := |pb.activities| - 1;
    if j >= |inst.machines| || m >= |inst.machines[j]| || !IsValidIndex(|machineObjects|, inst.machines[j][m] - 1) {
      return Err(IndexOutOfRange);
    }
    var machine := machineObjects[ResolveIndex(|machineObjects|, inst.machines[j][m] - 1)];
    var added := Activity(OperationName(j, m), inst.times[j][m], []);
    UsesLast(pb, pb0.activities, added, machine, 1);
    pb := pb.Uses(act, machine, 1);
    var withMachine := added.(usages := added.usages + [Usage(machine, 1)]);
    UsesLast(pb, pb0.activities, withMachine, operators, 1);
    pb := pb.Uses(act, operators, 1);
    assert withMachine.(usages := withMachine.usages + [Usage(operators, 1)]) == Operation(inst, j, m);
    if prevInJob.Some? {
      pb := pb.AddPrecedence(prevInJob.value, act);
    }
    return Ok(pb);
  }

  /** Adding operation m of job j, chained after the previous one, extends the job's operations and chain by one. */
  lemma JobStep(pb0: SchedulingProblem, pb: SchedulingProblem, next: SchedulingProblem, inst: Instance, j: nat, m: nat, prevInJob: Option<nat>)
    requires forall k :: 0 <= k <= m ==> CellFits(inst, j, k)
    requires pb == pb0.(activities := pb0.activities + JobOperations(inst, j, m), precedences := pb0.precedences + Chain(|pb0.activities|, m))
    requires prevInJob == if m == 0 then None else Some(|pb0.activities| + m - 1)
    requires next == pb.(
      activities := pb.activities + [Operation(inst, j, m)],
      precedences := pb.precedences + (if prevInJob.Some? then [Precedence(prevInJob.value, |pb.activities|)] else []))
    ensures next == pb0.(activities := pb0.activities + JobOperations(inst, j, m + 1), precedences := pb0.precedences + Chain(|pb0.activities|, m + 1))
  {
    var first := |pb0.activities|;
    var operations := JobOperations(inst, j, m);
    var chain := Chain(first, m);
    assert |pb.activities| == first + m;
    assert JobOperations(inst, j, m + 1) == operations + [Operation(inst, j, m)];
    assert pb0.activities + operations + [Operation(inst, j, m)] == pb0.activities + (operations + [Operation(inst, j, m)]);
    if m == 0 {
      assert Chain(first, m + 1) == chain + [];
    } else {
      assert Chain(first, m + 1) == chain + [Precedence(first + m - 1, first + m)];
    }
    assert pb0.precedences + chain + (if prevInJob.Some? then [Precedence(first + m - 1, first + m)] else [])
      == pb0.precedences + Chain(first, m + 1);
  }

  /**
   * The inner loop of the build phase for job j: each operation is added, uses its machine and one
   * operator, and follows the previous operation of the job (prev_in_job).
   */
  method BuildJob(pb0: SchedulingProblem, inst: Instance, j: nat, machineObjects: seq<nat>, operators: nat)
    returns (r: Result<SchedulingProblem>)
    requires |machineObjects| == RangeLength(inst.numMach)
    requires forall k :: 0 <= k < |machineObjects| ==> machineObjects[k] == k
    requires operators == RangeLength(inst.numMach)
    ensures r.Err? ==> r.error == IndexOutOfRange && exists m :: 0 <= m < RangeLength(inst.numMach) && !CellFits(inst, j, m)
    ensures r.Ok? ==>
      && (forall m :: 0 <= m < RangeLength(inst.numMach) ==> CellFits(inst, j, m))
      && r.value == pb0.(
           activities := pb0.activities + JobOperations(inst, j, RangeLength(inst.numMach)),
           precedences := pb0.precedences + Chain(|pb0.activities|, RangeLength(inst.numMach)))
  {
    var width := RangeLength(inst.numMach);
    var first := |pb0.activities|;
    var pb := pb0;
    var prevInJob: Option<nat> := None;
    for m := 0 to width
      invariant forall k :: 0 <= k < m ==> CellFits(inst, j, k)
      invariant pb == pb0.(activities := pb0.activities + JobOperations(inst, j, m), precedences := pb0.precedences + Chain(first, m))
      invariant prevInJob == if m == 0 then None else Some(first + m - 1)
    {
      r := AddOperation(pb, inst, j, m, machineObjects, operators, prevInJob);
      if r.Err? {
        assert !CellFits(inst, j, m);
        return r;
      }
      assert CellFits(inst, j, m);
      JobStep(pb0, pb, r.value, inst, j, m, prevInJob);
      pb := r.value;
      prevInJob := Some(first + m);
    }
    return Ok(pb);
  }

  /** There are width operations per job, so the activities of n jobs fill positions 0 to Start(n, width). */
  lemma {:induction false} OperationsLength(inst: Instance, n: nat)
    requires RowsFit(inst, n)
    ensures |Operations(inst, n)| == Start(n, RangeLength(inst.numMach))
    decreases n
  {
    if n > 0 {
      OperationsLength(inst, n - 1);
    }
  }

  /** [pb.add_resource(f"m{i+1}", capacity=1) for i in range(num_mach)]: the machines and their handles. */
  method AddMachines(pb0: SchedulingProblem, count: nat) returns (pb: SchedulingProblem, machineObjects: seq<nat>)
    requires pb0.resources == []
    ensures pb == pb0.(resources := MachineResources(count))
    ensures |machineObjects| == count && forall k :: 0 <= k < count ==> machineObjects[k] == k
  {
    pb := pb0;
    machineObjects := [];
    for i := 0 to count
      invariant pb == pb0.(resources := MachineResources(i))
      invariant |machineObjects| == i && forall k :: 0 <= k < i ==> machineObjects[k] == k
    {
      pb := pb.AddResource(MachineName(i), 1);
      machineObjects := machineObjects + [|pb.resources| - 1];
    }
  }

  /** The outer loop of the build phase: the operations and chains of every job, job after job. */
  method BuildJobs(pb0: SchedulingProblem, inst: Instance, machineObjects: seq<nat>, operators: nat)
    returns (r: Result<SchedulingProblem>)
    requires pb0.activities == [] && pb0.precedences == []
    requires |machineObjects| == RangeLength(inst.numMach)
    requires forall k :: 0 <= k < |machineObjects| ==> machineObjects[k] == k
    requires operators == RangeLength(inst.numMach)
    ensures r.Err? <==> !RowsFit(inst, RangeLength(inst.numJobs))
    ensures r.Err? ==> r.error == IndexOutOfRange
    ensures r.Ok? ==> r.value == pb0.(
      activities := Operations(inst, RangeLength(inst.numJobs)),
      precedences := Chains(RangeLength(inst.numJobs), RangeLength(inst.numMach)))
  {
    var jobs := RangeLength(inst.numJobs);
    var width := RangeLength(inst.numMach);
    var pb := pb0;
    for j := 0 to jobs
      invariant RowsFit(inst, j)
      invariant pb == pb0.(activities := Operations(inst, j), precedences := Chains(j, width))
    {
      OperationsLength(inst, j);
      r := BuildJob(pb, inst, j, machineObjects, operators);
      if r.Err? {
        var m :| 0 <= m < width && !CellFits(inst, j, m);
        assert !RowsFit(inst, jobs);
        return r;
      }
      assert RowsFit(inst, j + 1);
      assert Operations(inst, j + 1) == Operations(inst, j) + JobOperations(inst, j, width);
      assert Chains(j + 1, width) == Chains(j, width) + Chain(Start(j, width), width);
      pb := r.value;
    }
    return Ok(pb);
  }

  /**
   * The build phase as _parse runs it: the machines in a loop, then the operator pool, then one
   * inner loop per job, then the makespan objective.
   */
  method BuildProblem(inst: Instance, stem: string, numOperators: int) returns (r: Result<SchedulingProblem>)
    ensures r == Schedule(inst, stem, numOperators)
  {
    var pb := EmptyProblem(ProblemName(stem, numOperators));
    var machineObjects;
    pb, machineObjects := AddMachines(pb, RangeLength(inst.numMach));
    pb := pb.AddResource("operators", numOperators);
    var operators := |pb.resources| - 1;
    r := BuildJobs(pb, inst, machineObjects, operators);
    if r.Err? {
      return r;
    }
    pb := r.value.AddMinimizeMakespan();
    assert pb == SchedulingProblem(
      ProblemName(stem, numOperators),
      MachineResources(RangeLength(inst.numMach)) + [Resource("operators", numOperators)],
      Operations(inst, RangeLength(inst.numJobs)),
      Chains(RangeLength(inst.numJobs), RangeLength(inst.numMach)),
      [MinimizeMakespan]);
    return Ok(pb);
  }

  /** _parse over the lines of the file, the stem of its name and the number of operators. */
  method Parse(lines: seq<string>, stem: string, numOperators: int) returns (r: Result<SchedulingProblem>)
    ensures r == JobShopProblem(lines, stem, numOperators)
  {
    var inst := ReadLines(lines);
    if inst.Err? {
      return Err(inst.error);
    }
    r := BuildProblem(inst.value, stem, numOperators);
  }

  // ================================================================ what the build phase promises

  /** Machine i is named m{i+1} and has capacity 1. */
  lemma {:induction false} MachineAt(count: nat, i: nat)
    requires i < count
    ensures MachineResources(count)[i] == Resource(MachineName(i), 1)
    decreases count
  {
    if i < count - 1 {
      MachineAt(count - 1, i);
    }
  }

  /**
   * The resources are m1..m{num_mach} with capacity 1, then "operators" with capacity
   * num_operators; the problem is named after the file stem and the operator count, and minimizes
   * the makespan.
   */
  lemma ScheduleResources(inst: Instance, stem: string, numOperators: int)
    requires Schedule(inst, stem, numOperators).Ok?
    ensures var u := Schedule(inst, stem, numOperators).value;
      var width := RangeLength(inst.numMach);
      && u.name == ProblemName(stem, numOperators)
      && |u.resources| == width + 1
      && (forall i :: 0 <= i < width ==> u.resources[i] == Resource(MachineName(i), 1))
      && u.resources[width] == Resource("operators", numOperators)
      && u.metrics == [MinimizeMakespan]
  {
    var width := RangeLength(inst.numMach);
    forall i | 0 <= i < width
      ensures MachineResources(width)[i] == Resource(MachineName(i), 1)
    {
      MachineAt(width, i);
    }
  }

  /** Operation m of job j comes at position m of the job's operations. */
  lemma {:induction false} JobOperationAt(inst: Instance, j: nat, count: nat, m: nat)
    requires forall k :: 0 <= k < count ==> CellFits(inst, j, k)
    requires m < count
    ensures JobOperations(inst, j, count)[m] == Operation(inst, j, m)
    decreases count
  {
    if m < count - 1 {
      JobOperationAt(inst, j, count - 1, m);
    }
  }

  /** Position Start(j, num_mach) + m holds operation t_{j}_{m}: job-major, operation-minor order. */
  lemma {:induction false} OperationAt(inst: Instance, n: nat, j: nat, m: nat)
    requires RowsFit(inst, n) && j < n && m < RangeLength(inst.numMach)
    ensures Start(j, RangeLength(inst.numMach)) + m < |Operations(inst, n)|
    ensures Operations(inst, n)[Start(j, RangeLength(inst.numMach)) + m] == Operation(inst, j, m)
    decreases n
  {
    var width := RangeLength(inst.numMach);
    OperationsLength(inst, n);
    OperationsLength(inst, n - 1);
    if j < n - 1 {
      OperationAt(inst, n - 1, j, m);
    } else {
      JobOperationAt(inst, j, width, m);
    }
  }

  /** t_{j}_{m} has duration times[j][m] and uses one unit of machine machines[j][m] (1-based) and one operator. */
  lemma ScheduleActivities(inst: Instance, stem: string, numOperators: int, j: nat, m: nat)
    requires Schedule(inst, stem, numOperators).Ok?
    requires j < RangeLength(inst.numJobs) && m < RangeLength(inst.numMach)
    ensures var width := RangeLength(inst.numMach);
      var acts := Schedule(inst, stem, numOperators).value.activities;
      && Start(j, width) + m < |acts|
      && CellFits(inst, j, m)
      && acts[Start(j, width) + m] == Activity(OperationName(j, m), inst.times[j][m],
           [Usage(ResolveIndex(width, inst.machines[j][m] - 1), 1), Usage(width, 1)])
  {
    OperationAt(inst, RangeLength(inst.numJobs), j, m);
  }

  /** The chain of count activities from first joins each of them to the next one, and nothing else. */
  lemma {:induction false} ChainMembers(first: nat, count: nat, e: Precedence)
    ensures e in Chain(first, count) <==> e.before + 1 == e.after && first < e.after < first + count
    decreases count
  {
    if count > 1 {
      ChainMembers(first, count - 1, e);
    }
  }

  /** A job of width operations contributes width - 1 precedences (none when it has no operation). */
  lemma {:induction false} ChainLength(first: nat, count: nat)
    ensures |Chain(first, count)| == RangeLength(count - 1)
    decreases count
  {
    if count > 1 {
      ChainLength(first, count - 1);
    }
  }

  lemma {:induction false} ChainsLength(n: nat, width: nat)
    ensures |Chains(n, width)| == Start(n, RangeLength(width - 1))
    decreases n
  {
    if n > 0 {
      ChainsLength(n - 1, width);
      ChainLength(Start(n - 1, width), width);
    }
  }

  /** LE(t_{j}_{m-1}.end, t_{j}_{m}.start) as positions in the activity list. */
  function Link(j: nat, m: nat, width: nat): Precedence
    requires 1 <= m
  {
    Precedence(Start(j, width) + m - 1, Start(j, width) + m)
  }

  /** Operation m >= 1 of job j follows operation m - 1 in the chains of any n > j jobs. */
  lemma {:induction false} ChainsHaveLink(n: nat, width: nat, j: nat, m: nat)
    requires j < n && 1 <= m < width
    ensures Link(j, m, width) in Chains(n, width)
    decreases n
  {
    if j < n - 1 {
      ChainsHaveLink(n - 1, width, j, m);
    } else {
      ChainMembers(Start(n - 1, width), width, Link(j, m, width));
    }
  }

  /** Each precedence of the chains of n jobs is a link of one of those jobs. */
  lemma {:induction false} ChainsOnlyLinks(n: nat, width: nat, e: Precedence)
    requires e in Chains(n, width)
    ensures exists j, m :: 0 <= j < n && 1 <= m < width && e == Link(j, m, width)
    decreases n
  {
    var first := Start(n - 1, width);
    if e in Chains(n - 1, width) {
      ChainsOnlyLinks(n - 1, width, e);
      var j, m :| 0 <= j < n - 1 && 1 <= m < width && e == Link(j, m, width);
      assert 0 <= j < n;
    } else {
      ChainMembers(first, width, e);
      var m := e.after - first;
      assert e == Link(n - 1, m, width);
    }
  }

  /**
   * The precedences are exactly t_{j}_{m-1} before t_{j}_{m}, for every job j and every operation
   * m >= 1: the first operation of a job has no predecessor and no precedence crosses jobs.
   */
  lemma ChainsMembers(n: nat, width: nat, e: Precedence)
    ensures e in Chains(n, width) <==>
      exists j, m :: 0 <= j < n && 1 <= m < width && e == Link(j, m, width)
  {
    if e in Chains(n, width) {
      ChainsOnlyLinks(n, width, e);
    }
    if exists j, m :: 0 <= j < n && 1 <= m < width && e == Link(j, m, width) {
      var j, m :| 0 <= j < n && 1 <= m < width && e == Link(j, m, width);
      ChainsHaveLink(n, width, j, m);
    }
  }

  /** Every precedence of the first n jobs points forward to an activity of those jobs. */
  lemma {:induction false} ChainsBelow(n: nat, width: nat, e: Precedence)
    requires e in Chains(n, width)
    ensures e.before < e.after < Start(n, width)
    decreases n
  {
    var first := Start(n - 1, width);
    if e in Chains(n - 1, width) {
      ChainsBelow(n - 1, width, e);
    } else {
      ChainMembers(first, width, e);
    }
  }

  /** Every usage of an activity names one of the first bound resources. */
  predicate UsesBelow(a: Activity, bound: nat) {
    forall k :: 0 <= k < |a.usages| ==> a.usages[k].resource < bound
  }

  /** The operations of the first n jobs use only the machines and the operator pool. */
  lemma {:induction false} OperationsUseResources(inst: Instance, n: nat, a: Activity)
    requires RowsFit(inst, n) && a in Operations(inst, n)
    ensures UsesBelow(a, RangeLength(inst.numMach) + 1)
    decreases n
  {
    var width := RangeLength(inst.numMach);
    assert n > 0;
    var prev := Operations(inst, n - 1);
    var ops := JobOperations(inst, n - 1, width);
    assert Operations(inst, n) == prev + ops;
    if a in prev {
      OperationsUseResources(inst, n - 1, a);
    } else {
      var m :| 0 <= m < |ops| && ops[m] == a;
      JobOperationAt(inst, n - 1, width, m);
      assert a == Operation(inst, n - 1, m);
    }
  }

  /** Every activity uses an existing resource and every precedence joins two existing activities. */
  lemma ScheduleWellFormed(inst: Instance, stem: string, numOperators: int)
    requires Schedule(inst, stem, numOperators).Ok?
    ensures Schedule(inst, stem, numOperators).value.WellFormed()
  {
    var u := Schedule(inst, stem, numOperators).value;
    var jobs := RangeLength(inst.numJobs);
    var width := RangeLength(inst.numMach);
    assert |u.resources| == width + 1;
    OperationsLength(inst, jobs);
    forall i, k | 0 <= i < |u.activities| && 0 <= k < |u.activities[i].usages|
      ensures u.activities[i].usages[k].resource < |u.resources|
    {
      OperationsUseResources(inst, jobs, u.activities[i]);
    }
    forall e | e in u.precedences
      ensures e.before < |u.activities| && e.after < |u.activities|
    {
      ChainsBelow(jobs, width, e);
    }
  }

  /** num_jobs * num_mach activities and num_jobs * (num_mach - 1) precedences (none without machines). */
  lemma ScheduleSize(inst: Instance, stem: string, numOperators: int)
    requires Schedule(inst, stem, numOperators).Ok?
    ensures |Schedule(inst, stem, numOperators).value.activities| == RangeLength(inst.numJobs) * RangeLength(inst.numMach)
    ensures |Schedule(inst, stem, numOperators).value.precedences|
      == RangeLength(inst.numJobs) * RangeLength(RangeLength(inst.numMach) - 1)
  {
    var jobs := RangeLength(inst.numJobs);
    var width := RangeLength(inst.numMach);
    OperationsLength(inst, jobs);
    ChainsLength(jobs, width);
    StartIsProduct(jobs, width);
    StartIsProduct(jobs, RangeLength(width as int - 1));
  }

  /** f"t_{j}_{m}" is "_".join of "t" and the two numbers, none of which holds an underscore. */
  lemma OperationNamePieces(j: int, m: int)
    ensures forall k :: 0 <= k < 3 ==> '_' !in ["t", IntToString(j), IntToString(m)][k]
    ensures JoinOn(["t", IntToString(j), IntToString(m)], '_') == OperationName(j, m)
  {
    var pieces := ["t", IntToString(j), IntToString(m)];
    assert JoinOn(pieces[2..], '_') == IntToString(m);
    assert JoinOn(pieces[1..], '_') == IntToString(j) + "_" + IntToString(m);
    forall k | 0 <= k < 3
      ensures '_' !in pieces[k]
    {
      if '_' in pieces[k] {
        var i :| 0 <= i < |pieces[k]| && pieces[k][i] == '_';
      }
    }
  }

  /** Different operations have different names. */
  lemma OperationNamesDistinct(j: int, m: int, j': int, m': int)
    ensures OperationName(j, m) == OperationName(j', m') <==> j == j' && m == m'
  {
    if OperationName(j, m) == OperationName(j', m') {
      OperationNamePieces(j, m);
      OperationNamePieces(j', m');
      SplitJoinOn(["t", IntToString(j), IntToString(m)], '_');
      SplitJoinOn(["t", IntToString(j'), IntToString(m')], '_');
      IntToStringInjective(j, j');
      IntToStringInjective(m, m');
    }
  }

  /** Different machines have different names, and no machine is called "operators". */
  lemma MachineNamesDistinct(i: int, i': int)
    ensures MachineName(i) == MachineName(i') <==> i == i'
    ensures MachineName(i) != "operators"
  {
    if MachineName(i) == MachineName(i') {
      assert IntToString(i + 1) == MachineName(i)[1..];
      assert IntToString(i' + 1) == MachineName(i')[1..];
      IntToStringInjective(i + 1, i' + 1);
    }
    assert MachineName(i)[1] != "operators"[1];
  }

  /** The file rendered from an instance with one row per job in each matrix builds that instance's schedule. */
  lemma RenderedProblem(inst: Instance, stem: string, numOperators: int)
    requires |inst.times| == RangeLength(inst.numJobs) && |inst.machines| == RangeLength(inst.numJobs)
    ensures JobShopProblem(Render(inst), stem, numOperators) == Schedule(inst, stem, numOperators)
  {
    ReadRendered(inst);
  }
}
