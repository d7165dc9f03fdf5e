/**
 * PSPLIB (RCPSP) instances: the anchor-based parser that fills a Problem record from the
 * lines of a `.sm` file, and the encoder that turns the record into a scheduling problem.
 */
module Rcpsp {
  import opened Results
  import opened Builtins
  import opened Scheduling

  // The substrings that anchor each section of a PSPLIB file.
  const JobsMarker := "jobs (incl. supersource"
  const RenewableMarker := "- renewable"
  const HorizonMarker := "horizon"
  const PrecedenceMarker := "PRECEDENCE RELATIONS:"
  const RequestsMarker := "REQUESTS/DURATIONS"
  const AvailabilityMarker := "RESOURCEAVAILABILITIES"

  /**
   * The parsed instance. `succs` keeps the successor dictionary's items in insertion order,
   * the order in which the encoder iterates them.
   */
  class Problem {
    var jobs: seq<int>
    var res: seq<int>
    var horizon: int
    var succs: seq<(int, seq<int>)>
    var durations: seq<int>
    var demands: seq<seq<int>>
    var capacities: seq<int>

    constructor ()
      ensures jobs == [] && res == [] && horizon == -1 && succs == []
      ensures durations == [] && demands == [] && capacities == []
    {
      jobs, res, horizon := [], [], -1;
      succs := [];
      durations, demands, capacities := [], [], [];
    }

    /** The current values of the fields. */
    function Fields(): Parsed
      reads this
    {
      Parsed(jobs, res, horizon, succs, durations, demands, capacities)
    }
  }

  // ================================================================ parsing helpers

  /** [1, 2, ..., cardinality] */
  function MySet(cardinality: int): (r: seq<int>)
    ensures |r| == RangeLength(cardinality)
    ensures forall i :: 0 <= i < |r| ==> r[i] == i + 1
    decreases RangeLength(cardinality)
  {
    if cardinality <= 0 then [] else MySet(cardinality - 1) + [cardinality]
  }

  /** The index of the first line containing `substr`; no such line raises StopIteration. */
  function IndexOfLine(lines: seq<string>, substr: string): (r: Result<nat>)
    ensures r.Ok? ==> r.value < |lines| && Contains(lines[r.value], substr)
    ensures r.Err? ==> r.error == MarkerNotFound(substr)
  {
    if |lines| == 0 then Err(MarkerNotFound(substr))
    else if Contains(lines[0], substr) then Ok(0)
    else match IndexOfLine(lines[1..], substr)
      case Ok(i) => Ok(i + 1)
      case Err(e) => Err(e)
  }

  /**
   * index_of_line finds the first line containing the marker, and fails only when no line
   * contains it.
   */
  lemma {:induction false} IndexOfLineFirst(lines: seq<string>, substr: string)
    ensures IndexOfLine(lines, substr).Ok? ==>
      forall i :: 0 <= i < IndexOfLine(lines, substr).value ==> !Contains(lines[i], substr)
    ensures IndexOfLine(lines, substr).Err? <==> forall i :: 0 <= i < |lines| ==> !Contains(lines[i], substr)
    decreases |lines|
  {
    if |lines| > 0 && !Contains(lines[0], substr) {
      IndexOfLineFirst(lines[1..], substr);
      assert forall i :: 1 <= i < |lines| ==> lines[i] == lines[1..][i - 1];
    }
  }

  /** lines[i] where the list raises IndexError past its end. */
  function Line(lines: seq<string>, i: nat): (r: Result<string>)
    ensures r.Ok? <==> i < |lines|
    ensures r.Ok? ==> r.value == lines[i]
    ensures r.Err? ==> r.error == IndexOutOfRange
  {
    if i < |lines| then Ok(lines[i]) else Err(IndexOutOfRange)
  }

  /** The second ':'-separated piece of the first line containing `prefix`. */
  function RhsPart(lines: seq<string>, prefix: string): (r: Result<string>)
    ensures r.Ok? ==> IndexOfLine(lines, prefix).Ok?
    ensures r.Err? <==> IndexOfLine(lines, prefix).Err? || ':' !in lines[IndexOfLine(lines, prefix).value]
  {
    var i :- IndexOfLine(lines, prefix);
    var pieces := SplitOn(lines[i], ':');
    if |pieces| < 2 then Err(IndexOutOfRange) else Ok(pieces[1])
  }

  /** The successor ids of a precedence row: the integers from its fourth word on. */
  function SuccsFromLine(line: string): Result<seq<int>> {
    Ints(From(Split(line), 3))
  }

  /** succs_from_line reads every word from the fourth on, and fails exactly when one of them is not an integer. */
  lemma SuccsFromLineSpec(line: string)
    ensures var r := SuccsFromLine(line);
      && (r.Ok? ==> |r.value| == if |Split(line)| > 3 then |Split(line)| - 3 else 0)
      && (r.Ok? ==> forall k :: 0 <= k < |r.value| ==> ParseInt(Split(line)[k + 3]) == Ok(r.value[k]))
      && (r.Err? <==> exists k :: 3 <= k < |Split(line)| && ParseInt(Split(line)[k]).Err?)
  {
    var words := Split(line);
    var tail := From(words, 3);
    if exists k :: 3 <= k < |words| && ParseInt(words[k]).Err? {
      var k :| 3 <= k < |words| && ParseInt(words[k]).Err?;
      assert tail[k - 3] == words[k];
    }
  }

  /** int(lines[row].split()[col]) */
  function Cell(lines: seq<string>, row: nat, col: nat): Result<int> {
    var line :- Line(lines, row);
    var words := Split(line);
    if col < |words| then ParseInt(words[col]) else Err(IndexOutOfRange)
  }

  /** [int(lines[i].split()[col]) for i in range(rowStart, rowStart + rowCount)] */
  function Column(lines: seq<string>, col: nat, rowStart: nat, rowCount: int): (r: Result<seq<int>>)
    ensures r.Ok? ==> |r.value| == RangeLength(rowCount)
    ensures r.Ok? ==> forall i :: 0 <= i < |r.value| ==> Cell(lines, rowStart + i, col) == Ok(r.value[i])
    ensures r.Err? ==> exists row :: rowStart <= row < rowStart + rowCount && Cell(lines, row, col).Err?
    decreases RangeLength(rowCount)
  {
    if rowCount <= 0 then Ok([])
    else match Column(lines, col, rowStart, rowCount - 1)
      case Err(e) => Err(e)
      case Ok(prefix) =>
        match Cell(lines, rowStart + rowCount - 1, col)
        case Err(e) => Err(e)
        case Ok(v) => Ok(prefix + [v])
  }

  /** ints(lines[row].split()[3:]): the integers from the fourth word of the row on. */
  function DemandRow(lines: seq<string>, row: nat): Result<seq<int>> {
    var line :- Line(lines, row);
    Ints(From(Split(line), 3))
  }

  /** [ints(lines[i].split()[3:]) for i in range(rowStart, rowStart + rowCount)] */
  function DemandRows(lines: seq<string>, rowStart: nat, rowCount: int): (r: Result<seq<seq<int>>>)
    ensures r.Ok? ==> |r.value| == RangeLength(rowCount)
    ensures r.Ok? ==> forall i :: 0 <= i < |r.value| ==> DemandRow(lines, rowStart + i) == Ok(r.value[i])
    ensures r.Err? ==> exists row :: rowStart <= row < rowStart + rowCount && DemandRow(lines, row).Err?
    decreases RangeLength(rowCount)
  {
    if rowCount <= 0 then Ok([])
    else match DemandRows(lines, rowStart, rowCount - 1)
      case Err(e) => Err(e)
      case Ok(prefix) =>
        match DemandRow(lines, rowStart + rowCount - 1)
        case Err(e) => Err(e)
        case Ok(row) => Ok(prefix + [row])
  }

  /** succs_from_line(lines[row]), where the list raises IndexError past its end. */
  function SuccessorRow(lines: seq<string>, row: nat): Result<seq<int>> {
    var line :- Line(lines, row);
    SuccsFromLine(line)
  }

  /** The successor lists row by row: {job: succs_from_line(lines[offset + ix]) for ix, job in enumerate(jobs)} */
  function Successors(lines: seq<string>, offset: nat, jobs: seq<int>): (r: Result<seq<(int, seq<int>)>>)
    ensures r.Ok? ==> |r.value| == |jobs|
    ensures r.Ok? ==> forall ix :: 0 <= ix < |jobs| ==>
      r.value[ix].0 == jobs[ix] && SuccessorRow(lines, offset + ix) == Ok(r.value[ix].1)
    ensures r.Err? ==> exists row :: offset <= row < offset + |jobs| && SuccessorRow(lines, row).Err?
    decreases |jobs|
  {
    if |jobs| == 0 then Ok([])
    else match Successors(lines, offset, jobs[..|jobs| - 1])
      case Err(e) => Err(e)
      case Ok(prefix) =>
        var ix := |jobs| - 1;
        match SuccessorRow(lines, offset + ix)
        case Err(e) => Err(e)
        case Ok(succ) => Ok(prefix + [(jobs[ix], succ)])
  }

  /** ints(lines[row].split()): every integer of the row. */
  function Capacities(lines: seq<string>, row: nat): Result<seq<int>> {
    var line :- Line(lines, row);
    Ints(Split(line))
  }

  /** The capacities are the integers of every word of the row, which must exist. */
  lemma CapacitiesSpec(lines: seq<string>, row: nat)
    ensures var r := Capacities(lines, row);
      && (r.Ok? ==> row < |lines| && |r.value| == |Split(lines[row])|)
      && (r.Ok? ==> forall k :: 0 <= k < |r.value| ==> ParseInt(Split(lines[row])[k]) == Ok(r.value[k]))
      && (row >= |lines| ==> r == Err(IndexOutOfRange))
  {
  }

  // ================================================================ PSPLIB_parser

  /** The counts and the section offsets read before the Problem is filled in. */
  datatype Header = Header(njobs: int, nres: int, horizon: int, precOffset: nat, attrsOffset: nat, capsOffset: nat)

  /** int(rhs_part(lines, marker)) */
  function Count(lines: seq<string>, marker: string): Result<int> {
    var text :- RhsPart(lines, marker);
    ParseInt(text)
  }

  /** int(rhs_part(lines, marker).split()[0]) */
  function FirstCount(lines: seq<string>, marker: string): Result<int> {
    var text :- RhsPart(lines, marker);
    var words := Split(text);
    if |words| == 0 then Err(IndexOutOfRange) else ParseInt(words[0])
  }

  function ReadHeader(lines: seq<string>): Result<Header> {
    var njobs :- Count(lines, JobsMarker);
    var nres :- FirstCount(lines, RenewableMarker);
    var nperiods :- Count(lines, HorizonMarker);
    var prec :- IndexOfLine(lines, PrecedenceMarker);
    var attrs :- IndexOfLine(lines, RequestsMarker);
    var caps :- IndexOfLine(lines, AvailabilityMarker);
    Ok(Header(njobs, nres, nperiods, prec + 2, attrs + 3, caps + 2))
  }

  /** The values PSPLIB_parser stores in the fields of the Problem, in the order it stores them. */
  datatype Parsed = Parsed(
    jobs: seq<int>,
    res: seq<int>,
    horizon: int,
    succs: seq<(int, seq<int>)>,
    durations: seq<int>,
    demands: seq<seq<int>>,
    capacities: seq<int>)

  /** The fields PSPLIB_parser fills in once the header is read, or the first exception raised. */
  function Fill(lines: seq<string>, h: Header): Result<Parsed> {
    var jobs := MySet(h.njobs);
    var succs :- Successors(lines, h.precOffset, jobs);
    var durations :- Column(lines, 2, h.attrsOffset, h.njobs);
    var demands :- DemandRows(lines, h.attrsOffset, h.njobs);
    var capacities :- Capacities(lines, h.capsOffset);
    Ok(Parsed(jobs, MySet(h.nres), h.horizon, succs, durations, demands, capacities))
  }

  /** What PSPLIB_parser computes from the lines, or the first exception it raises. */
  function Parse(lines: seq<string>): Result<Parsed> {
    var h :- ReadHeader(lines);
    Fill(lines, h)
  }

  /** PSPLIB_parser over the lines of the file: reads the header, then fills the fields one by one. */
  method PsplibParser(lines: seq<string>) returns (r: Result<Problem>)
    ensures r.Err? ==> Parse(lines) == Err(r.error)
    ensures r.Ok? ==> fresh(r.value) && Parse(lines) == Ok(r.value.Fields())
  {
    var header := ReadHeader(lines);
    if header.Err? {
      return Err(header.error);
    }
    var h := header.value;
    assert Parse(lines) == Fill(lines, h);
    var problem := new Problem();
    var jobs := MySet(h.njobs);
    problem.jobs := jobs;
    problem.res := MySet(h.nres);
    problem.horizon := h.horizon;
    var succs := Successors(lines, h.precOffset, jobs);
    if succs.Err? {
      return Err(succs.error);
    }
    problem.succs := succs.value;
    var durations := Column(lines, 2, h.attrsOffset, h.njobs);
    if durations.Err? {
      return Err(durations.error);
    }
    problem.durations := durations.value;
    var demands := DemandRows(lines, h.attrsOffset, h.njobs);
    if demands.Err? {
      return Err(demands.error);
    }
    problem.demands := demands.value;
    var capacities := Capacities(lines, h.capsOffset);
    if capacities.Err? {
      return Err(capacities.error);
    }
    problem.capacities := capacities.value;
    r := Ok(problem);
  }

  // ================================================================ what the parser reads

  /**
   * rhs_part: the anchor line is the first line containing the prefix, and the text returned is
   * the part of that line between its first and its second ':' (or its end). A line without ':'
   * raises IndexError.
   */
  lemma RhsPartBetweenColons(lines: seq<string>, prefix: string)
    ensures IndexOfLine(lines, prefix).Ok? ==>
      var line := lines[IndexOfLine(lines, prefix).value];
      RhsPart(lines, prefix).Ok? <==> ':' in line
    ensures RhsPart(lines, prefix).Ok? ==>
      var line := lines[IndexOfLine(lines, prefix).value];
      var start := IndexOf(line, ':') + 1;
      var text := RhsPart(lines, prefix).value;
      && ':' !in text
      && start + |text| <= |line| && text == line[start..start + |text|]
      && (start + |text| == |line| || line[start + |text|] == ':')
  {
    var i := IndexOfLine(lines, prefix);
    if i.Ok? {
      SecondPiece(lines[i.value], ':');
    }
  }

  /** Line i is the first line that contains the marker. */
  predicate FirstHolding(lines: seq<string>, marker: string, i: int) {
    0 <= i < |lines| && Contains(lines[i], marker) && forall k :: 0 <= k < i ==> !Contains(lines[k], marker)
  }

  /** text is the part of the line between its first ':' and the next ':', or the end of the line. */
  predicate BetweenColons(line: string, text: string) {
    ':' in line &&
    var start := IndexOf(line, ':') + 1;
    && start + |text| <= |line| && line[start..start + |text|] == text
    && ':' !in text
    && (start + |text| == |line| || line[start + |text|] == ':')
  }

  /** A line has at most one text between its first two colons. */
  lemma BetweenColonsUnique(line: string, a: string, b: string)
    requires BetweenColons(line, a) && BetweenColons(line, b)
    ensures a == b
  {
  }

  /** index_of_line gives exactly the first line holding the marker. */
  lemma IndexOfLineAt(lines: seq<string>, marker: string, i: int)
    requires FirstHolding(lines, marker, i)
    ensures IndexOfLine(lines, marker) == Ok(i)
  {
    IndexOfLineFirst(lines, marker);
  }

  /**
   * int(rhs_part(lines, marker)) is int() of the text between the first two colons of the first
   * line holding the marker, and int(rhs_part(lines, marker).split()[0]) is int() of that text's
   * first word, with IndexError when it has none.
   */
  lemma CountOfField(lines: seq<string>, marker: string, i: int, text: string)
    requires FirstHolding(lines, marker, i) && BetweenColons(lines[i], text)
    ensures Count(lines, marker) == ParseInt(text)
    ensures FirstCount(lines, marker) == if |Split(text)| == 0 then Err(IndexOutOfRange) else ParseInt(Split(text)[0])
  {
    IndexOfLineAt(lines, marker, i);
    RhsPartBetweenColons(lines, marker);
    BetweenColonsUnique(lines[i], RhsPart(lines, marker).value, text);
  }

  /**
   * The anchor line of each count has a ':', and the count is int() of the text between its first
   * two colons (only of the first word of that text for nres).
   */
  lemma HeaderCounts(lines: seq<string>)
    ensures ReadHeader(lines).Ok? ==>
      var h := ReadHeader(lines).value;
      && (exists i, text :: FirstHolding(lines, JobsMarker, i) && BetweenColons(lines[i], text)
            && ParseInt(text) == Ok(h.njobs))
      && (exists i, text :: FirstHolding(lines, RenewableMarker, i) && BetweenColons(lines[i], text)
            && |Split(text)| > 0 && ParseInt(Split(text)[0]) == Ok(h.nres))
      && (exists i, text :: FirstHolding(lines, HorizonMarker, i) && BetweenColons(lines[i], text)
            && ParseInt(text) == Ok(h.horizon))
  {
    if ReadHeader(lines).Ok? {
      CountField(lines, JobsMarker);
      CountField(lines, RenewableMarker);
      CountField(lines, HorizonMarker);
    }
  }

  /** When rhs_part succeeds, its anchor line is the first holding the marker and its text lies between two colons. */
  lemma CountField(lines: seq<string>, marker: string)
    ensures RhsPart(lines, marker).Ok? ==>
      var i := IndexOfLine(lines, marker).value;
      FirstHolding(lines, marker, i) && BetweenColons(lines[i], RhsPart(lines, marker).value)
  {
    IndexOfLineFirst(lines, marker);
    RhsPartBetweenColons(lines, marker);
  }

  /**
   * Each section starts a fixed distance below the first line holding its anchor: the precedence
   * rows two lines below, the requests rows three lines below and the availability row two lines below.
   */
  lemma HeaderOffsets(lines: seq<string>)
    ensures ReadHeader(lines).Ok? ==>
      var h := ReadHeader(lines).value;
      && h.precOffset >= 2 && FirstHolding(lines, PrecedenceMarker, h.precOffset - 2)
      && h.attrsOffset >= 3 && FirstHolding(lines, RequestsMarker, h.attrsOffset - 3)
      && h.capsOffset >= 2 && FirstHolding(lines, AvailabilityMarker, h.capsOffset - 2)
  {
    IndexOfLineFirst(lines, PrecedenceMarker);
    IndexOfLineFirst(lines, RequestsMarker);
    IndexOfLineFirst(lines, AvailabilityMarker);
  }

  /** When filling succeeds, each field holds the value of its own step. */
  lemma FillParts(lines: seq<string>, h: Header)
    requires Fill(lines, h).Ok?
    ensures Successors(lines, h.precOffset, MySet(h.njobs)).Ok?
    ensures Column(lines, 2, h.attrsOffset, h.njobs).Ok?
    ensures DemandRows(lines, h.attrsOffset, h.njobs).Ok?
    ensures Capacities(lines, h.capsOffset).Ok?
    ensures Fill(lines, h).value == Parsed(
      MySet(h.njobs), MySet(h.nres), h.horizon,
      Successors(lines, h.precOffset, MySet(h.njobs)).value,
      Column(lines, 2, h.attrsOffset, h.njobs).value,
      DemandRows(lines, h.attrsOffset, h.njobs).value,
      Capacities(lines, h.capsOffset).value)
  {
  }

  /** jobs is [1..njobs] and res is [1..nres], both ascending; horizon is stored as read. */
  lemma {:induction false} FilledHeader(lines: seq<string>, h: Header)
    ensures Fill(lines, h).Ok? ==>
      var p := Fill(lines, h).value;
      && |p.jobs| == RangeLength(h.njobs) && |p.res| == RangeLength(h.nres)
      && (forall i :: 0 <= i < |p.jobs| ==> p.jobs[i] == i + 1)
      && (forall i :: 0 <= i < |p.res| ==> p.res[i] == i + 1)
      && p.horizon == h.horizon
  {
    if Fill(lines, h).Ok? {
      FillParts(lines, h);
    }
  }

  /**
   * The successor map has one entry per job, keyed 1..njobs in order, and is what reading the
   * precedence table row by row gives (job ix + 1 maps to the successors on row ix).
   */
  lemma {:induction false} FilledSuccessors(lines: seq<string>, h: Header)
    ensures Fill(lines, h).Ok? ==>
      var p := Fill(lines, h).value;
      && |p.succs| == |p.jobs|
      && (forall ix :: 0 <= ix < |p.succs| ==> p.succs[ix].0 == ix + 1 == p.jobs[ix])
      && (forall ix :: 0 <= ix < |p.succs| ==>
            h.precOffset + ix < |lines| && SuccsFromLine(lines[h.precOffset + ix]) == Ok(p.succs[ix].1))
      && Successors(lines, h.precOffset, p.jobs) == Ok(p.succs)
  {
    if Fill(lines, h).Ok? {
      FillParts(lines, h);
      var p := Fill(lines, h).value;
      forall ix | 0 <= ix < |p.succs|
        ensures h.precOffset + ix < |lines| && SuccsFromLine(lines[h.precOffset + ix]) == Ok(p.succs[ix].1)
      {
        assert SuccessorRow(lines, h.precOffset + ix) == Ok(p.succs[ix].1);
      }
    }
  }

  /** durations holds one entry per job, read from the third column of the requests table. */
  lemma {:induction false} FilledDurations(lines: seq<string>, h: Header)
    ensures Fill(lines, h).Ok? ==>
      var p := Fill(lines, h).value;
      && |p.durations| == |p.jobs|
      && (forall i :: 0 <= i < |p.jobs| ==> Cell(lines, h.attrsOffset + i, 2) == Ok(p.durations[i]))
      && Column(lines, 2, h.attrsOffset, h.njobs) == Ok(p.durations)
  {
    if Fill(lines, h).Ok? {
      FillParts(lines, h);
      var p := Fill(lines, h).value;
      var column := Column(lines, 2, h.attrsOffset, h.njobs);
      assert column == Ok(p.durations) && |p.jobs| == RangeLength(h.njobs) == |p.durations|;
      forall i | 0 <= i < |p.jobs|
        ensures Cell(lines, h.attrsOffset + i, 2) == Ok(p.durations[i])
      {
        assert Cell(lines, h.attrsOffset + i, 2) == Ok(column.value[i]);
      }
    }
  }

  /** demands holds one entry per job: the fourth word on of row i of the requests table for job i + 1. */
  lemma {:induction false} FilledDemands(lines: seq<string>, h: Header)
    ensures Fill(lines, h).Ok? ==>
      var p := Fill(lines, h).value;
      && |p.demands| == |p.jobs|
      && forall i :: 0 <= i < |p.jobs| ==> DemandRow(lines, h.attrsOffset + i) == Ok(p.demands[i])
  {
    if Fill(lines, h).Ok? {
      FillParts(lines, h);
    }
  }

  /** The capacities are the integers of every word of the availability row, which exists. */
  lemma {:induction false} FilledCapacities(lines: seq<string>, h: Header)
    ensures Fill(lines, h).Ok? ==>
      var p := Fill(lines, h).value;
      && h.capsOffset < |lines|
      && |p.capacities| == |Split(lines[h.capsOffset])|
      && forall k :: 0 <= k < |p.capacities| ==> ParseInt(Split(lines[h.capsOffset])[k]) == Ok(p.capacities[k])
  {
    if Fill(lines, h).Ok? {
      FillParts(lines, h);
      CapacitiesSpec(lines, h.capsOffset);
    }
  }

  /** No line containing one of the six anchors: parsing fails instead of defaulting. */
  lemma {:induction false} MissingAnchor(lines: seq<string>, marker: string)
    requires marker in [JobsMarker, RenewableMarker, HorizonMarker, PrecedenceMarker, RequestsMarker, AvailabilityMarker]
    requires forall i :: 0 <= i < |lines| ==> !Contains(lines[i], marker)
    ensures Parse(lines).Err?
  {
    IndexOfLineFirst(lines, marker);
    assert IndexOfLine(lines, marker).Err?;
    if marker in [JobsMarker, RenewableMarker, HorizonMarker] {
      assert RhsPart(lines, marker).Err?;
    }
    assert ReadHeader(lines).Err?;
  }

  // ================================================================ encode

  /** f"r{r}" */
  function ResourceName(r: int): string {
    "r" + IntToString(r)
  }

  /** f"a{job}" */
  function ActivityName(job: int): string {
    "a" + IntToString(job)
  }

  /** Different resource ids give different resource names, and different jobs different activity names. */
  lemma NamesInjective(x: int, y: int)
    ensures ResourceName(x) == ResourceName(y) <==> x == y
    ensures ActivityName(x) == ActivityName(y) <==> x == y
  {
    if ResourceName(x) == ResourceName(y) {
      assert IntToString(x) == ResourceName(x)[1..] && IntToString(y) == ResourceName(y)[1..];
      IntToStringInjective(x, y);
    }
    if ActivityName(x) == ActivityName(y) {
      assert IntToString(x) == ActivityName(x)[1..] && IntToString(y) == ActivityName(y)[1..];
      IntToStringInjective(x, y);
    }
  }

  predicate Distinct(xs: seq<int>) {
    forall i, j :: 0 <= i < j < |xs| ==> xs[i] != xs[j]
  }

  /** myset never repeats an id. */
  lemma MySetDistinct(n: int)
    ensures Distinct(MySet(n))
  {
  }

  /**
   * The dictionary `{keys[i]: handle i}` that encode fills in a loop, with handles numbered by
   * position: every key maps to the position of its last occurrence.
   */
  function IndexMap(keys: seq<int>): (m: map<int, nat>)
    ensures forall i :: 0 <= i < |keys| ==> keys[i] in m && i <= m[keys[i]]
    ensures forall k :: k in m ==> m[k] < |keys| && keys[m[k]] == k
    decreases |keys|
  {
    if |keys| == 0 then map[] else IndexMap(keys[..|keys| - 1])[keys[|keys| - 1] := |keys| - 1]
  }

  /** Without repeated keys, the dictionary maps each key to its own position. */
  lemma IndexMapDistinct(keys: seq<int>, i: int)
    requires Distinct(keys) && 0 <= i < |keys|
    ensures keys[i] in IndexMap(keys) && IndexMap(keys)[keys[i]] == i
  {
    var m := IndexMap(keys);
    assert keys[m[keys[i]]] == keys[i];
  }

  /** The resources encode adds, one per entry of res; capacities[idx] raises IndexError past its end. */
  function Resources(res: seq<int>, capacities: seq<int>): (r: Result<seq<Resource>>)
    ensures r.Ok? <==> |res| <= |capacities|
    ensures r.Err? ==> r.error == IndexOutOfRange
    ensures r.Ok? ==> |r.value| == |res|
    ensures r.Ok? ==> forall i :: 0 <= i < |res| ==> r.value[i] == Resource(ResourceName(res[i]), capacities[i])
    decreases |res|
  {
    if |res| == 0 then Ok([])
    else
      var idx := |res| - 1;
      var prefix :- Resources(res[..idx], capacities);
      if idx < |capacities| then
        assert forall i :: 0 <= i < idx ==> res[..idx][i] == res[i];
        Ok(prefix + [Resource(ResourceName(res[idx]), capacities[idx])])
      else Err(IndexOutOfRange)
  }

  /** Every resource id has a handle in the dictionary. */
  predicate Covers(index: map<int, nat>, ids: seq<int>) {
    forall k :: 0 <= k < |ids| ==> ids[k] in index
  }

  /**
   * The usages of one activity, in the order of its demand row: one per non-zero demand, on the
   * handle of the resource at that position. res[res_idx] raises IndexError when the row is longer
   * than res, and the dictionary lookup raises KeyError for an id without a handle.
   */
  function Usages(row: seq<int>, res: seq<int>, index: map<int, nat>): (r: Result<seq<Usage>>)
    ensures Covers(index, res) ==> (r.Ok? <==> |row| <= |res|)
    ensures Covers(index, res) && r.Err? ==> r.error == IndexOutOfRange
    decreases |row|
  {
    if |row| == 0 then Ok([])
    else
      var k := |row| - 1;
      var prefix :- Usages(row[..k], res, index);
      if k >= |res| then Err(IndexOutOfRange)
      else if res[k] !in index then Err(MissingKey(res[k]))
      else if row[k] != 0 then Ok(prefix + [Usage(index[res[k]], row[k])])
      else Ok(prefix)
  }

  /** Every usage has a non-zero amount and a handle taken from the dictionary. */
  lemma {:induction false} UsagesFromIndex(row: seq<int>, res: seq<int>, index: map<int, nat>, bound: nat)
    requires forall key :: key in index ==> index[key] < bound
    ensures Usages(row, res, index).Ok? ==>
      forall u :: u in Usages(row, res, index).value ==> u.resource < bound && u.amount != 0
    decreases |row|
  {
    if |row| > 0 {
      UsagesFromIndex(row[..|row| - 1], res, index, bound);
    }
  }

  /** Every resource id has a handle, and the handle is the id's own position. */
  predicate HandlesArePositions(index: map<int, nat>, res: seq<int>) {
    forall k :: 0 <= k < |res| ==> res[k] in index && index[res[k]] == k
  }

  /** With distinct ids, the dictionary encode builds gives each resource its own position. */
  lemma IndexMapPositions(res: seq<int>)
    requires Distinct(res)
    ensures HandlesArePositions(IndexMap(res), res)
  {
    forall k | 0 <= k < |res|
      ensures res[k] in IndexMap(res) && IndexMap(res)[res[k]] == k
    {
      IndexMapDistinct(res, k);
    }
  }

  /** When handles are positions, the last demand of a row adds a usage of its own position when it is non-zero. */
  lemma UsagesLast(row: seq<int>, res: seq<int>, index: map<int, nat>)
    requires HandlesArePositions(index, res) && 0 < |row| <= |res|
    ensures Usages(row[..|row| - 1], res, index).Ok?
    ensures var prefix := Usages(row[..|row| - 1], res, index).value;
      var n := |row| - 1;
      Usages(row, res, index) == Ok(if row[n] != 0 then prefix + [Usage(n, row[n])] else prefix)
  {
    assert Covers(index, res);
  }

  /**
   * When handles are positions (as they are for distinct resource ids), an activity uses resource k
   * with amount d exactly when its demand row holds d != 0 at position k.
   */
  lemma {:induction false} UsageIffDemand(row: seq<int>, res: seq<int>, index: map<int, nat>, k: nat, d: int)
    requires HandlesArePositions(index, res) && |row| <= |res|
    ensures Usages(row, res, index).Ok?
    ensures Usage(k, d) in Usages(row, res, index).value <==> k < |row| && row[k] == d && d != 0
    decreases |row|
  {
    if |row| > 0 {
      var n := |row| - 1;
      UsageIffDemand(row[..n], res, index, k, d);
      UsagesLast(row, res, index);
      var prefix := Usages(row[..n], res, index).value;
      var us := Usages(row, res, index).value;
      assert Usage(k, d) in prefix <==> k < n && row[k] == d && d != 0 by {
        if k < n {
          assert row[..n][k] == row[k];
        }
      }
      if row[n] != 0 {
        assert us == prefix + [Usage(n, row[n])];
        assert Usage(k, d) in us <==> Usage(k, d) in prefix || (k == n && d == row[n]);
      } else {
        assert us == prefix;
      }
    } else {
      assert Usages(row, res, index) == Ok([]);
    }
  }

  /** When handles are positions, the usages follow the resource order, so no resource is used twice. */
  lemma {:induction false} UsagesOrdered(row: seq<int>, res: seq<int>, index: map<int, nat>)
    requires HandlesArePositions(index, res) && |row| <= |res|
    ensures Usages(row, res, index).Ok?
    ensures forall u :: u in Usages(row, res, index).value ==> u.resource < |row|
    ensures var us := Usages(row, res, index).value;
      forall i, j :: 0 <= i < j < |us| ==> us[i].resource < us[j].resource
    decreases |row|
  {
    if |row| > 0 {
      var n := |row| - 1;
      UsagesOrdered(row[..n], res, index);
      UsagesLast(row, res, index);
    } else {
      assert Usages(row, res, index) == Ok([]);
    }
  }

  /** Every job fits: it has a duration, a demand row, and no more demands than resources. */
  predicate ActivitiesFit(jobs: seq<int>, durations: seq<int>, demands: seq<seq<int>>, res: seq<int>) {
    && |jobs| <= |durations|
    && |jobs| <= |demands|
    && forall i :: 0 <= i < |jobs| ==> |demands[i]| <= |res|
  }

  /**
   * The activities encode adds, one per job in job order, named after the job, with its duration
   * and its usages; durations[idx] and demands[idx] raise IndexError past their ends.
   */
  function Activities(jobs: seq<int>, durations: seq<int>, demands: seq<seq<int>>, res: seq<int>, index: map<int, nat>): (r: Result<seq<Activity>>)
    ensures r.Ok? ==> |r.value| == |jobs|
    decreases |jobs|
  {
    if |jobs| == 0 then Ok([])
    else
      var idx := |jobs| - 1;
      var prefix :- Activities(jobs[..idx], durations, demands, res, index);
      if idx >= |durations| || idx >= |demands| then Err(IndexOutOfRange)
      else
        var usages :- Usages(demands[idx], res, index);
        Ok(prefix + [Activity(ActivityName(jobs[idx]), durations[idx], usages)])
  }

  /** The jobs fit exactly when all but the last fit and the last has a duration and a short enough demand row. */
  lemma ActivitiesFitStep(jobs: seq<int>, durations: seq<int>, demands: seq<seq<int>>, res: seq<int>)
    requires |jobs| > 0
    ensures var idx := |jobs| - 1;
      ActivitiesFit(jobs, durations, demands, res) <==>
        && ActivitiesFit(jobs[..idx], durations, demands, res)
        && idx < |durations| && idx < |demands| && |demands[idx]| <= |res|
  {
  }

  /** When every resource has a handle, encode gets through the jobs exactly when every job fits. */
  lemma {:induction false} ActivitiesOk(jobs: seq<int>, durations: seq<int>, demands: seq<seq<int>>, res: seq<int>, index: map<int, nat>)
    requires Covers(index, res)
    ensures Activities(jobs, durations, demands, res, index).Ok? <==> ActivitiesFit(jobs, durations, demands, res)
    ensures Activities(jobs, durations, demands, res, index).Err? ==>
      Activities(jobs, durations, demands, res, index).error == IndexOutOfRange
    decreases |jobs|
  {
    if |jobs| > 0 {
      var idx := |jobs| - 1;
      ActivitiesOk(jobs[..idx], durations, demands, res, index);
      ActivitiesFitStep(jobs, durations, demands, res);
      if Activities(jobs[..idx], durations, demands, res, index).Ok? && idx < |durations| && idx < |demands| {
        ActivitiesStep(jobs, durations, demands, res, index, idx, Activities(jobs[..idx], durations, demands, res, index).value);
        assert jobs[..idx + 1] == jobs;
      }
    }
  }

  /** Activity i is named after job i, takes its duration, and uses what its demand row asks for. */
  lemma {:induction false} ActivityAt(jobs: seq<int>, durations: seq<int>, demands: seq<seq<int>>, res: seq<int>, index: map<int, nat>, i: nat)
    requires Activities(jobs, durations, demands, res, index).Ok? && i < |jobs|
    ensures i < |durations| && i < |demands|
    ensures Usages(demands[i], res, index).Ok?
    ensures Activities(jobs, durations, demands, res, index).value[i]
      == Activity(ActivityName(jobs[i]), durations[i], Usages(demands[i], res, index).value)
    decreases |jobs|
  {
    var idx := |jobs| - 1;
    if i < idx {
      ActivityAt(jobs[..idx], durations, demands, res, index, i);
      assert jobs[..idx][i] == jobs[i];
    }
  }

  /** The precedences of one job, one per successor in order; a successor that is not a job raises KeyError. */
  function SuccessorEdges(from: nat, succs: seq<int>, index: map<int, nat>): (r: Result<seq<Precedence>>)
    ensures r.Ok? <==> forall k :: 0 <= k < |succs| ==> succs[k] in index
    ensures r.Err? ==> exists k :: 0 <= k < |succs| && succs[k] !in index && r.error == MissingKey(succs[k])
    ensures r.Ok? ==> |r.value| == |succs|
    ensures r.Ok? ==> forall k :: 0 <= k < |succs| ==> r.value[k] == Precedence(from, index[succs[k]])
    decreases |succs|
  {
    if |succs| == 0 then Ok([])
    else
      var k := |succs| - 1;
      var prefix :- SuccessorEdges(from, succs[..k], index);
      if succs[k] in index then Ok(prefix + [Precedence(from, index[succs[k]])])
      else Err(MissingKey(succs[k]))
  }

  /** The number of (job, successor) pairs in the successor map. */
  function SuccessorCount(succs: seq<(int, seq<int>)>): nat
    decreases |succs|
  {
    if |succs| == 0 then 0 else SuccessorCount(succs[..|succs| - 1]) + |succs[|succs| - 1].1|
  }

  /** Every job of the map and every successor it lists is a key of the dictionary. */
  predicate KeysKnown(succs: seq<(int, seq<int>)>, index: map<int, nat>) {
    forall ix :: 0 <= ix < |succs| ==>
      && succs[ix].0 in index
      && forall k :: 0 <= k < |succs[ix].1| ==> succs[ix].1[k] in index
  }

  /** The precedences encode adds, item by item of the successor map; a missing key raises KeyError. */
  function Edges(succs: seq<(int, seq<int>)>, index: map<int, nat>): (r: Result<seq<Precedence>>)
    ensures r.Ok? <==> KeysKnown(succs, index)
    ensures r.Err? ==> r.error.MissingKey? && r.error.key !in index
    ensures r.Ok? ==> |r.value| == SuccessorCount(succs)
    decreases |succs|
  {
    if |succs| == 0 then Ok([])
    else
      var ix := |succs| - 1;
      var prefix :- Edges(succs[..ix], index);
      var (job, successors) := succs[ix];
      if job !in index then Err(MissingKey(job))
      else
        var edges :- SuccessorEdges(index[job], successors, index);
        Ok(prefix + edges)
  }

  /** What encode builds from the fields of a Problem, or the first exception it raises. */
  function Encoding(p: Parsed): Result<SchedulingProblem> {
    var resources :- Resources(p.res, p.capacities);
    var activities :- Activities(p.jobs, p.durations, p.demands, p.res, IndexMap(p.res));
    var precedences :- Edges(p.succs, IndexMap(p.jobs));
    Ok(SchedulingProblem("rcpsp", resources, activities, precedences, [MinimizeMakespan]))
  }

  /** The edge e is the one encode adds for some (job, successor) pair of the map. */
  predicate EdgeListed(succs: seq<(int, seq<int>)>, index: map<int, nat>, e: Precedence) {
    exists ix, k :: 0 <= ix < |succs| && 0 <= k < |succs[ix].1|
      && succs[ix].0 in index && succs[ix].1[k] in index
      && e == Precedence(index[succs[ix].0], index[succs[ix].1[k]])
  }

  /** The edges of one job are exactly the pairs (job, successor) it lists. */
  lemma SuccessorEdgesMembers(from: nat, succs: seq<int>, index: map<int, nat>, e: Precedence)
    requires SuccessorEdges(from, succs, index).Ok?
    ensures e in SuccessorEdges(from, succs, index).value <==>
      exists k :: 0 <= k < |succs| && e == Precedence(from, index[succs[k]])
  {
    var edges := SuccessorEdges(from, succs, index).value;
    if e in edges {
      var k :| 0 <= k < |edges| && edges[k] == e;
      assert e == Precedence(from, index[succs[k]]);
    }
    if exists k :: 0 <= k < |succs| && e == Precedence(from, index[succs[k]]) {
      var k :| 0 <= k < |succs| && e == Precedence(from, index[succs[k]]);
      assert edges[k] == e;
    }
  }

  /** The edges encode adds are exactly one per (job, successor) pair of the successor map. */
  lemma {:induction false} EdgesMembers(succs: seq<(int, seq<int>)>, index: map<int, nat>, e: Precedence)
    requires Edges(succs, index).Ok?
    ensures e in Edges(succs, index).value <==> EdgeListed(succs, index, e)
    decreases |succs|
  {
    if |succs| > 0 {
      var ix := |succs| - 1;
      var prefix := succs[..ix];
      var (job, successors) := succs[ix];
      EdgesMembers(prefix, index, e);
      SuccessorEdgesMembers(index[job], successors, index, e);
      var own := SuccessorEdges(index[job], successors, index).value;
      assert Edges(succs, index).value == Edges(prefix, index).value + own;
      if EdgeListed(prefix, index, e) {
        var i, k :| 0 <= i < |prefix| && 0 <= k < |prefix[i].1|
          && prefix[i].0 in index && prefix[i].1[k] in index
          && e == Precedence(index[prefix[i].0], index[prefix[i].1[k]]);
        assert succs[i] == prefix[i];
      }
      if e in own {
        var k :| 0 <= k < |successors| && e == Precedence(index[job], index[successors[k]]);
        assert EdgeListed(succs, index, e);
      }
      if EdgeListed(succs, index, e) {
        var i, k :| 0 <= i < |succs| && 0 <= k < |succs[i].1|
          && succs[i].0 in index && succs[i].1[k] in index
          && e == Precedence(index[succs[i].0], index[succs[i].1[k]]);
        if i < ix {
          assert prefix[i] == succs[i];
          assert EdgeListed(prefix, index, e);
        } else {
          assert e in own;
        }
      }
    }
  }

  /**
   * With distinct job ids, encode adds the edge a -> b exactly when the job of activity a lists the
   * job of activity b as a successor.
   */
  lemma EdgeIffSuccessor(succs: seq<(int, seq<int>)>, jobs: seq<int>, a: nat, b: nat)
    requires Distinct(jobs) && Edges(succs, IndexMap(jobs)).Ok?
    ensures Precedence(a, b) in Edges(succs, IndexMap(jobs)).value <==>
      a < |jobs| && b < |jobs| &&
      exists ix, k :: 0 <= ix < |succs| && 0 <= k < |succs[ix].1| && succs[ix].0 == jobs[a] && succs[ix].1[k] == jobs[b]
  {
    var index := IndexMap(jobs);
    var e := Precedence(a, b);
    EdgesMembers(succs, index, e);
    if EdgeListed(succs, index, e) {
      var ix, k :| 0 <= ix < |succs| && 0 <= k < |succs[ix].1|
        && succs[ix].0 in index && succs[ix].1[k] in index
        && e == Precedence(index[succs[ix].0], index[succs[ix].1[k]]);
      assert jobs[a] == succs[ix].0 && jobs[b] == succs[ix].1[k];
    }
    if a < |jobs| && b < |jobs| &&
      exists ix, k :: 0 <= ix < |succs| && 0 <= k < |succs[ix].1| && succs[ix].0 == jobs[a] && succs[ix].1[k] == jobs[b]
    {
      var ix, k :| 0 <= ix < |succs| && 0 <= k < |succs[ix].1| && succs[ix].0 == jobs[a] && succs[ix].1[k] == jobs[b];
      IndexMapDistinct(jobs, a);
      IndexMapDistinct(jobs, b);
      assert EdgeListed(succs, index, e);
    }
  }

  /** Adding the next key to the dictionary maps it to its own position. */
  lemma IndexMapStep(keys: seq<int>, idx: nat)
    requires idx < |keys|
    ensures IndexMap(keys[..idx + 1]) == IndexMap(keys[..idx])[keys[idx] := idx]
  {
    assert keys[..idx + 1][..idx] == keys[..idx];
  }

  /** Usages reports the error of the first failing demand: a failing prefix decides the result. */
  lemma {:induction false} UsagesFirstError(row: seq<int>, res: seq<int>, index: map<int, nat>, j: nat)
    requires j <= |row| && Usages(row[..j], res, index).Err?
    ensures Usages(row, res, index) == Usages(row[..j], res, index)
    decreases |row|
  {
    if j < |row| {
      var k := |row| - 1;
      assert row[..k][..j] == row[..j];
      UsagesFirstError(row[..k], res, index, j);
    } else {
      assert row[..j] == row;
    }
  }

  /** Once the jobs before the last one fail, the last one is never reached. */
  lemma ActivitiesPrefixError(jobs: seq<int>, durations: seq<int>, demands: seq<seq<int>>, res: seq<int>, index: map<int, nat>)
    requires |jobs| > 0 && Activities(jobs[..|jobs| - 1], durations, demands, res, index).Err?
    ensures Activities(jobs, durations, demands, res, index) == Activities(jobs[..|jobs| - 1], durations, demands, res, index)
  {
  }

  /** Activities reports the error of the first failing job. */
  lemma {:induction false} ActivitiesFirstError(jobs: seq<int>, durations: seq<int>, demands: seq<seq<int>>, res: seq<int>, index: map<int, nat>, j: nat)
    requires j <= |jobs| && Activities(jobs[..j], durations, demands, res, index).Err?
    ensures Activities(jobs, durations, demands, res, index) == Activities(jobs[..j], durations, demands, res, index)
    decreases |jobs|
  {
    if j == |jobs| {
      assert jobs[..j] == jobs;
    } else {
      var shorter := jobs[..|jobs| - 1];
      assert shorter[..j] == jobs[..j];
      ActivitiesFirstError(shorter, durations, demands, res, index, j);
      ActivitiesPrefixError(jobs, durations, demands, res, index);
    }
  }

  /** SuccessorEdges reports the first successor missing from the dictionary. */
  lemma {:induction false} SuccessorEdgesFirstError(from: nat, succs: seq<int>, index: map<int, nat>, j: nat)
    requires j <= |succs| && SuccessorEdges(from, succs[..j], index).Err?
    ensures SuccessorEdges(from, succs, index) == SuccessorEdges(from, succs[..j], index)
    decreases |succs|
  {
    if j < |succs| {
      var k := |succs| - 1;
      assert succs[..k][..j] == succs[..j];
      SuccessorEdgesFirstError(from, succs[..k], index, j);
    } else {
      assert succs[..j] == succs;
    }
  }

  /** Edges reports the first job or successor missing from the dictionary, in map order. */
  lemma {:induction false} EdgesFirstError(succs: seq<(int, seq<int>)>, index: map<int, nat>, j: nat)
    requires j <= |succs| && Edges(succs[..j], index).Err?
    ensures Edges(succs, index) == Edges(succs[..j], index)
    decreases |succs|
  {
    if j < |succs| {
      var k := |succs| - 1;
      assert succs[..k][..j] == succs[..j];
      EdgesFirstError(succs[..k], index, j);
    } else {
      assert succs[..j] == succs;
    }
  }

  /** One more id of res adds its resource after the ones before it. */
  lemma ResourcesStep(res: seq<int>, capacities: seq<int>, idx: nat)
    requires idx < |res| && idx < |capacities|
    ensures Resources(res[..idx], capacities).Ok? && Resources(res[..idx + 1], capacities).Ok?
    ensures Resources(res[..idx + 1], capacities).value
      == Resources(res[..idx], capacities).value + [Resource(ResourceName(res[idx]), capacities[idx])]
  {
    assert res[..idx + 1][..idx] == res[..idx];
  }

  /** The first loop of encode: one resource per id of res, and the dictionary of their handles. */
  method AddResources(u0: SchedulingProblem, res: seq<int>, capacities: seq<int>) returns (r: Result<SchedulingProblem>, resources: map<int, nat>)
    requires u0.resources == []
    ensures Resources(res, capacities).Err? ==> r == Err(Resources(res, capacities).error)
    ensures Resources(res, capacities).Ok? ==> r == Ok(u0.(resources := Resources(res, capacities).value))
    ensures r.Ok? ==> resources == IndexMap(res)
  {
    var u := u0;
    resources := map[];
    for idx := 0 to |res|
      invariant u == u0.(resources := u.resources)
      invariant Resources(res[..idx], capacities) == Ok(u.resources)
      invariant resources == IndexMap(res[..idx])
    {
      if idx >= |capacities| {
        return Err(IndexOutOfRange), resources;
      }
      ResourcesStep(res, capacities, idx);
      u := u.AddResource(ResourceName(res[idx]), capacities[idx]);
      IndexMapStep(res, idx);
      resources := resources[res[idx] := |u.resources| - 1];
    }
    assert res[..|res|] == res;
    return Ok(u), resources;
  }

  /** The inner loop of encode: the usages of activity a, one per non-zero demand of its row. */
  method AddUsages(u0: SchedulingProblem, a: nat, row: seq<int>, res: seq<int>, resources: map<int, nat>) returns (r: Result<SchedulingProblem>)
    requires a < |u0.activities| && u0.activities[a].usages == []
    requires Covers(resources, res)
    ensures Usages(row, res, resources).Err? ==> r == Err(IndexOutOfRange)
    ensures Usages(row, res, resources).Ok? ==>
      r == Ok(u0.(activities := u0.activities[a := u0.activities[a].(usages := Usages(row, res, resources).value)]))
  {
    var u := u0;
    ghost var usages := [];
    for resIdx := 0 to |row|
      invariant u == u0.(activities := u0.activities[a := u0.activities[a].(usages := usages)])
      invariant Usages(row[..resIdx], res, resources) == Ok(usages)
    {
      assert row[..resIdx + 1][..resIdx] == row[..resIdx];
      if resIdx >= |res| {
        return Err(IndexOutOfRange);
      }
      var fluent := resources[res[resIdx]];
      var demand := row[resIdx];
      if demand != 0 {
        u := u.Uses(a, fluent, demand);
        usages := usages + [Usage(fluent, demand)];
      }
    }
    assert row[..|row|] == row;
    return Ok(u);
  }

  /** One more job extends the activities of the jobs before it by one activity. */
  lemma ActivitiesStep(jobs: seq<int>, durations: seq<int>, demands: seq<seq<int>>, res: seq<int>, index: map<int, nat>, idx: nat, done: seq<Activity>)
    requires idx < |jobs| && idx < |durations| && idx < |demands|
    requires Activities(jobs[..idx], durations, demands, res, index) == Ok(done)
    ensures Usages(demands[idx], res, index).Err? ==>
      Activities(jobs[..idx + 1], durations, demands, res, index) == Err(Usages(demands[idx], res, index).error)
    ensures Usages(demands[idx], res, index).Ok? ==>
      Activities(jobs[..idx + 1], durations, demands, res, index)
        == Ok(done + [Activity(ActivityName(jobs[idx]), durations[idx], Usages(demands[idx], res, index).value)])
  {
    assert jobs[..idx + 1][..idx] == jobs[..idx];
  }

  /**
   * One more job of the second loop of encode: either it fails, and then encoding the jobs fails
   * with IndexError, or it adds its activity after those of the jobs before it.
   */
  lemma ActivitiesAdvance(jobs: seq<int>, durations: seq<int>, demands: seq<seq<int>>, res: seq<int>, index: map<int, nat>, idx: nat, done: seq<Activity>)
    requires Covers(index, res)
    requires idx < |jobs| && Activities(jobs[..idx], durations, demands, res, index) == Ok(done)
    ensures idx >= |durations| || idx >= |demands| || Usages(demands[idx], res, index).Err? ==>
      Activities(jobs, durations, demands, res, index) == Err(IndexOutOfRange)
    ensures idx < |durations| && idx < |demands| && Usages(demands[idx], res, index).Ok? ==>
      Activities(jobs[..idx + 1], durations, demands, res, index)
        == Ok(done + [Activity(ActivityName(jobs[idx]), durations[idx], Usages(demands[idx], res, index).value)])
  {
    assert jobs[..idx + 1][..idx] == jobs[..idx];
    if idx >= |durations| || idx >= |demands| {
      ActivitiesFirstError(jobs, durations, demands, res, index, idx + 1);
    } else {
      ActivitiesStep(jobs, durations, demands, res, index, idx, done);
      if Usages(demands[idx], res, index).Err? {
        ActivitiesFirstError(jobs, durations, demands, res, index, idx + 1);
      }
    }
  }

  /** One iteration of the second loop of encode: the activity of one job with its usages. */
  method AddJobActivity(u0: SchedulingProblem, job: int, duration: int, row: seq<int>, res: seq<int>, resources: map<int, nat>)
    returns (r: Result<SchedulingProblem>)
    requires Covers(resources, res)
    ensures Usages(row, res, resources).Err? ==> r == Err(IndexOutOfRange)
    ensures Usages(row, res, resources).Ok? ==>
      r == Ok(u0.(activities := u0.activities + [Activity(ActivityName(job), duration, Usages(row, res, resources).value)]))
  {
    var u := u0.AddActivity(ActivityName(job), duration);
    var a := |u.activities| - 1;
    r := AddUsages(u, a, row, res, resources);
    if r.Ok? {
      assert r.value.activities == u0.activities + [Activity(ActivityName(job), duration, Usages(row, res, resources).value)];
    }
  }

  /** The second loop of encode: one activity per job, and the dictionary of their handles. */
  method AddActivities(u0: SchedulingProblem, jobs: seq<int>, durations: seq<int>, demands: seq<seq<int>>, res: seq<int>, resources: map<int, nat>)
    returns (r: Result<SchedulingProblem>, activities: map<int, nat>)
    requires u0.activities == [] && Covers(resources, res)
    ensures Activities(jobs, durations, demands, res, resources).Err? ==> r == Err(Activities(jobs, durations, demands, res, resources).error)
    ensures Activities(jobs, durations, demands, res, resources).Ok? ==>
      r == Ok(u0.(activities := Activities(jobs, durations, demands, res, resources).value))
    ensures r.Ok? ==> activities == IndexMap(jobs)
  {
    var u := u0;
    activities := map[];
    for idx := 0 to |jobs|
      invariant u == u0.(activities := u.activities)
      invariant Activities(jobs[..idx], durations, demands, res, resources) == Ok(u.activities)
      invariant activities == IndexMap(jobs[..idx])
    {
      ActivitiesAdvance(jobs, durations, demands, res, resources, idx, u.activities);
      if idx >= |durations| || idx >= |demands| {
        return Err(IndexOutOfRange), activities;
      }
      r := AddJobActivity(u, jobs[idx], durations[idx], demands[idx], res, resources);
      if r.Err? {
        return r, activities;
      }
      assert IndexMap(jobs[..idx + 1]) == activities[jobs[idx] := idx] by {
        IndexMapStep(jobs, idx);
      }
      u := r.value;
      activities := activities[jobs[idx] := idx];
    }
    assert jobs[..|jobs|] == jobs;
    return Ok(u), activities;
  }

  /** The inner loop of the third loop of encode: one precedence per successor of one job. */
  method AddSuccessorEdges(u0: SchedulingProblem, act: nat, succs: seq<int>, activities: map<int, nat>) returns (r: Result<SchedulingProblem>)
    ensures SuccessorEdges(act, succs, activities).Err? ==> r == Err(SuccessorEdges(act, succs, activities).error)
    ensures SuccessorEdges(act, succs, activities).Ok? ==>
      r == Ok(u0.(precedences := u0.precedences + SuccessorEdges(act, succs, activities).value))
  {
    var u := u0;
    ghost var added := [];
    for k := 0 to |succs|
      invariant u == u0.(precedences := u0.precedences + added)
      invariant SuccessorEdges(act, succs[..k], activities) == Ok(added)
    {
      assert succs[..k + 1][..k] == succs[..k];
      if succs[k] !in activities {
        SuccessorEdgesFirstError(act, succs, activities, k + 1);
        return Err(MissingKey(succs[k]));
      }
      u := u.AddPrecedence(act, activities[succs[k]]);
      added := added + [Precedence(act, activities[succs[k]])];
    }
    assert succs[..|succs|] == succs;
    return Ok(u);
  }

  /** The third loop of encode: one precedence per (job, successor) pair, in the order of the map. */
  method AddPrecedences(u0: SchedulingProblem, succs: seq<(int, seq<int>)>, activities: map<int, nat>) returns (r: Result<SchedulingProblem>)
    ensures Edges(succs, activities).Err? ==> r == Err(Edges(succs, activities).error)
    ensures Edges(succs, activities).Ok? ==>
      r == Ok(u0.(precedences := u0.precedences + Edges(succs, activities).value))
  {
    var u := u0;
    ghost var added := [];
    for i := 0 to |succs|
      invariant u == u0.(precedences := u0.precedences + added)
      invariant Edges(succs[..i], activities) == Ok(added)
    {
      assert succs[..i + 1][..i] == succs[..i];
      var (job, successors) := succs[i];
      if job !in activities {
        EdgesFirstError(succs, activities, i + 1);
        return Err(MissingKey(job));
      }
      r := AddSuccessorEdges(u, activities[job], successors, activities);
      if r.Err? {
        EdgesFirstError(succs, activities, i + 1);
        return r;
      }
      ghost var edges := SuccessorEdges(activities[job], successors, activities).value;
      assert u0.precedences + added + edges == u0.precedences + (added + edges);
      u := r.value;
      added := added + edges;
    }
    assert succs[..|succs|] == succs;
    return Ok(u);
  }

  /**
   * encode: adds one resource per id of res, then one activity per job with its non-zero demands,
   * then one precedence per (job, successor) pair, then the makespan objective.
   */
  method Encode(problem: Problem) returns (r: Result<SchedulingProblem>)
    ensures r == Encoding(problem.Fields())
  {
    var p := problem.Fields();
    var u := EmptyProblem("rcpsp");
    var resources;
    r, resources := AddResources(u, p.res, p.capacities);
    if r.Err? {
      return r;
    }
    u := r.value;
    assert u.resources == Resources(p.res, p.capacities).value;
    var activities;
    r, activities := AddActivities(u, p.jobs, p.durations, p.demands, p.res, resources);
    if r.Err? {
      return r;
    }
    u := r.value;
    assert u.activities == Activities(p.jobs, p.durations, p.demands, p.res, IndexMap(p.res)).value;
    r := AddPrecedences(u, p.succs, activities);
    if r.Err? {
      return r;
    }
    u := r.value.AddMinimizeMakespan();
    assert u == SchedulingProblem("rcpsp", u.resources, u.activities, Edges(p.succs, IndexMap(p.jobs)).value, [MinimizeMakespan]);
    return Ok(u);
  }

  // ================================================================ what encode builds

  /**
   * encode succeeds exactly when every resource id has a capacity, every job has a duration and a
   * demand row no longer than the resource list, and every id of the successor map is a job; it
   * fails with IndexError or with the KeyError of an id that is not a job.
   */
  lemma EncodingOk(p: Parsed)
    ensures Encoding(p).Ok? <==>
      && |p.res| <= |p.capacities|
      && ActivitiesFit(p.jobs, p.durations, p.demands, p.res)
      && KeysKnown(p.succs, IndexMap(p.jobs))
    ensures Encoding(p).Err? ==>
      || Encoding(p).error == IndexOutOfRange
      || (Encoding(p).error.MissingKey? && forall i :: 0 <= i < |p.jobs| ==> p.jobs[i] != Encoding(p).error.key)
  {
    assert Covers(IndexMap(p.res), p.res);
    ActivitiesOk(p.jobs, p.durations, p.demands, p.res, IndexMap(p.res));
  }

  /**
   * The problem encode builds is named "rcpsp", has resource r{id} with capacity capacities[i] for
   * the i-th resource id, activity a{job} with durations[i] for the i-th job, one precedence per
   * (job, successor) pair and the makespan objective.
   */
  lemma EncodingShape(p: Parsed)
    requires Encoding(p).Ok?
    ensures |p.res| <= |p.capacities| && |p.jobs| <= |p.durations|
    ensures var u := Encoding(p).value;
      && u.name == "rcpsp" && u.metrics == [MinimizeMakespan]
      && |u.resources| == |p.res|
      && (forall i :: 0 <= i < |p.res| ==> u.resources[i] == Resource(ResourceName(p.res[i]), p.capacities[i]))
      && |u.activities| == |p.jobs|
      && (forall i :: 0 <= i < |p.jobs| ==>
            u.activities[i].name == ActivityName(p.jobs[i]) && u.activities[i].duration == p.durations[i])
      && |u.precedences| == SuccessorCount(p.succs)
  {
    EncodingOk(p);
    var acts := Activities(p.jobs, p.durations, p.demands, p.res, IndexMap(p.res)).value;
    forall i | 0 <= i < |p.jobs|
      ensures acts[i].name == ActivityName(p.jobs[i]) && acts[i].duration == p.durations[i]
    {
      ActivityAt(p.jobs, p.durations, p.demands, p.res, IndexMap(p.res), i);
    }
  }

  /**
   * With distinct resource ids, activity i uses amount d of resource k exactly when the demand row of
   * job i asks for d != 0 at position k.
   */
  lemma EncodedUsage(p: Parsed, i: nat, k: nat, d: int)
    requires Encoding(p).Ok? && Distinct(p.res) && i < |p.jobs|
    ensures |Encoding(p).value.activities| == |p.jobs| && i < |p.demands|
    ensures Usage(k, d) in Encoding(p).value.activities[i].usages <==>
      k < |p.demands[i]| && p.demands[i][k] == d && d != 0
  {
    EncodingOk(p);
    ActivityAt(p.jobs, p.durations, p.demands, p.res, IndexMap(p.res), i);
    IndexMapPositions(p.res);
    UsageIffDemand(p.demands[i], p.res, IndexMap(p.res), k, d);
  }

  /**
   * With distinct job ids, encode adds the precedence a -> b exactly when the successor map lists
   * the job of activity b among the successors of the job of activity a.
   */
  lemma EncodedEdge(p: Parsed, a: nat, b: nat)
    requires Encoding(p).Ok? && Distinct(p.jobs)
    ensures Precedence(a, b) in Encoding(p).value.precedences <==>
      a < |p.jobs| && b < |p.jobs| &&
      exists ix, k :: 0 <= ix < |p.succs| && 0 <= k < |p.succs[ix].1| && p.succs[ix].0 == p.jobs[a] && p.succs[ix].1[k] == p.jobs[b]
  {
    EdgeIffSuccessor(p.succs, p.jobs, a, b);
  }

  /** Every usage encode adds names one of its resources and is non-zero; every precedence joins two of its activities. */
  lemma EncodingWellFormed(p: Parsed)
    requires Encoding(p).Ok?
    ensures Encoding(p).value.WellFormed()
    ensures forall i, k :: 0 <= i < |Encoding(p).value.activities| && 0 <= k < |Encoding(p).value.activities[i].usages| ==>
      Encoding(p).value.activities[i].usages[k].amount != 0
  {
    var u := Encoding(p).value;
    var index := IndexMap(p.res);
    EncodingShape(p);
    forall i, k | 0 <= i < |u.activities| && 0 <= k < |u.activities[i].usages|
      ensures u.activities[i].usages[k].resource < |u.resources| && u.activities[i].usages[k].amount != 0
    {
      ActivityAt(p.jobs, p.durations, p.demands, p.res, index, i);
      UsagesFromIndex(p.demands[i], p.res, index, |p.res|);
      assert u.activities[i].usages[k] in u.activities[i].usages;
    }
    var jobIndex := IndexMap(p.jobs);
    forall e | e in u.precedences
      ensures e.before < |u.activities| && e.after < |u.activities|
    {
      EdgesMembers(p.succs, jobIndex, e);
    }
  }

  /** In a parsed file the job numbers are 1..njobs, so the dictionary of activities holds exactly those. */
  lemma JobNumbers(jobs: seq<int>, key: int)
    requires forall i :: 0 <= i < |jobs| ==> jobs[i] == i + 1
    ensures key in IndexMap(jobs) <==> 1 <= key <= |jobs|
  {
    if 1 <= key <= |jobs| {
      assert jobs[key - 1] == key;
    }
  }

  /**
   * For a parsed file: encode succeeds exactly when the availability row covers every resource, no
   * demand row is longer than the resource list and every successor is a job number 1..njobs.
   */
  lemma EncodeParsed(lines: seq<string>, h: Header)
    requires Fill(lines, h).Ok?
    ensures var p := Fill(lines, h).value;
      Encoding(p).Ok? <==>
        && |p.res| <= |p.capacities|
        && (forall i :: 0 <= i < |p.demands| ==> |p.demands[i]| <= |p.res|)
        && (forall ix, k :: 0 <= ix < |p.succs| && 0 <= k < |p.succs[ix].1| ==> 1 <= p.succs[ix].1[k] <= |p.jobs|)
  {
    var p := Fill(lines, h).value;
    FilledHeader(lines, h);
    FilledSuccessors(lines, h);
    FilledDurations(lines, h);
    FilledDemands(lines, h);
    EncodingOk(p);
    var index := IndexMap(p.jobs);
    forall key
      ensures key in index <==> 1 <= key <= |p.jobs|
    {
      JobNumbers(p.jobs, key);
    }
  }
}
