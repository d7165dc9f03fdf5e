# Scheduling-domain readers: PSPLIB (RCPSP) and job-shop

This project models the two instance readers of the scheduling benchmark domains and the
encoders that turn what they read into a scheduling problem. It then proves what these readers
and encoders do and when they fail.

* **RCPSP** (`domains/rcpsp/__init__.py`). `PSPLIB_parser` finds six anchor lines in a PSPLIB
  `.sm` file. From them it reads:
  * the number of jobs, of renewable resources and the horizon;
  * the precedence table (successors of each job);
  * the requests table (duration and per-resource demand of each job);
  * the resource availabilities.

  It stores everything in a `Problem` record. `encode` then adds:
  * one resource `r{id}` per resource id, with its capacity;
  * one activity `a{job}` per job, with its duration and one usage per non-zero demand;
  * one precedence per (job, successor) pair;
  * the makespan objective.
* **Job-shop** (`domains/jobshop/__init__.py`). `_parse` first reads:
  * a header line with the number of jobs and machines;
  * one row of processing times per job;
  * one row of 1-based machine numbers per job.

  A title line may come before the header. A row may be preceded by one alphabetic title line.
  `_parse` then builds:
  * machines `m1..mM` with capacity 1, and a pool `operators` whose capacity is the number of
    operators;
  * one activity `t_{j}_{m}` per operation, using one unit of its machine and one operator;
  * a chain of precedences through the operations of each job;
  * the makespan objective.

Modules:

* `Results` (`results.dfy`): one error per Python exception the code can raise. These are
  `ValueError` from `int()` (`BadInteger`), `ValueError` from unpacking (`TooFewValues`),
  `IndexError`, `KeyError` (`MissingKey`) and `StopIteration` from `next()` (`MarkerNotFound`).
  Errors are carried in a `Result` datatype.
* `Builtins` (`builtins.dfy`): the Python behaviour the readers rely on.
  * `str.split()` with no separator, `str.split(sep)`, `str.rstrip()`/`strip()` and `in` on
    strings;
  * `int()` on decimal text and `str()` of an integer;
  * `len(range(n))` and list indexing with negative indices.
* `Scheduling` (`scheduling.dfy`): the scheduling problem both encoders build, as a value. It
  holds a name, resources, activities with usages, precedences and metrics. It offers
  `add_resource`, `add_activity`, `uses`, `add_constraint(LE(a.end, b.start))` and
  `add_quality_metric`. Resources and activities are referred to by position, so the handles
  the source keeps in dictionaries are positions here.
* `Rcpsp` (`rcpsp.dfy`).
  * `Problem` is a class: the parser allocates it and assigns its fields one by one.
  * `PsplibParser` is a method proved equal to the pure specification `Parse`.
  * `Encode` is a method with one helper method per loop. It is proved equal to the specification
    `Encoding`.
  * The successor dictionary is a sequence of (job, successors) pairs in insertion order, the
    order `encode` iterates it.
  * The `resources`/`activities` dictionaries of `encode` are maps from id to handle position
    (`IndexMap`).
* `JobShop` (`jobshop.dfy`).
  * `ReadLines`/`PopRows` pop lines as `_parse` does. They are proved equal to `ReadInstance`.
  * `BuildProblem` runs the nested loops. It is proved equal to `Schedule`.
  * `Parse` composes the two.

The machine lookup `machine_objects[machines[j][m] - 1]` keeps Python's negative indexing.
A machine number 0 therefore selects the last machine, and a number below `-num_mach + 1` or
above `num_mach` raises `IndexError`.

## Model

| member | source | states |
|---|---|---|
| Builtins.ResolveIndex | domains/jobshop/__init__.py:44 | a valid Python index designates a position inside the list: itself when non-negative, counted back from the end when negative |
| Builtins.Split | domains/jobshop/__init__.py:14 | every word `str.split()` returns is non-empty and free of whitespace; which words, in which order, is stated by the four lemmas below |
| Builtins.SplitLeadingSpace | domains/jobshop/__init__.py:14 | whitespace of any length before a text is skipped: it does not change the words |
| Builtins.SplitWordBefore | domains/jobshop/__init__.py:14 | a word followed by whitespace or by the end of the text is the first word, and the rest is split on its own |
| Builtins.SplitWordThenSpace | domains/jobshop/__init__.py:14 | a run of several whitespace characters after a word is a single separator |
| Builtins.SplitSpaced | domains/rcpsp/__init__.py:47 | words laid out with leading whitespace of any length, non-empty whitespace runs of any length between them and trailing whitespace split back into exactly those words, in order |
| Builtins.SplitJoinWords | domains/jobshop/__init__.py:14 | splitting non-empty whitespace-free words joined by single spaces gives exactly those words back |
| Builtins.SplitTrailingSpace | domains/jobshop/__init__.py:14 | whitespace appended to a text does not change its words |
| Builtins.RStripSpec | domains/jobshop/__init__.py:14 | `rstrip()` keeps the longest prefix not ending in whitespace and removes only whitespace |
| Builtins.SplitRStrip | domains/jobshop/__init__.py:14 | `line.rstrip().split()` has the same words as `line.split()` |
| Builtins.LStripSpec | domains/rcpsp/__init__.py:67 | `lstrip()` keeps the longest suffix not starting with whitespace and removes only whitespace |
| Builtins.ContainsOccurs | domains/rcpsp/__init__.py:36 | `substr in line` holds exactly when the substring occurs at some position of the line |
| Builtins.JoinSplitOn | domains/rcpsp/__init__.py:40 | joining the pieces of `s.split(sep)` with `sep` restores `s` |
| Builtins.SplitJoinOn | domains/rcpsp/__init__.py:40 | splitting separator-free pieces joined by the separator gives the pieces back |
| Builtins.FirstPiece | domains/rcpsp/__init__.py:40 | `s.split(sep)[0]` is the text before the first separator, or all of it when there is none |
| Builtins.SecondPiece | domains/rcpsp/__init__.py:40 | `s.split(sep)[1]` exists exactly when `s` holds the separator, and is the text between the first and the next separator (or the end) |
| Builtins.IntToString | domains/rcpsp/__init__.py:100 | `str(i)` is the canonical decimal form: all digits except a leading minus sign, which appears exactly for negative numbers, and no leading zero except in "0" |
| Builtins.ParseInt | domains/rcpsp/__init__.py:24 | `int()` refuses text with the ValueError of that text, and refuses every text holding one of the information separators U+001C..U+001F, which `int()` does not skip although `str.isspace` counts them as whitespace |
| Builtins.Ints | domains/rcpsp/__init__.py:23-24 | on success one value per token, each what `int()` gives for that token; on failure some token is refused |
| Builtins.IntsFirstBad | domains/rcpsp/__init__.py:23-24 | the error `ints` raises is the ValueError of a token `int()` refuses |
| Builtins.IntsOfParsed | domains/rcpsp/__init__.py:23-24 | when `int()` accepts every token, `ints` returns exactly their values in order |
| Builtins.ParseIntOfIntToString | domains/jobshop/__init__.py:14 | `int(str(i)) == i` for every integer |
| Builtins.ParseIntPadded | domains/rcpsp/__init__.py:67 | `int()` ignores the whitespace it skips around the number, such as the newline `readlines()` keeps |
| Builtins.IntToStringInjective | domains/rcpsp/__init__.py:100 | different integers print differently |
| Builtins.IntsOfPrintedLine | domains/jobshop/__init__.py:14 | a line of printed integers splits into their texts and reads back as the integers |
| Scheduling.UsesLast | domains/jobshop/__init__.py:45-46 | `uses` on the activity just added appends one usage to that activity and changes nothing else |
| Rcpsp.Problem.constructor | domains/rcpsp/__init__.py:12-20 | a new Problem has empty lists and successor map and horizon -1 |
| Rcpsp.MySet | domains/rcpsp/__init__.py:31-32 | `myset(n)` has max(n, 0) elements and element i is i + 1 |
| Rcpsp.MySetDistinct | domains/rcpsp/__init__.py:31-32 | `myset(n)` never repeats an id |
| Rcpsp.IndexOfLine | domains/rcpsp/__init__.py:35-36 | a found index is a line containing the substring; otherwise StopIteration for that substring |
| Rcpsp.IndexOfLineFirst | domains/rcpsp/__init__.py:35-36 | the index found is the first line containing the substring, and the search fails exactly when no line contains it |
| Rcpsp.Line | domains/rcpsp/__init__.py:40 | `lines[i]` succeeds exactly when i is below the length, with IndexError otherwise |
| Rcpsp.RhsPart | domains/rcpsp/__init__.py:39-40 | `rhs_part` fails exactly when no line holds the prefix or the first such line has no ':' |
| Rcpsp.RhsPartBetweenColons | domains/rcpsp/__init__.py:39-40 | the text returned lies between the first ':' of the anchor line and the next ':' (or its end), and holds no ':' |
| Rcpsp.SuccsFromLineSpec | domains/rcpsp/__init__.py:46-47 | the successors are the values of the words from the fourth on, and the call fails exactly when one of those words is not an integer |
| Rcpsp.Column | domains/rcpsp/__init__.py:50-53 | one value per row of the range, each the integer in the given column of that row; a failure comes from some row of the range |
| Rcpsp.DemandRows | domains/rcpsp/__init__.py:85-87 | one demand list per job row, each the integers from the fourth word on; a failure comes from some row |
| Rcpsp.Successors | domains/rcpsp/__init__.py:81-83 | one entry per job in job order, job ix maps to the successors on precedence row offset + ix; a failure comes from some row |
| Rcpsp.CapacitiesSpec | domains/rcpsp/__init__.py:88 | the capacities are the integers of every word of the availability row, and a missing row raises IndexError |
| Rcpsp.PsplibParser | domains/rcpsp/__init__.py:56-90 | the parser raises exactly what `Parse` raises, and otherwise returns a fresh Problem whose fields are what `Parse` computes |
| Rcpsp.IndexOfLineAt | domains/rcpsp/__init__.py:35-36 | `index_of_line` returns exactly the index of the first line holding the substring |
| Rcpsp.BetweenColonsUnique | domains/rcpsp/__init__.py:40 | a line has only one text between its first ':' and the next ':' (or its end) |
| Rcpsp.CountOfField | domains/rcpsp/__init__.py:67-70 | `int(rhs_part(...))` is `int()` of the text between the first two colons of the first anchor line, and `int(rhs_part(...).split()[0])` is `int()` of that text's first word, with IndexError when it has none |
| Rcpsp.HeaderCounts | domains/rcpsp/__init__.py:67-70 | when the header is read, the first line holding each count anchor has a ':', njobs and the horizon are `int()` of the text between its first two colons, and nres is `int()` of that text's first word |
| Rcpsp.HeaderOffsets | domains/rcpsp/__init__.py:71-73 | the precedence, requests and availability offsets are 2, 3 and 2 lines below the first line holding each anchor, no earlier line holding it |
| Rcpsp.MissingAnchor | domains/rcpsp/__init__.py:67-73 | when no line holds one of the six anchors, parsing fails |
| Rcpsp.FilledHeader | domains/rcpsp/__init__.py:77-79 | jobs is 1..njobs and res is 1..nres in order, and the horizon is stored as read |
| Rcpsp.FilledSuccessors | domains/rcpsp/__init__.py:81-83 | the successor map has one entry per job keyed 1..njobs in order, and the successors of job ix + 1 are `succs_from_line` of precedence row ix, which exists |
| Rcpsp.FilledDurations | domains/rcpsp/__init__.py:84 | one duration per job: the duration of job i + 1 is `int()` of the third word of requests row i |
| Rcpsp.FilledDemands | domains/rcpsp/__init__.py:85-87 | one demand row per job: the integers from the fourth word on of its requests row |
| Rcpsp.FilledCapacities | domains/rcpsp/__init__.py:88 | the availability row exists, there is one capacity per word of it, and each is `int()` of its word |
| Rcpsp.NamesInjective | domains/rcpsp/__init__.py:100-105 | `r{x}` equals `r{y}` exactly when x == y, and the same for `a{x}` |
| Rcpsp.IndexMap | domains/rcpsp/__init__.py:97-100 | after the loop every id is a key and maps to a position holding that id, no earlier than any of its occurrences |
| Rcpsp.IndexMapDistinct | domains/rcpsp/__init__.py:97-100 | with distinct ids, each id maps to its own position |
| Rcpsp.IndexMapStep | domains/rcpsp/__init__.py:100 | storing the handle of the next id updates the dictionary at that id only |
| Rcpsp.IndexMapPositions | domains/rcpsp/__init__.py:97-100 | with distinct resource ids, every resource id's handle is its own position |
| Rcpsp.Resources | domains/rcpsp/__init__.py:97-100 | succeeds exactly when every resource id has a capacity (IndexError otherwise); resource i is `r{res[i]}` with capacity `capacities[i]` |
| Rcpsp.AddResources | domains/rcpsp/__init__.py:97-100 | the first loop adds exactly the resources of `Resources` (or raises its error) and leaves the dictionary equal to `IndexMap(res)` |
| Rcpsp.Usages | domains/rcpsp/__init__.py:106-110 | when every resource id has a handle, the usages of a row exist exactly when the row is no longer than the resource list, and fail with IndexError otherwise |
| Rcpsp.UsagesFromIndex | domains/rcpsp/__init__.py:106-110 | every usage has a non-zero amount and a handle taken from the dictionary |
| Rcpsp.UsageIffDemand | domains/rcpsp/__init__.py:106-110 | when handles are positions, a job uses resource k with amount d exactly when its demand row holds d != 0 at position k |
| Rcpsp.UsagesOrdered | domains/rcpsp/__init__.py:106-110 | when handles are positions, usages follow the resource order, so no resource is used twice |
| Rcpsp.UsagesFirstError | domains/rcpsp/__init__.py:106-110 | the first demand that fails decides the error of the row |
| Rcpsp.AddUsages | domains/rcpsp/__init__.py:106-110 | the inner loop gives activity a exactly the usages of `Usages`, or raises IndexError |
| Rcpsp.Activities | domains/rcpsp/__init__.py:102-111 | on success one activity per job |
| Rcpsp.ActivitiesOk | domains/rcpsp/__init__.py:102-111 | with every resource id covered, the jobs loop succeeds exactly when every job has a duration and a demand row no longer than the resource list, and fails only with IndexError |
| Rcpsp.ActivityAt | domains/rcpsp/__init__.py:102-111 | activity i is `a{jobs[i]}` with `durations[i]` and the usages of demand row i |
| Rcpsp.ActivitiesFirstError | domains/rcpsp/__init__.py:102-111 | the first job that fails decides the error of the loop |
| Rcpsp.ActivitiesAdvance | domains/rcpsp/__init__.py:103-111 | one more job either makes the whole loop fail with IndexError (no duration, no demand row, or a demand row longer than res) or appends its activity after those of the jobs before it |
| Rcpsp.AddJobActivity | domains/rcpsp/__init__.py:104-111 | one iteration appends `a{job}` with its duration and usages, or raises IndexError |
| Rcpsp.AddActivities | domains/rcpsp/__init__.py:102-111 | the second loop adds exactly the activities of `Activities` (or raises its error) and leaves the dictionary equal to `IndexMap(jobs)` |
| Rcpsp.SuccessorEdges | domains/rcpsp/__init__.py:114-117 | succeeds exactly when every successor is a key; then one precedence per successor, in order, from the job's handle to the successor's; otherwise KeyError of a missing successor |
| Rcpsp.SuccessorEdgesFirstError | domains/rcpsp/__init__.py:115-117 | the first missing successor decides the error |
| Rcpsp.Edges | domains/rcpsp/__init__.py:113-117 | succeeds exactly when every job and successor of the map is a key, then with one precedence per (job, successor) pair; otherwise KeyError of an id that is no key |
| Rcpsp.EdgesFirstError | domains/rcpsp/__init__.py:113-117 | the first failing item of the map decides the error |
| Rcpsp.SuccessorEdgesMembers | domains/rcpsp/__init__.py:115-117 | the edges of one job are exactly job -> successor for the successors it lists |
| Rcpsp.EdgesMembers | domains/rcpsp/__init__.py:113-117 | the edges are exactly one per (job, successor) pair of the map |
| Rcpsp.EdgeIffSuccessor | domains/rcpsp/__init__.py:113-117 | with distinct job ids, edge a -> b is added exactly when job a lists job b as a successor |
| Rcpsp.AddSuccessorEdges | domains/rcpsp/__init__.py:114-117 | the inner loop appends exactly the edges of `SuccessorEdges`, or raises its KeyError |
| Rcpsp.AddPrecedences | domains/rcpsp/__init__.py:113-117 | the third loop appends exactly the edges of `Edges`, or raises its KeyError |
| Rcpsp.Encode | domains/rcpsp/__init__.py:94-121 | `encode` returns exactly the problem `Encoding` describes, or raises the same error |
| Rcpsp.EncodingOk | domains/rcpsp/__init__.py:94-121 | encoding succeeds exactly when capacities cover the resources, every job fits and every id of the successor map is a job; the error is IndexError or the KeyError of an id that is no job |
| Rcpsp.EncodingShape | domains/rcpsp/__init__.py:95-119 | the problem is named "rcpsp", resource i is `r{res[i]}` with capacity i, activity i is `a{job}` with duration i, the precedence count is the number of (job, successor) pairs, and makespan is minimized |
| Rcpsp.EncodedUsage | domains/rcpsp/__init__.py:106-110 | with distinct resource ids, activity i uses resource k with amount d exactly when demand row i holds d != 0 at position k |
| Rcpsp.EncodedEdge | domains/rcpsp/__init__.py:113-117 | with distinct job ids, the problem holds a -> b exactly when job a lists job b as a successor |
| Rcpsp.EncodingWellFormed | domains/rcpsp/__init__.py:94-121 | every usage names an existing resource with a non-zero amount, and every precedence joins two existing activities |
| Rcpsp.JobNumbers | domains/rcpsp/__init__.py:111 | for jobs 1..n the activity dictionary's keys are exactly 1..n |
| Rcpsp.EncodeParsed | domains/rcpsp/__init__.py:94-121 | for a parsed file, encoding succeeds exactly when the availability row covers every resource, no demand row is longer than the resource list and every successor is a job number 1..njobs |
| JobShop.LineIntsWords | domains/jobshop/__init__.py:12-14 | `_ints` succeeds exactly when `int()` accepts every word of the line, then returns their values in order; otherwise the ValueError of a refused word |
| JobShop.LineIntsOfLine | domains/jobshop/__init__.py:12-14 | `_ints` reads back the integers of a printed line |
| JobShop.LineNotTitle | domains/jobshop/__init__.py:23-33 | a printed line of integers neither starts with a letter nor is alphabetic, so it is never skipped as a title |
| JobShop.ReadLines | domains/jobshop/__init__.py:20-33 | popping the header and the rows gives exactly `ReadInstance`, errors included |
| JobShop.PopRows | domains/jobshop/__init__.py:26-28 | one reading loop gives exactly `ReadRows`, with the lines left, or its error |
| JobShop.ReadRowsFirstError | domains/jobshop/__init__.py:26-28 | the first row that fails decides the error of the loop |
| JobShop.ReadRowsConsumes | domains/jobshop/__init__.py:26-33 | reading n rows yields n rows and consumes between n and 2n lines from the front |
| JobShop.ReadInstanceRows | domains/jobshop/__init__.py:25-33 | the instance read has num_jobs rows of times and num_jobs rows of machines |
| JobShop.TitleLines | domains/jobshop/__init__.py:27-28 | a row after one alphabetic title reads as if the title were absent; a title with nothing after it raises IndexError, and a second title is read as the row and refused by `int()` |
| JobShop.ReadLinesOfRows | domains/jobshop/__init__.py:26-33 | rows printed one per line read back as themselves, leaving the lines after them |
| JobShop.ReadHeaderOfLine | domains/jobshop/__init__.py:22-23 | a printed header line gives its first two values as the counts, ignores any further values, and leaves the lines after it |
| JobShop.ReadHeaderTitled | domains/jobshop/__init__.py:22-23 | a line starting with a letter before the header is skipped, and the header after it gives its first two values and the lines after it |
| JobShop.ReadRendered | domains/jobshop/__init__.py:20-33 | reading a rendered instance (one row per job in each matrix) gives the instance back |
| JobShop.ReadTitledRows | domains/jobshop/__init__.py:25-33 | rows printed one per line, each after an alphabetic title line, read back as themselves |
| JobShop.ReadRenderedTitled | domains/jobshop/__init__.py:20-33 | a file with a title before the header and an alphabetic title before every row reads the same as the file without them |
| JobShop.JobOperations | domains/jobshop/__init__.py:42-46 | the first count operations of a job are count activities |
| JobShop.MachineResources | domains/jobshop/__init__.py:36 | one resource per machine |
| JobShop.AddMachines | domains/jobshop/__init__.py:36 | the loop adds m1..m{count} with capacity 1, and machine i's handle is position i |
| JobShop.AddOperation | domains/jobshop/__init__.py:43-50 | one iteration fails exactly when the time, the machine number or its machine object is missing (IndexError); otherwise it appends the operation with its two usages and, after the first operation, the precedence from the previous one |
| JobShop.BuildJob | domains/jobshop/__init__.py:40-50 | the inner loop appends the job's operations and their chain, or fails with IndexError on an operation that does not fit |
| JobShop.BuildJobs | domains/jobshop/__init__.py:39-50 | the outer loop appends the operations and chains of all jobs in job order, or fails with IndexError |
| JobShop.BuildProblem | domains/jobshop/__init__.py:35-52 | the build phase returns exactly `Schedule`, errors included |
| JobShop.Parse | domains/jobshop/__init__.py:18-53 | `_parse` returns exactly `JobShopProblem`, errors included |
| JobShop.OperationsLength | domains/jobshop/__init__.py:39-43 | n jobs give n * num_mach activities |
| JobShop.MachineAt | domains/jobshop/__init__.py:36 | machine i is `m{i+1}` with capacity 1 |
| JobShop.ScheduleResources | domains/jobshop/__init__.py:35-37 | the problem is named after the stem and the operator count, has machines m1..m{num_mach} with capacity 1 then "operators" with capacity num_operators, and minimizes the makespan |
| JobShop.JobOperationAt | domains/jobshop/__init__.py:42-43 | operation m of a job comes at position m of the job's operations |
| JobShop.OperationAt | domains/jobshop/__init__.py:39-43 | position j * num_mach + m holds operation m of job j |
| JobShop.ScheduleActivities | domains/jobshop/__init__.py:43-46 | activity j * num_mach + m is `t_{j}_{m}` with duration `times[j][m]`, one unit of machine `machines[j][m]` (1-based, negative indices from the end) and one operator |
| JobShop.ChainMembers | domains/jobshop/__init__.py:48-50 | a job's chain links each operation to the next one and holds nothing else |
| JobShop.ChainLength | domains/jobshop/__init__.py:48-50 | a job of w operations has w - 1 precedences (none when w is 0) |
| JobShop.ChainsLength | domains/jobshop/__init__.py:39-50 | the chains of n jobs hold n * (num_mach - 1) precedences |
| JobShop.ChainsHaveLink | domains/jobshop/__init__.py:39-50 | every operation m >= 1 of a job follows operation m - 1 |
| JobShop.ChainsOnlyLinks | domains/jobshop/__init__.py:39-50 | every precedence joins two consecutive operations of one job |
| JobShop.ChainsMembers | domains/jobshop/__init__.py:39-50 | the precedences are exactly t_{j}_{m-1} before t_{j}_{m}, for every job j and operation m >= 1 |
| JobShop.ChainsBelow | domains/jobshop/__init__.py:39-50 | every precedence points forward to an activity of the jobs built so far |
| JobShop.OperationsUseResources | domains/jobshop/__init__.py:44-46 | every operation uses only the machines and the operator pool |
| JobShop.ScheduleWellFormed | domains/jobshop/__init__.py:35-52 | every usage names an existing resource and every precedence joins two existing activities |
| JobShop.ScheduleSize | domains/jobshop/__init__.py:39-50 | num_jobs * num_mach activities and num_jobs * (num_mach - 1) precedences |
| JobShop.OperationNamesDistinct | domains/jobshop/__init__.py:43 | `t_{j}_{m}` names differ exactly when (j, m) differ |
| JobShop.MachineNamesDistinct | domains/jobshop/__init__.py:36-37 | machine names differ exactly when the machines differ, and none is "operators" |
| JobShop.RenderedProblem | domains/jobshop/__init__.py:18-53 | `_parse` of a rendered instance builds that instance's schedule |

## Definitions

These functions define what the source computes. They carry no contract of their own: the rows
above state their properties, and the methods are proved equal to them.

- `Rcpsp.SuccsFromLine` models `succs_from_line` (domains/rcpsp/__init__.py:46-47); see `Rcpsp.SuccsFromLineSpec`.
- `Rcpsp.Capacities` models `ints(lines[caps_offset].split())` (domains/rcpsp/__init__.py:88); see `Rcpsp.CapacitiesSpec` and `Rcpsp.FilledCapacities`.
- `Rcpsp.Count` and `Rcpsp.FirstCount` model `int(rhs_part(...))` and `int(rhs_part(...).split()[0])` (domains/rcpsp/__init__.py:67-70); see `Rcpsp.CountOfField` and `Rcpsp.HeaderCounts`.
- `Rcpsp.ReadHeader` models the counts and offsets `PSPLIB_parser` reads first (domains/rcpsp/__init__.py:67-73); see `Rcpsp.HeaderCounts`, `Rcpsp.HeaderOffsets` and `Rcpsp.MissingAnchor`.
- `Rcpsp.Fill` models the field assignments (domains/rcpsp/__init__.py:76-88); see the `Rcpsp.Filled*` rows.
- `Rcpsp.Parse` models `PSPLIB_parser` (domains/rcpsp/__init__.py:56-90); see `Rcpsp.PsplibParser`.
- `Rcpsp.Encoding` models `encode` (domains/rcpsp/__init__.py:94-121); see `Rcpsp.Encode` and the `Rcpsp.Encoding*`/`Rcpsp.Encoded*` rows.
- `JobShop.LineInts` models `_ints` (domains/jobshop/__init__.py:12-14); see `JobShop.LineIntsWords` and `JobShop.LineIntsOfLine`.
- `JobShop.ReadHeader` models the header read (domains/jobshop/__init__.py:22-23); see `JobShop.ReadHeaderOfLine` and `JobShop.ReadHeaderTitled`.
- `JobShop.ReadRow` models one row read (domains/jobshop/__init__.py:27-28, 32-33); see `JobShop.TitleLines`.
- `JobShop.ReadInstance` models the read phase of `_parse` (domains/jobshop/__init__.py:20-33); see `JobShop.ReadLines`, `JobShop.ReadRendered` and `JobShop.ReadRenderedTitled`.
- `JobShop.Schedule` models the build phase of `_parse` (domains/jobshop/__init__.py:35-53); see `JobShop.BuildProblem` and the `JobShop.Schedule*` rows.
- `JobShop.JobShopProblem` models `_parse` as a whole; see `JobShop.Parse`.

`Rcpsp.Line` is `lines[i]` of a list of lines, and `JobShop.PrintedLine` is a row of integers
printed as one line. `Rcpsp.ReadHeader` and `JobShop.ReadHeader` read the headers of the two
different file formats.

## Left out

- File access is not modelled. `open(...).readlines()`, `read_text().splitlines()` and `filepath.stem` become parameters: the list of lines and the stem.
- The `SchedulingProblem`, `Activity` and expression classes of the planning library are replaced by the value record `Scheduling.SchedulingProblem`. Handles are positions, and `LE(a.end, b.start)` is a `Precedence(a, b)`.
- `encode` attaches each precedence to its activity (`act.add_constraint`), while `_parse` adds it to the problem (`pb.add_constraint`). The record keeps both kinds in one list, `precedences`, so the model does not say which object holds a constraint.
- `act.uses(machine)` with no amount is modelled as amount 1, the library's default.
- The `AbstractDomain` subclasses are not modelled: instance counting, `build_problem_base` and the folder listing, in both files. `FOLDER` and `OPERATORS` are outside the readers.
- Builtins.ParseInt: `int()` is restricted to ASCII digits with an optional sign and surrounding whitespace. Underscore separators and non-ASCII digits, which Python also accepts, are refused.
- Builtins.IsLetter: `str.isalpha` is restricted to ASCII letters. A title line with non-ASCII letters is not skipped in the model.
- The horizon is stored by the RCPSP parser but never used by `encode`, so nothing is proved about it beyond its being stored.
- Builtins.ParseInt: CPython's limit on converting between int and str (by default 4300 decimal digits, `sys.get_int_max_str_digits()`) is not modelled. `int()` of a longer literal raises ValueError in CPython, while the model accepts literals of any length.
- Builtins.IntToString: the same limit is not modelled. `str(i)` and the f-strings `r{x}`, `a{job}`, `m{i+1}`, `t_{j}_{m}` and the problem name raise ValueError in CPython for an integer of more than 4300 digits, while the model prints integers of any length.
- Builtins.ParseIntOfIntToString: `int(str(i)) == i` is proved for every integer. In CPython it holds only for integers of at most 4300 digits, because of the conversion limit.
- Fixed-width overflow does not arise: Python integers are unbounded, and so are Dafny's. Apart from the conversion limit above, the model puts no bound on the integers read or printed.
