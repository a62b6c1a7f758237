/**
 * The plate CSV dialect, over rows of fields rather than files.
 *
 * A plate is written as a header row holding its geometry and name, then one
 * row per well in well order: index, label, project name, sample name and
 * number, with EMPTY / EMPTY / - for an empty well. Reading goes through the
 * rows one by one: a row whose first field is "Index" starts a new plate;
 * every other row fills one well of the newest plate. Projects are looked up
 * by name among the projects on the plates read so far and created, with
 * the next colour of the palette, when no such project exists.
 *
 * The reader is stated here on values: a project is known by its position
 * in the list of projects created so far, which stands for its identity.
 */
module PlateCsv {
  import opened Wrappers
  import opened PlateExceptions
  import opened PySeq
  import opened Decimal
  import opened Addressing

  /** `color_list`: the colours handed out to new projects, round robin. */
  const ColorList: seq<string> := ["red", "orange", "yellow", "green", "purple", "cyan", "magenta", "brown"]

  /** The first field of a header row. */
  const HeaderMark: string := "Index"

  /** The project and sample fields of an empty well. */
  const EmptyMark: string := "EMPTY"

  /** The number field of an empty well. */
  const NoNumber: string := "-"

  /** The name of a plate whose header row has no name field. */
  const DefaultName: string := "Unnamed Plate"

  /** What one well holds, as far as the file records it. */
  datatype Cell = Cell(project: string, sample: string, number: Option<int>)

  /** A well label with what it holds (None for an empty well). */
  datatype Entry = Entry(well: string, content: Option<Cell>)

  /** A plate as the file records it: geometry, name and its wells in well order. */
  datatype Snapshot = Snapshot(name: string, rows: int, columns: int, vertical: bool, entries: seq<Entry>)

  // ---------------------------------------------------------------- writing

  /** `str(b)` for a bool. */
  function BoolText(b: bool): string {
    if b then "True" else "False"
  }

  /** The header row of a plate: column titles, then rows, columns, orientation and name. */
  function HeaderRow(s: Snapshot): (row: seq<string>)
    ensures |row| == 9 && row[0] == HeaderMark
  {
    ["Index", "Position", "Project", "Sample", "Number",
     IntToString(s.rows), IntToString(s.columns), BoolText(s.vertical), s.name]
  }

  /** The number field: `str(n)`, and the empty field the csv writer makes of None. */
  function NumberText(n: Option<int>): string {
    if n.None? then "" else IntToString(n.value)
  }

  /** The row of the well at place `idx`; never mistaken for a header row. */
  function WellRow(idx: nat, e: Entry): (row: seq<string>)
    ensures |row| == 5 && row[0] != HeaderMark && row[1] == e.well
  {
    assert NatToString(idx)[0] != HeaderMark[0];
    match e.content
    case None => [NatToString(idx), e.well, EmptyMark, EmptyMark, NoNumber]
    case Some(c) => [NatToString(idx), e.well, c.project, c.sample, NumberText(c.number)]
  }

  /** The well rows of a plate, numbered from 0. */
  function WellRows(entries: seq<Entry>): seq<seq<string>> {
    seq(|entries|, k requires 0 <= k < |entries| => WellRow(k, entries[k]))
  }

  /** `outputCSV`: the header row, then one row per well. */
  function PlateRows(s: Snapshot): (rows: seq<seq<string>>)
    ensures |rows| == |s.entries| + 1 && rows[0] == HeaderRow(s)
  {
    [HeaderRow(s)] + WellRows(s.entries)
  }

  /** Row `k + 1` of a plate's rows is the row of its `k`-th well, numbered `k`. */
  lemma PlateRowsEntry(s: Snapshot, k: nat)
    requires k < |s.entries|
    ensures PlateRows(s)[k + 1] == WellRow(k, s.entries[k])
  {
  }

  /** The rows of several plates, one after the other. */
  function WriteAll(snaps: seq<Snapshot>): (rows: seq<seq<string>>)
    ensures |snaps| > 0 ==> |rows| > 0 && rows[0] == HeaderRow(snaps[0])
    decreases |snaps|
  {
    if |snaps| == 0 then []
    else WriteAll(snaps[..|snaps| - 1]) + PlateRows(snaps[|snaps| - 1])
  }

  // ---------------------------------------------------------------- reading

  /** A sample created while reading: the project it belongs to (by id), its name and number. */
  datatype LoadedSample = LoadedSample(project: nat, name: string, number: Option<int>)

  /** A project created while reading, with the samples added to it in order. */
  datatype ProjectRec = ProjectRec(name: string, color: string, samples: seq<LoadedSample>)

  /** A plate created while reading: its geometry, well order and label -> content map. */
  datatype PlateRec = PlateRec(name: string, rows: int, columns: int, vertical: bool,
                               order: seq<string>, data: map<string, Option<LoadedSample>>)

  /** Everything read so far: the projects in order of creation and the plates in file order. */
  datatype LoadState = LoadState(projects: seq<ProjectRec>, plates: seq<PlateRec>)

  /** A new plate: every well of the well order empty. */
  function NewPlateRec(name: string, rows: int, columns: int, vertical: bool): (p: PlateRec)
    ensures p.order == WellOrder(rows, columns, vertical)
    ensures forall l :: l in p.data <==> l in p.order
    ensures forall l :: l in p.data ==> p.data[l].None?
  {
    var order := WellOrder(rows, columns, vertical);
    PlateRec(name, rows, columns, vertical, order, map l | l in order :: None)
  }

  /**
   * `getNRCV`: the name is field 8 when there is one and "Unnamed Plate"
   * otherwise; rows and columns are fields 5 and 6 read as integers; the
   * plate is horizontal only when field 7 is exactly "False". A missing field
   * is an IndexError and a field that is not an integer a ValueError, checked
   * in the order the fields are read.
   */
  function ParseHeader(line: seq<string>): (r: Result<PlateRec, PlateError>)
    ensures r.Ok? <==> |line| > 7 && ParseInt(line[5]).Some? && ParseInt(line[6]).Some?
    ensures r.Ok? ==> r.value.name == (if |line| > 8 then line[8] else DefaultName)
    ensures r.Ok? ==> (r.value.vertical <==> line[7] != "False")
    ensures r.Ok? ==> ParseInt(line[5]) == Some(r.value.rows) && ParseInt(line[6]) == Some(r.value.columns)
    ensures r.Ok? ==> forall l :: l in r.value.data ==> r.value.data[l].None?
    ensures |line| <= 5 ==> r == Err(IndexError)
    ensures |line| > 5 && ParseInt(line[5]).None? ==> r == Err(ValueError)
    ensures |line| == 6 && ParseInt(line[5]).Some? ==> r == Err(IndexError)
    ensures |line| > 6 && ParseInt(line[5]).Some? && ParseInt(line[6]).None? ==> r == Err(ValueError)
  {
    var name := if |line| > 8 then line[8] else DefaultName;
    if |line| <= 5 then Err(IndexError)
    else if ParseInt(line[5]).None? then Err(ValueError)
    else if |line| <= 6 then Err(IndexError)
    else if ParseInt(line[6]).None? then Err(ValueError)
    else if |line| <= 7 then Err(IndexError)
    else Ok(NewPlateRec(name, ParseInt(line[5]).value, ParseInt(line[6]).value, line[7] != "False"))
  }

  /** `{proj for plate in plates for proj in plate.projects}`: the projects of the samples on the plates. */
  function Visible(plates: seq<PlateRec>): (v: set<nat>)
    ensures |plates| == 0 ==> v == {}
  {
    set j, l | 0 <= j < |plates| && l in plates[j].data && plates[j].data[l].Some? :: plates[j].data[l].value.project
  }

  /** A project id is among those on the plates exactly when some well of some plate holds one of its samples. */
  lemma VisibleMembers(plates: seq<PlateRec>, x: nat)
    ensures x in Visible(plates) <==>
      exists j, l :: 0 <= j < |plates| && l in plates[j].data && plates[j].data[l].Some? &&
        plates[j].data[l].value.project == x
  {
  }

  /**
   * `findProject`: a project on the plates read so far with the given name.
   * Python walks a set, in no fixed order; this looks at the ids in
   * increasing order, which makes no difference while the names of those
   * projects are unique (FindProjectIsTheOnly, LoadRowsInvariants).
   */
  function FindProject(projects: seq<ProjectRec>, visible: set<nat>, name: string): (r: Option<nat>)
    ensures r.Some? ==> r.value in visible && r.value < |projects| && projects[r.value].name == name
    ensures r.None? ==> forall p :: p in visible && p < |projects| ==> projects[p].name != name
  {
    FindFrom(projects, visible, name, 0)
  }

  function FindFrom(projects: seq<ProjectRec>, visible: set<nat>, name: string, i: nat): (r: Option<nat>)
    ensures r.Some? ==> i <= r.value < |projects| && r.value in visible && projects[r.value].name == name
    ensures r.None? ==> forall p :: i <= p < |projects| && p in visible ==> projects[p].name != name
    decreases |projects| - i
  {
    if i >= |projects| then None
    else if i in visible && projects[i].name == name then Some(i)
    else FindFrom(projects, visible, name, i + 1)
  }

  /**
   * The projects once a well row naming `projectName` is read: as they were
   * when a project on the plates read so far has that name, else with a new
   * project of that name, no samples and the next colour.
   */
  function ProjectsFor(st: LoadState, projectName: string): (projects: seq<ProjectRec>)
    ensures st.projects <= projects && |projects| <= |st.projects| + 1
  {
    var visible := Visible(st.plates);
    if FindProject(st.projects, visible, projectName).Some? then st.projects
    else st.projects + [ProjectRec(projectName, ColorList[|visible| % |ColorList|], [])]
  }

  /** The id of the project a well row naming `projectName` goes to: the one found, or the new one. */
  function ProjectIdFor(st: LoadState, projectName: string): (pid: nat)
    ensures pid < |ProjectsFor(st, projectName)|
  {
    var found := FindProject(st.projects, Visible(st.plates), projectName);
    if found.Some? then found.value else |st.projects|
  }

  /**
   * Placing a sample read from a well row: the sample is added to the
   * project ProjectsFor and ProjectIdFor choose (numbered with the new sample
   * count when it has no number) and stored in the well, which must be a
   * well of the newest plate.
   */
  function Place(st: LoadState, well: string, projectName: string, sampleName: string, number: Option<int>)
    : (r: Result<LoadState, PlateError>)
    requires |st.plates| > 0
    ensures r.Ok? <==> well in st.plates[|st.plates| - 1].data
    ensures r.Err? ==> r.error == KeyError
  {
    var projects := ProjectsFor(st, projectName);
    var pid := ProjectIdFor(st, projectName);
    var sample := LoadedSample(pid, sampleName,
                               if number.None? then Some(|projects[pid].samples| + 1) else number);
    var n := |st.plates| - 1;
    var plate := st.plates[n];
    if well !in plate.data then Err(KeyError)
    else Ok(LoadState(projects[pid := projects[pid].(samples := projects[pid].samples + [sample])],
                      st.plates[n := plate.(data := plate.data[well := Some(sample)])]))
  }

  /** The number field of a well row: parsed when present and not "-"; None otherwise. */
  function NumberField(line: seq<string>): (r: Option<int>)
    ensures (|line| <= 4 || line[4] == NoNumber) ==> r.None?
    ensures r.Some? ==> ParseInt(line[4]) == r
    ensures |line| > 4 && line[4] != NoNumber && ParseInt(line[4]).Some? ==> r.Some?
  {
    if |line| > 4 && line[4] != NoNumber then ParseInt(line[4]) else None
  }

  /**
   * One row of the loop in `loadFromFile`. An empty row has no field 0 and
   * a well row fewer than four fields: both IndexError. A number field that
   * is not an integer is a ValueError. A well row naming EMPTY as project or
   * sample leaves everything as it is.
   */
  function LoadLine(st: LoadState, line: seq<string>): (r: Result<LoadState, PlateError>)
    requires |st.plates| > 0
    ensures r.Ok? ==> |r.value.plates| > 0
    ensures |line| > 0 && line[0] == HeaderMark && r.Ok? ==> |r.value.plates| == |st.plates| + 1
    ensures !(|line| > 0 && line[0] == HeaderMark) && r.Ok? ==> |r.value.plates| == |st.plates|
  {
    if |line| == 0 then Err(IndexError)
    else if line[0] == HeaderMark then
      match ParseHeader(line)
      case Err(e) => Err(e)
      case Ok(p) => Ok(st.(plates := st.plates + [p]))
    else if |line| < 4 then Err(IndexError)
    else if |line| > 4 && line[4] != NoNumber && ParseInt(line[4]).None? then Err(ValueError)
    else if line[3] == EmptyMark || line[2] == EmptyMark then Ok(st)
    else Place(st, line[1], line[2], line[3], NumberField(line))
  }

  /** The rows `lines` read one after the other from `r`, stopping at the first error. */
  function Continue(r: Result<LoadState, PlateError>, lines: seq<seq<string>>): (out: Result<LoadState, PlateError>)
    requires r.Ok? ==> |r.value.plates| > 0
    ensures out.Ok? ==> |out.value.plates| > 0
    ensures r.Err? ==> out == r
    decreases |lines|
  {
    if |lines| == 0 then r
    else match Continue(r, lines[..|lines| - 1])
      case Err(e) => Err(e)
      case Ok(st) => LoadLine(st, lines[|lines| - 1])
  }

  /** `loadFromFile` on the rows of a file: the first row is read as a header whatever it says. */
  function LoadRows(rows: seq<seq<string>>): (r: Result<LoadState, PlateError>)
    ensures |rows| == 0 ==> r == Err(IndexError)
    ensures r.Ok? ==> |r.value.plates| > 0
  {
    if |rows| == 0 then Err(IndexError)
    else match ParseHeader(rows[0])
      case Err(e) => Err(e)
      case Ok(p) => Continue(Ok(LoadState([], [p])), rows[1..])
  }

  // ---------------------------------------------------------------- views

  /** What a loaded well holds, with its project's name. */
  function CellOf(projects: seq<ProjectRec>, v: Option<LoadedSample>): Option<Cell> {
    match v
    case None => None
    case Some(s) => Some(Cell(if s.project < |projects| then projects[s.project].name else "", s.name, s.number))
  }

  /** A loaded plate as the file would record it. */
  function ViewOf(projects: seq<ProjectRec>, p: PlateRec): Snapshot {
    Snapshot(p.name, p.rows, p.columns, p.vertical,
             seq(|p.order|, k requires 0 <= k < |p.order| =>
               Entry(p.order[k], if p.order[k] in p.data then CellOf(projects, p.data[p.order[k]]) else None)))
  }

  // ---------------------------------------------------------------- invariants

  /** Every loaded sample belongs to a project that exists. */
  predicate ProjectsKnown(st: LoadState) {
    forall j, l :: 0 <= j < |st.plates| && l in st.plates[j].data && st.plates[j].data[l].Some? ==>
      st.plates[j].data[l].value.project < |st.projects|
  }

  /** No two projects on the plates read so far share a name. */
  predicate NamesUnique(st: LoadState) {
    forall p, q ::
      (p in Visible(st.plates) && q in Visible(st.plates) && p < |st.projects| && q < |st.projects| &&
       st.projects[p].name == st.projects[q].name) ==> p == q
  }

  /** `st2` only adds projects after those of `st1` and keeps their names. */
  predicate Extends(st1: LoadState, st2: LoadState) {
    |st1.projects| <= |st2.projects| &&
    forall p :: 0 <= p < |st1.projects| ==> st2.projects[p].name == st1.projects[p].name
  }

  /** The newest plate, the one well rows fill. */
  function Last(st: LoadState): PlateRec
    requires |st.plates| > 0
  {
    st.plates[|st.plates| - 1]
  }

  /**
   * A well content that survives being written and read back: a number is
   * present (an empty number field does not parse) and neither name is EMPTY
   * (which reads back as an empty well).
   */
  predicate Storable(c: Option<Cell>) {
    c.Some? ==> c.value.project != EmptyMark && c.value.sample != EmptyMark && c.value.number.Some?
  }

  /** A snapshot of a plate: its wells are the well order of its geometry, and each content is storable. */
  predicate Writable(s: Snapshot) {
    var order := WellOrder(s.rows, s.columns, s.vertical);
    |s.entries| == |order| &&
    forall k :: 0 <= k < |s.entries| ==> s.entries[k].well == order[k] && Storable(s.entries[k].content)
  }
}
