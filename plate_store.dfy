/**
 * The CSV dialect on live objects: outputCSV and saveToFile walk Plate
 * objects and produce the rows PlateCsv describes, and loadFromFile builds
 * Plate, Project and Sample objects that stand for the state PlateCsv
 * computes (Represents), so the value-level round trip carries over to
 * objects (SaveAndReload).
 */
module PlateStore {
  import opened Wrappers
  import opened PlateExceptions
  import opened PySeq
  import opened Decimal
  import opened Addressing
  import opened Registry
  import opened Plates
  import opened PlateCsv
  import opened CsvProperties

  // ---------------------------------------------------------------- writing

  /** What the well `well` of `plate` holds: project name, sample name and number. */
  function CellAt(plate: Plate, well: string): Option<Cell>
    reads plate, plate.data.Values
  {
    if well in plate.data && plate.data[well] != null then
      var s := plate.data[well];
      Some(Cell(s.project.name, s.name, s.number))
    else None
  }

  /** A plate as the writer sees it: its geometry and name, and what each well holds, in well order. */
  function SnapshotOf(plate: Plate): Snapshot
    reads plate, plate.data.Values
  {
    Snapshot(plate.name, plate.rows, plate.columns, plate.vertical,
             seq(|plate.wellOrder|, k requires 0 <= k < |plate.wellOrder| reads plate, plate.data.Values =>
               Entry(plate.wellOrder[k], CellAt(plate, plate.wellOrder[k]))))
  }

  /**
   * `outputCSV`: the header row with the geometry and the name, then one row
   * per well in the order of `data` (the well order), counted from 0. An
   * empty well is written EMPTY, EMPTY, "-"; a sample without a number gets
   * the empty field the csv writer makes of None.
   */
  method OutputCsv(plate: Plate) returns (rows: seq<seq<string>>)
    requires plate.Valid()
    ensures rows == PlateRows(SnapshotOf(plate))
  {
    ghost var s := SnapshotOf(plate);
    rows := [["Index", "Position", "Project", "Sample", "Number",
              IntToString(plate.rows), IntToString(plate.columns), BoolText(plate.vertical), plate.name]];
    var idx := 0;
    while idx < |plate.wellOrder|
      invariant idx <= |plate.wellOrder|
      invariant rows == [HeaderRow(s)] + WellRows(s.entries)[..idx]
    {
      var well := plate.wellOrder[idx];
      var sample := plate.data[well];
      var row;
      if sample == null {
        row := [NatToString(idx), well, EmptyMark, EmptyMark, NoNumber];
      } else {
        row := [NatToString(idx), well, sample.project.name, sample.name, NumberText(sample.number)];
      }
      assert s.entries[idx] == Entry(well, CellAt(plate, well));
      assert row == WellRow(idx, s.entries[idx]);
      WellRowsOneMore(s.entries, idx);
      rows := rows + [row];
      idx := idx + 1;
    }
    assert WellRows(s.entries)[..idx] == WellRows(s.entries);
  }

  /** The first `idx + 1` well rows: the first `idx`, then the row of entry `idx`. */
  lemma WellRowsOneMore(entries: seq<Entry>, idx: nat)
    requires idx < |entries|
    ensures WellRows(entries)[..idx + 1] == WellRows(entries)[..idx] + [WellRow(idx, entries[idx])]
  {
  }

  /** The rows of the first `j + 1` snapshots: those of the first `j`, then those of snapshot `j`. */
  lemma WriteOneMore(snaps: seq<Snapshot>, j: nat, plateRows: seq<seq<string>>)
    requires j < |snaps| && plateRows == PlateRows(snaps[j])
    ensures WriteAll(snaps[..j + 1]) == WriteAll(snaps[..j]) + plateRows
  {
    assert snaps[..j + 1][..j] == snaps[..j];
  }

  /** `saveToFile` without the file: the rows of every plate, one plate after the other. */
  method SaveToFile(plates: seq<Plate>) returns (rows: seq<seq<string>>, ghost snaps: seq<Snapshot>)
    requires forall j :: 0 <= j < |plates| ==> plates[j].Valid()
    ensures |snaps| == |plates| && forall j :: 0 <= j < |plates| ==> snaps[j] == SnapshotOf(plates[j])
    ensures rows == WriteAll(snaps)
  {
    snaps := seq(|plates|, j requires 0 <= j < |plates| reads plates, PlateSamples(plates) => SnapshotOf(plates[j]));
    rows := [];
    for j := 0 to |plates|
      invariant rows == WriteAll(snaps[..j])
    {
      var plateRows := OutputCsv(plates[j]);
      WriteOneMore(snaps, j, plateRows);
      rows := rows + plateRows;
    }
    assert snaps[..|plates|] == snaps;
  }

  // ---------------------------------------------------------------- reading

  /** A sample object stands for a loaded sample: its project is the one with that id, same name and number. */
  ghost predicate Matches(s: Sample, x: LoadedSample, projs: seq<Project>)
    reads s
  {
    x.project < |projs| && s.project == projs[x.project] && s.name == x.name && s.number == x.number
  }

  /** A plate object stands for a loaded plate: same geometry and well order, and matching samples in the same wells. */
  ghost predicate PlateMatches(plate: Plate, p: PlateRec, projs: seq<Project>)
    reads plate, plate.data.Values
  {
    plate.Valid() && plate.name == p.name && plate.rows == p.rows && plate.columns == p.columns &&
    plate.vertical == p.vertical && plate.wellOrder == p.order && WellsMatch(plate.data, p, projs)
  }

  /** The wells `data` of a plate object hold samples matching the loaded samples in the wells of `p`. */
  ghost predicate WellsMatch(data: map<string, Sample?>, p: PlateRec, projs: seq<Project>)
    reads data.Values
  {
    data.Keys == p.data.Keys &&
    forall l :: l in data ==>
      (data[l] == null <==> p.data[l].None?) &&
      (data[l] != null ==> Matches(data[l], p.data[l].value, projs))
  }

  /** A project object stands for a loaded project: same name and colour, and matching samples in the same order. */
  ghost predicate ProjectMatches(project: Project, r: ProjectRec, projs: seq<Project>)
    reads project, project.samples
  {
    project.name == r.name && project.color == Some(r.color) && |project.samples| == |r.samples| &&
    forall k :: 0 <= k < |r.samples| ==> Matches(project.samples[k], r.samples[k], projs)
  }

  /** The contents of the wells of `plates`. */
  ghost function PlateSamples(plates: seq<Plate>): (r: set<Sample?>)
    reads plates
    ensures forall j :: 0 <= j < |plates| ==> plates[j].data.Values <= r
  {
    set j, s | 0 <= j < |plates| && s in plates[j].data.Values :: s
  }

  /** The samples in the lists of `projs`. */
  ghost function ProjectSamples(projs: seq<Project>): (r: set<Sample>)
    reads projs
    ensures forall i, s :: 0 <= i < |projs| && s in projs[i].samples ==> s in r
  {
    set i, s | 0 <= i < |projs| && s in projs[i].samples :: s
  }

  /** Plate object `j` stands for loaded plate `j`. */
  ghost predicate PlatesMatch(recs: seq<PlateRec>, plates: seq<Plate>, projs: seq<Project>)
    reads plates, PlateSamples(plates)
  {
    |plates| == |recs| && forall j :: 0 <= j < |plates| ==> PlateMatches(plates[j], recs[j], projs)
  }

  /** Project object `i` stands for loaded project `i`, and no object stands for two ids. */
  ghost predicate ProjectsMatch(recs: seq<ProjectRec>, projs: seq<Project>)
    reads projs, ProjectSamples(projs)
  {
    |projs| == |recs| && Distinct(projs) && forall i :: 0 <= i < |projs| ==> ProjectMatches(projs[i], recs[i], projs)
  }

  /**
   * The objects `plates` and `projs` (the projects in order of creation)
   * stand for the loaded state `st`: project id `i` is the object `projs[i]`.
   */
  ghost predicate Represents(st: LoadState, plates: seq<Plate>, projs: seq<Project>)
    reads plates, projs, PlateSamples(plates), ProjectSamples(projs)
  {
    PlatesMatch(st.plates, plates, projs) && ProjectsMatch(st.projects, projs)
  }

  /** `{proj for plate in plates for proj in plate.projects}`. */
  function ProjectsOnPlates(plates: seq<Plate>): set<Project>
    reads plates
  {
    set j, p | 0 <= j < |plates| && p in plates[j].Projects() :: p
  }

  /** The projects of the samples in the wells of `plates`. */
  ghost function OwnersOnPlates(plates: seq<Plate>): set<Project>
    reads plates
  {
    set j, l | 0 <= j < |plates| && l in plates[j].data && plates[j].data[l] != null :: plates[j].data[l].project
  }

  /** On valid plates, the projects of the plates are the projects of the samples in their wells. */
  lemma OnPlatesAreOwners(plates: seq<Plate>)
    requires forall j :: 0 <= j < |plates| ==> plates[j].Valid()
    ensures ProjectsOnPlates(plates) == OwnersOnPlates(plates)
  {
    forall p | p in ProjectsOnPlates(plates) ensures p in OwnersOnPlates(plates) {
      var j :| 0 <= j < |plates| && p in plates[j].Projects();
      OnPlateIff(plates[j], p);
    }
    forall p | p in OwnersOnPlates(plates) ensures p in ProjectsOnPlates(plates) {
      var j, l :| 0 <= j < |plates| && l in plates[j].data && plates[j].data[l] != null && plates[j].data[l].project == p;
      OnPlateIff(plates[j], p);
    }
  }

  /** `len({proj for plate in plates for proj in plate.projects})`. */
  method CountProjects(plates: seq<Plate>) returns (n: nat)
    requires forall j :: 0 <= j < |plates| ==> plates[j].Valid()
    ensures n == |OwnersOnPlates(plates)|
  {
    OnPlatesAreOwners(plates);
    n := |ProjectsOnPlates(plates)|;
  }

  /** The project objects with the ids in `v`. */
  ghost function ObjectsOf(v: set<nat>, projs: seq<Project>): set<Project> {
    set i | i in v && i < |projs| :: projs[i]
  }

  /**
   * `findProject`: walks the projects on the plates, in whatever order the
   * set yields them, and returns one with the name, or None.
   */
  method FindProjectNamed(plates: seq<Plate>, name: string) returns (found: Project?)
    requires forall j :: 0 <= j < |plates| ==> plates[j].Valid()
    ensures found != null ==> found in OwnersOnPlates(plates) && found.name == name
    ensures found == null ==> forall p :: p in OwnersOnPlates(plates) ==> p.name != name
  {
    OnPlatesAreOwners(plates);
    found := FindIn(ProjectsOnPlates(plates), name);
  }

  /** The loop of `findProject`: takes the projects of `all` one at a time until one has the name. */
  method FindIn(all: set<Project>, name: string) returns (found: Project?)
    ensures found != null ==> found in all && found.name == name
    ensures found == null ==> forall p :: p in all ==> p.name != name
  {
    var left := all;
    while left != {}
      invariant left <= all
      invariant forall p :: p in all && p !in left ==> p.name != name
      decreases left
    {
      var project :| project in left;
      if project.name == name {
        return project;
      }
      left := left - {project};
    }
    return null;
  }

  /** A project is among a plate's projects exactly when some well holds one of its samples. */
  lemma OnPlateIff(plate: Plate, p: Project)
    requires plate.Valid()
    ensures p in plate.Projects() <==> exists l :: l in plate.data && plate.data[l] != null && plate.data[l].project == p
  {
    if p in plate.Projects() {
      var samples := plate.GetSamples();
      var owners := Owners(samples);
      var m :| 0 <= m < |owners| && owners[m] == p;
      var i := plate.UsedIndices()[m];
      assert plate.Held(i) == samples[m];
      var l := plate.wellOrder[i];
      assert l in plate.data && plate.data[l] == samples[m];
    }
    if exists l :: l in plate.data && plate.data[l] != null && plate.data[l].project == p {
      var l :| l in plate.data && plate.data[l] != null && plate.data[l].project == p;
      assert l in set l' | l' in plate.wellOrder;
      var i :| 0 <= i < |plate.wellOrder| && plate.wellOrder[i] == l;
      ProjectsComplete(plate, i);
    }
  }

  /** The projects on the plate objects are the objects of the ids on the loaded plates. */
  lemma OnPlatesAreVisible(st: LoadState, plates: seq<Plate>, projs: seq<Project>)
    requires Represents(st, plates, projs)
    ensures OwnersOnPlates(plates) == ObjectsOf(Visible(st.plates), projs)
  {
    OwnersAreVisible(st, plates, projs);
    VisibleAreOwners(st, plates, projs);
  }

  lemma OwnersAreVisible(st: LoadState, plates: seq<Plate>, projs: seq<Project>)
    requires Represents(st, plates, projs)
    ensures OwnersOnPlates(plates) <= ObjectsOf(Visible(st.plates), projs)
  {
    forall p | p in OwnersOnPlates(plates) ensures p in ObjectsOf(Visible(st.plates), projs) {
      var j, l :| 0 <= j < |plates| && l in plates[j].data && plates[j].data[l] != null && plates[j].data[l].project == p;
      assert PlateMatches(plates[j], st.plates[j], projs);
      var x := st.plates[j].data[l].value;
      assert x.project in Visible(st.plates);
    }
  }

  lemma VisibleAreOwners(st: LoadState, plates: seq<Plate>, projs: seq<Project>)
    requires Represents(st, plates, projs)
    ensures ObjectsOf(Visible(st.plates), projs) <= OwnersOnPlates(plates)
  {
    forall p | p in ObjectsOf(Visible(st.plates), projs) ensures p in OwnersOnPlates(plates) {
      var i :| i in Visible(st.plates) && i < |projs| && projs[i] == p;
      var j, l :| 0 <= j < |st.plates| && l in st.plates[j].data && st.plates[j].data[l].Some? &&
                  st.plates[j].data[l].value.project == i;
      assert PlateMatches(plates[j], st.plates[j], projs);
    }
  }

  /** Distinct objects: as many project objects as ids. */
  lemma {:induction false} ObjectsOfSize(v: set<nat>, projs: seq<Project>)
    requires Distinct(projs) && forall i :: i in v ==> i < |projs|
    ensures |ObjectsOf(v, projs)| == |v|
    decreases v
  {
    if v != {} {
      var i :| i in v;
      ObjectsOfSize(v - {i}, projs);
      assert ObjectsOf(v, projs) == ObjectsOf(v - {i}, projs) + {projs[i]};
      assert projs[i] !in ObjectsOf(v - {i}, projs);
    }
  }

  /** When no project on the plate objects has the name, no project id on the loaded plates has it. */
  lemma NoneFound(st: LoadState, plates: seq<Plate>, projs: seq<Project>, name: string)
    requires Represents(st, plates, projs)
    requires forall p :: p in OwnersOnPlates(plates) ==> p.name != name
    ensures FindProject(st.projects, Visible(st.plates), name).None?
  {
    OnPlatesAreVisible(st, plates, projs);
    forall i | i in Visible(st.plates) && i < |st.projects| ensures st.projects[i].name != name {
      assert projs[i] in ObjectsOf(Visible(st.plates), projs);
      assert ProjectMatches(projs[i], st.projects[i], projs);
    }
  }

  /** A project object found by name is the object of the id FindProject finds, while names are unique. */
  lemma FoundIsFound(st: LoadState, plates: seq<Plate>, projs: seq<Project>, name: string, project: Project)
    returns (pid: nat)
    requires Represents(st, plates, projs) && NamesUnique(st)
    requires project in OwnersOnPlates(plates) && project.name == name
    ensures FindProject(st.projects, Visible(st.plates), name) == Some(pid)
    ensures pid < |projs| && projs[pid] == project
  {
    OnPlatesAreVisible(st, plates, projs);
    pid :| pid in Visible(st.plates) && pid < |projs| && projs[pid] == project;
    assert ProjectMatches(projs[pid], st.projects[pid], projs);
    FindProjectIsTheOnly(st, name, pid);
  }

  lemma MatchesExtend(s: Sample, x: LoadedSample, projs: seq<Project>, projs': seq<Project>)
    requires Matches(s, x, projs) && projs <= projs'
    ensures Matches(s, x, projs')
  {
  }

  lemma PlateMatchesExtend(plate: Plate, p: PlateRec, projs: seq<Project>, projs': seq<Project>)
    requires PlateMatches(plate, p, projs) && projs <= projs'
    ensures PlateMatches(plate, p, projs')
  {
    forall l | l in plate.data && plate.data[l] != null ensures Matches(plate.data[l], p.data[l].value, projs') {
      MatchesExtend(plate.data[l], p.data[l].value, projs, projs');
    }
  }

  /** A new project object with no samples stands for a new project record with none. */
  lemma NewProjectKeeps(st: LoadState, plates: seq<Plate>, projs: seq<Project>, project: Project, rec: ProjectRec)
    requires Represents(st, plates, projs) && project !in projs
    requires project.name == rec.name && project.color == Some(rec.color) && project.samples == [] && rec.samples == []
    ensures PlatesMatch(st.plates, plates, projs + [project]) && ProjectsMatch(st.projects + [rec], projs + [project])
  {
    var projs' := projs + [project];
    forall j | 0 <= j < |plates| ensures PlateMatches(plates[j], st.plates[j], projs') {
      PlateMatchesExtend(plates[j], st.plates[j], projs, projs');
    }
    forall i | 0 <= i < |projs| ensures ProjectMatches(projs'[i], (st.projects + [rec])[i], projs') {
      assert ProjectMatches(projs[i], st.projects[i], projs);
    }
  }

  /** No project on the plates has the name: a new project record comes next, with the next colour. */
  lemma NewProjectChosen(st: LoadState, plates: seq<Plate>, projs: seq<Project>, name: string)
    requires Represents(st, plates, projs) && ProjectsKnown(st)
    requires forall p :: p in OwnersOnPlates(plates) ==> p.name != name
    ensures ProjectIdFor(st, name) == |projs|
    ensures ProjectsFor(st, name) == st.projects + [ProjectRec(name, ColorList[|OwnersOnPlates(plates)| % |ColorList|], [])]
  {
    NoneFound(st, plates, projs, name);
    OnPlatesAreVisible(st, plates, projs);
    ObjectsOfSize(Visible(st.plates), projs);
  }

  /** A project on the plates has the name: it is the object of the id ProjectIdFor picks. */
  lemma FoundChosen(st: LoadState, plates: seq<Plate>, projs: seq<Project>, name: string, project: Project)
    requires Represents(st, plates, projs) && NamesUnique(st)
    requires project in OwnersOnPlates(plates) && project.name == name
    ensures ProjectsFor(st, name) == st.projects
    ensures ProjectIdFor(st, name) < |projs| && projs[ProjectIdFor(st, name)] == project
  {
    var pid := FoundIsFound(st, plates, projs, name, project);
  }

  /** The loaded sample a well row adds to project `pid`: numbered with the new sample count when the row has no number. */
  ghost function RowSample(recs: seq<ProjectRec>, pid: nat, name: string, number: Option<int>): LoadedSample
    requires pid < |recs|
  {
    LoadedSample(pid, name, if number.None? then Some(|recs[pid].samples| + 1) else number)
  }

  /** The project records once `x` is added to the samples of its project. */
  ghost function Grown(recs: seq<ProjectRec>, x: LoadedSample): seq<ProjectRec>
    requires x.project < |recs|
  {
    recs[x.project := recs[x.project].(samples := recs[x.project].samples + [x])]
  }

  /** The plate records once `x` is stored in the well `well` of the newest one. */
  ghost function Filled(precs: seq<PlateRec>, well: string, x: LoadedSample): seq<PlateRec>
    requires |precs| > 0
  {
    precs[|precs| - 1 := precs[|precs| - 1].(data := precs[|precs| - 1].data[well := Some(x)])]
  }

  /** Plate objects standing for plate records are well formed. */
  lemma MatchedAreValid(recs: seq<PlateRec>, plates: seq<Plate>, projs: seq<Project>)
    requires PlatesMatch(recs, plates, projs)
    ensures forall j :: 0 <= j < |plates| ==> plates[j].Valid()
  {
    forall j | 0 <= j < |plates| ensures plates[j].Valid() {
      assert PlateMatches(plates[j], recs[j], projs);
    }
  }

  /**
   * The project a well row names: the one with that name among the projects
   * on the plates read so far, or else a new project with no samples and the
   * colour `color_list[len(projects on the plates) % 8]`.
   */
  method ChooseProject(plates: seq<Plate>, ghost projs: seq<Project>, ghost st: LoadState, projectName: string)
    returns (project: Project, ghost projs': seq<Project>, ghost recs: seq<ProjectRec>, ghost pid: nat)
    requires Represents(st, plates, projs) && ProjectsKnown(st) && NamesUnique(st)
    ensures recs == ProjectsFor(st, projectName) && pid == ProjectIdFor(st, projectName)
    ensures PlatesMatch(st.plates, plates, projs') && ProjectsMatch(recs, projs')
    ensures pid < |projs'| && projs'[pid] == project
    ensures forall k :: 0 <= k < |projs'| ==> projs'[k] in projs || fresh(projs'[k])
  {
    recs, pid := ProjectsFor(st, projectName), ProjectIdFor(st, projectName);
    MatchedAreValid(st.plates, plates, projs);
    var found := FindProjectNamed(plates, projectName);
    if found == null {
      project, projs' := CreateProject(plates, projs, st, projectName);
    } else {
      project := found;
      FoundChosen(st, plates, projs, projectName, project);
      projs' := projs;
    }
  }

  /**
   * `Project(proj_name, color_list[len(projects on the plates) % 8])` when no
   * project on the plates has the name: the new project object stands for
   * the project record ProjectsFor adds, with the next id.
   */
  method CreateProject(plates: seq<Plate>, ghost projs: seq<Project>, ghost st: LoadState, projectName: string)
    returns (project: Project, ghost projs': seq<Project>)
    requires Represents(st, plates, projs) && ProjectsKnown(st)
    requires forall p :: p in OwnersOnPlates(plates) ==> p.name != projectName
    ensures ProjectIdFor(st, projectName) < |projs'| && projs'[ProjectIdFor(st, projectName)] == project
    ensures PlatesMatch(st.plates, plates, projs') && ProjectsMatch(ProjectsFor(st, projectName), projs')
    ensures forall k :: 0 <= k < |projs'| ==> projs'[k] in projs || fresh(projs'[k])
  {
    MatchedAreValid(st.plates, plates, projs);
    var count := CountProjects(plates);
    NewProjectChosen(st, plates, projs, projectName);
    project := new Project(projectName, Some(ColorList[count % |ColorList|]), 0);
    NewProjectKeeps(st, plates, projs, project, ProjectRec(projectName, ColorList[count % |ColorList|], []));
    projs' := projs + [project];
  }

  /**
   * `sample = Sample(project, sample_name, sample_number)` and
   * `project.addSample(sample)`: the record of the project gains the
   * matching loaded sample, numbered with the new sample count when the row
   * gave no number.
   */
  method AddNewSample(project: Project, ghost projs: seq<Project>, ghost recs: seq<ProjectRec>, ghost pid: nat,
                      name: string, number: Option<int>) returns (sample: Sample)
    requires ProjectsMatch(recs, projs) && pid < |projs| && projs[pid] == project
    modifies project
    ensures fresh(sample)
    ensures Matches(sample, RowSample(recs, pid, name, number), projs)
    ensures ProjectsMatch(Grown(recs, RowSample(recs, pid, name, number)), projs)
  {
    assert ProjectMatches(project, recs[pid], projs);
    sample := new Sample(project, name, number);
    project.AddSample(sample);
    var x := LoadedSample(pid, name, sample.number);
    var recs' := recs[pid := recs[pid].(samples := recs[pid].samples + [x])];
    forall i | 0 <= i < |projs| ensures ProjectMatches(projs[i], recs'[i], projs) {
      assert old(ProjectMatches(projs[i], recs[i], projs));
      forall k | 0 <= k < |old(projs[i].samples)| ensures Matches(projs[i].samples[k], recs[i].samples[k], projs) {
        assert old(projs[i].samples[k]) in old(ProjectSamples(projs));
      }
    }
  }

  /**
   * `newPlate[position] = sample` on the newest plate: a KeyError when the
   * plate has no such well, and otherwise the newest record gains the
   * matching loaded sample in that well.
   */
  method PutSample(plates: seq<Plate>, ghost projs: seq<Project>, ghost recs: seq<PlateRec>,
                   position: string, sample: Sample, ghost x: LoadedSample)
    returns (r: Result<(), PlateError>)
    requires PlatesMatch(recs, plates, projs) && |plates| > 0 && Distinct(plates) && Matches(sample, x, projs)
    modifies plates[|plates| - 1]
    ensures r.Ok? <==> position in recs[|recs| - 1].data
    ensures r.Err? ==> r == Err(KeyError)
    ensures r.Ok? ==> PlatesMatch(Filled(recs, position, x), plates, projs)
  {
    var n := |plates| - 1;
    PlatesMatchLast(recs, plates, projs);
    ghost var before := plates[n].data;
    r := plates[n].SetItem(LabelKey(position), SampleValue(sample));
    if r.Ok? {
      assert PlatesMatch(recs[..n], plates[..n], projs);
      WellFilled(plates[n], recs[n], projs, before, position, sample, x);
      PlatesMatchLast(Filled(recs, position, x), plates, projs);
    }
  }

  /** The plates match when the older ones do and the newest one does. */
  lemma PlatesMatchLast(recs: seq<PlateRec>, plates: seq<Plate>, projs: seq<Project>)
    requires |plates| > 0 && |recs| == |plates|
    ensures PlatesMatch(recs, plates, projs) <==>
      PlatesMatch(recs[..|recs| - 1], plates[..|plates| - 1], projs) &&
      PlateMatches(plates[|plates| - 1], recs[|recs| - 1], projs)
  {
    var n := |plates| - 1;
    if PlatesMatch(recs[..n], plates[..n], projs) && PlateMatches(plates[n], recs[n], projs) {
      forall j | 0 <= j < |plates| ensures PlateMatches(plates[j], recs[j], projs) {
        if j < n {
          assert plates[..n][j] == plates[j] && recs[..n][j] == recs[j];
        }
      }
    }
  }

  /** Storing a sample matching `x` in the well `well` of a plate object stores `x` in that well of its record. */
  lemma WellFilled(plate: Plate, rec: PlateRec, projs: seq<Project>, before: map<string, Sample?>,
                   well: string, sample: Sample, x: LoadedSample)
    requires plate.Valid() && plate.name == rec.name && plate.rows == rec.rows && plate.columns == rec.columns
    requires plate.vertical == rec.vertical && plate.wellOrder == rec.order
    requires WellsMatch(before, rec, projs) && Matches(sample, x, projs)
    requires well in before && plate.data == before[well := sample]
    ensures PlateMatches(plate, rec.(data := rec.data[well := Some(x)]), projs)
  {
  }

  /**
   * A new sample in the chosen project, then in the well of the newest
   * plate: the project record gains the loaded sample and, unless the well
   * is missing (a KeyError), so does the well of the newest plate record.
   */
  method AddAndPut(plates: seq<Plate>, ghost projs: seq<Project>, ghost precs: seq<PlateRec>, ghost recs: seq<ProjectRec>,
                   ghost pid: nat, project: Project, position: string, sampleName: string, number: Option<int>)
    returns (r: Result<(), PlateError>)
    requires PlatesMatch(precs, plates, projs) && ProjectsMatch(recs, projs) && |plates| > 0 && Distinct(plates)
    requires pid < |projs| && projs[pid] == project
    modifies plates[|plates| - 1], project
    ensures r.Ok? <==> position in precs[|precs| - 1].data
    ensures r.Err? ==> r == Err(KeyError)
    ensures r.Ok? ==> ProjectsMatch(Grown(recs, RowSample(recs, pid, sampleName, number)), projs)
    ensures r.Ok? ==> PlatesMatch(Filled(precs, position, RowSample(recs, pid, sampleName, number)), plates, projs)
  {
    var sample := AddNewSample(project, projs, recs, pid, sampleName, number);
    assert PlatesMatch(precs, plates, projs);
    r := PutSample(plates, projs, precs, position, sample, RowSample(recs, pid, sampleName, number));
    assert ProjectsMatch(Grown(recs, RowSample(recs, pid, sampleName, number)), projs);
  }

  /** Objects standing for the two parts of what Place computes stand for all of it. */
  lemma PlaceRepresented(st: LoadState, well: string, projectName: string, sampleName: string, number: Option<int>,
                         recs: seq<ProjectRec>, pid: nat, plates: seq<Plate>, projs: seq<Project>)
    requires |st.plates| > 0 && well in Last(st).data
    requires recs == ProjectsFor(st, projectName) && pid == ProjectIdFor(st, projectName)
    requires ProjectsMatch(Grown(recs, RowSample(recs, pid, sampleName, number)), projs)
    requires PlatesMatch(Filled(st.plates, well, RowSample(recs, pid, sampleName, number)), plates, projs)
    ensures Represents(Place(st, well, projectName, sampleName, number).value, plates, projs)
  {
  }

  /**
   * The body of the loop in `loadFromFile` for a well row that names a
   * project and a sample: the project chosen by ChooseProject, a new sample
   * added to it, and the sample put in the well of the newest plate, a
   * KeyError when the plate has no such well. The objects then stand for
   * what Place computes.
   */
  method StoreSample(plates: seq<Plate>, ghost projs: seq<Project>, ghost st: LoadState,
                     position: string, projectName: string, sampleName: string, number: Option<int>)
    returns (r: Result<(), PlateError>, ghost projs': seq<Project>)
    requires |st.plates| > 0 && Distinct(plates)
    requires Represents(st, plates, projs) && ProjectsKnown(st) && NamesUnique(st)
    modifies plates[|plates| - 1], projs
    ensures r.Ok? <==> Place(st, position, projectName, sampleName, number).Ok?
    ensures r.Err? ==> r == Err(KeyError)
    ensures r.Ok? ==> Represents(Place(st, position, projectName, sampleName, number).value, plates, projs')
    ensures forall k :: 0 <= k < |projs'| ==> projs'[k] in projs || fresh(projs'[k])
  {
    var project;
    ghost var recs, pid;
    project, projs', recs, pid := ChooseProject(plates, projs, st, projectName);
    r := AddAndPut(plates, projs', st.plates, recs, pid, project, position, sampleName, number);
    if r.Ok? {
      PlaceRepresented(st, position, projectName, sampleName, number, recs, pid, plates, projs');
    }
  }

  /** `Plate(n, r, c, v)` for a header row: a fresh plate object standing for the new empty plate record. */
  method NewPlate(p: PlateRec, ghost projs: seq<Project>) returns (plate: Plate)
    requires p == NewPlateRec(p.name, p.rows, p.columns, p.vertical)
    ensures fresh(plate) && PlateMatches(plate, p, projs)
  {
    plate := new Plate(p.name, p.rows, p.columns, p.vertical);
    assert plate.data.Keys == p.data.Keys;
  }

  /** One more plate object standing for one more plate record. */
  lemma PlateAppended(st: LoadState, plates: seq<Plate>, projs: seq<Project>, plate: Plate, p: PlateRec)
    requires Represents(st, plates, projs) && PlateMatches(plate, p, projs)
    ensures Represents(st.(plates := st.plates + [p]), plates + [plate], projs)
  {
    var plates' := plates + [plate];
    forall j | 0 <= j < |plates'| ensures PlateMatches(plates'[j], (st.plates + [p])[j], projs) {
      if j < |plates| {
        assert plates'[j] == plates[j];
      }
    }
  }

  /**
   * A header row in the middle of the file (`line[0] == 'Index'`): the
   * plate it describes is appended and becomes the plate well rows fill.
   */
  method ReadHeader(plates: seq<Plate>, ghost projs: seq<Project>, ghost st: LoadState, line: seq<string>)
    returns (r: Result<(), PlateError>, plates': seq<Plate>, ghost st': LoadState)
    requires |line| > 0 && line[0] == HeaderMark && |st.plates| > 0
    requires Represents(st, plates, projs) && ProjectsKnown(st) && NamesUnique(st) && Distinct(plates)
    ensures r.Ok? <==> LoadLine(st, line).Ok?
    ensures r.Err? ==> r == Err(LoadLine(st, line).error)
    ensures r.Ok? ==> LoadLine(st, line) == Ok(st') && Represents(st', plates', projs) &&
                      ProjectsKnown(st') && NamesUnique(st') && Distinct(plates') && |plates'| > 0
    ensures r.Ok? ==> fresh(plates'[|plates'| - 1])
  {
    var header := ParseHeader(line);
    if header.Err? {
      return Err(header.error), plates, st;
    }
    var plate := NewPlate(header.value, projs);
    plates' := plates + [plate];
    st' := st.(plates := st.plates + [header.value]);
    PlateAppended(st, plates, projs, plate, header.value);
    HeaderKeeps(st, header.value);
    r := Ok(());
  }

  /**
   * A well row: fields 1 to 3 are the position, the project name and the
   * sample name, field 4 the number when present and not "-". The number is
   * read before the EMPTY test, so a bad number fails even on an empty well.
   */
  method ReadWellRow(plates: seq<Plate>, ghost projs: seq<Project>, ghost st: LoadState, line: seq<string>)
    returns (r: Result<(), PlateError>, ghost projs': seq<Project>, ghost st': LoadState)
    requires |line| > 0 && line[0] != HeaderMark && |st.plates| > 0
    requires Represents(st, plates, projs) && ProjectsKnown(st) && NamesUnique(st) && Distinct(plates)
    modifies plates[|plates| - 1], projs
    ensures r.Ok? <==> LoadLine(st, line).Ok?
    ensures r.Err? ==> r == Err(LoadLine(st, line).error)
    ensures r.Ok? ==> LoadLine(st, line) == Ok(st') && Represents(st', plates, projs') &&
                      ProjectsKnown(st') && NamesUnique(st')
    ensures forall k :: 0 <= k < |projs'| ==> projs'[k] in projs || fresh(projs'[k])
  {
    projs', st' := projs, st;
    if |line| < 4 {
      return Err(IndexError), projs', st';
    }
    var position, projectName, sampleName := line[1], line[2], line[3];
    var number: Option<int> := None;
    if |line| > 4 && line[4] != NoNumber {
      number := ParseInt(line[4]);
      if number.None? {
        return Err(ValueError), projs', st';
      }
    }
    assert number == NumberField(line);
    if sampleName != EmptyMark && projectName != EmptyMark {
      r, projs' := StoreSample(plates, projs, st, position, projectName, sampleName, number);
      if r.Ok? {
        st' := Place(st, position, projectName, sampleName, number).value;
        LoadLineKeeps(st, line);
      }
    } else {
      r := Ok(());
    }
  }

  /** One row of the loop in `loadFromFile`: an empty row is an IndexError, then a header row or a well row. */
  method ReadLine(plates: seq<Plate>, ghost projs: seq<Project>, ghost st: LoadState, line: seq<string>)
    returns (r: Result<(), PlateError>, plates': seq<Plate>, ghost projs': seq<Project>, ghost st': LoadState)
    requires |st.plates| > 0 && Distinct(plates)
    requires Represents(st, plates, projs) && ProjectsKnown(st) && NamesUnique(st)
    modifies plates[|plates| - 1], projs
    ensures r.Ok? <==> LoadLine(st, line).Ok?
    ensures r.Err? ==> r == Err(LoadLine(st, line).error)
    ensures r.Ok? ==> LoadLine(st, line) == Ok(st') && Represents(st', plates', projs') &&
                      ProjectsKnown(st') && NamesUnique(st') && Distinct(plates') && |plates'| > 0
    ensures r.Ok? ==> plates'[|plates'| - 1] == plates[|plates| - 1] || fresh(plates'[|plates'| - 1])
    ensures forall k :: 0 <= k < |projs'| ==> projs'[k] in projs || fresh(projs'[k])
  {
    plates', projs', st' := plates, projs, st;
    if |line| == 0 {
      r := Err(IndexError);
    } else if line[0] == HeaderMark {
      r, plates', st' := ReadHeader(plates, projs, st, line);
    } else {
      r, projs', st' := ReadWellRow(plates, projs, st, line);
    }
  }

  /** LoadRows reads the rows after a header row that parses from the plate it describes. */
  lemma LoadRowsFrom(rows: seq<seq<string>>, p: PlateRec)
    requires |rows| > 0 && ParseHeader(rows[0]) == Ok(p)
    ensures LoadRows(rows) == Continue(Ok(LoadState([], [p])), rows[1..])
  {
  }

  /** Reading one more row from `start`: the state after `rest[..i + 1]` is LoadLine of the state after `rest[..i]`. */
  lemma ReadOneMore(start: LoadState, rest: seq<seq<string>>, i: nat, st: LoadState)
    requires i < |rest| && |start.plates| > 0
    requires Continue(Ok(start), rest[..i]) == Ok(st)
    ensures Continue(Ok(start), rest[..i + 1]) == LoadLine(st, rest[i])
  {
    assert rest[..i + 1][..i] == rest[..i];
  }

  /** An error after `rest[..i]` is where reading stops. */
  lemma ErrorStops(start: LoadState, rest: seq<seq<string>>, i: nat)
    requires i <= |rest| && |start.plates| > 0
    requires Continue(Ok(start), rest[..i]).Err?
    ensures Continue(Ok(start), rest) == Continue(Ok(start), rest[..i])
  {
    ContinueAppend(Ok(start), rest[..i], rest[i..]);
    assert rest[..i] + rest[i..] == rest;
  }

  /**
   * Row `i` of `rest`, read in the state reached from `start` by the rows
   * before it: an error ends the reading of `rest` with that error, and
   * otherwise the objects stand for the state after row `i`.
   */
  method ReadNext(plates: seq<Plate>, ghost projs: seq<Project>, ghost st: LoadState,
                  ghost start: LoadState, rest: seq<seq<string>>, i: nat)
    returns (r: Result<(), PlateError>, plates': seq<Plate>, ghost projs': seq<Project>, ghost st': LoadState)
    requires i < |rest| && |start.plates| > 0 && Continue(Ok(start), rest[..i]) == Ok(st)
    requires |plates| > 0 && Distinct(plates)
    requires Represents(st, plates, projs) && ProjectsKnown(st) && NamesUnique(st)
    modifies plates[|plates| - 1], projs
    ensures r.Err? ==> Continue(Ok(start), rest) == Err(r.error)
    ensures r.Ok? ==> Continue(Ok(start), rest[..i + 1]) == Ok(st') && |plates'| > 0 && Distinct(plates') &&
                      Represents(st', plates', projs') && ProjectsKnown(st') && NamesUnique(st')
    ensures r.Ok? ==> plates'[|plates'| - 1] == plates[|plates| - 1] || fresh(plates'[|plates'| - 1])
    ensures forall k :: 0 <= k < |projs'| ==> projs'[k] in projs || fresh(projs'[k])
  {
    ReadOneMore(start, rest, i, st);
    r, plates', projs', st' := ReadLine(plates, projs, st, rest[i]);
    if r.Err? {
      ErrorStops(start, rest, i + 1);
    }
  }

  /**
   * The loop of `loadFromFile` over the rows after the first, which made
   * `first`: every row is read in turn, and the first error raised is the
   * outcome. On success the plate objects and the project objects (in order
   * of creation) stand for the state Continue computes.
   */
  method ReadRows(rest: seq<seq<string>>, first: Plate, ghost p: PlateRec)
    returns (r: Result<seq<Plate>, PlateError>, ghost projs: seq<Project>)
    requires PlateMatches(first, p, []) && forall l :: l in p.data ==> p.data[l].None?
    modifies first
    ensures r.Ok? <==> Continue(Ok(LoadState([], [p])), rest).Ok?
    ensures r.Err? ==> r == Err(Continue(Ok(LoadState([], [p])), rest).error)
    ensures r.Ok? ==> Represents(Continue(Ok(LoadState([], [p])), rest).value, r.value, projs)
  {
    var plates := [first];
    projs := [];
    ghost var start := LoadState([], [p]);
    ghost var st := start;
    HeaderKeeps(LoadState([], []), p);
    assert rest[..0] == [];
    var i := 0;
    while i < |rest|
      invariant i <= |rest|
      invariant Continue(Ok(start), rest[..i]) == Ok(st)
      invariant |plates| > 0 && Distinct(plates)
      invariant Represents(st, plates, projs) && ProjectsKnown(st) && NamesUnique(st)
      invariant plates[|plates| - 1] == first || fresh(plates[|plates| - 1])
      invariant forall k :: 0 <= k < |projs| ==> fresh(projs[k])
    {
      var res;
      res, plates, projs, st := ReadNext(plates, projs, st, start, rest, i);
      if res.Err? {
        return Err(res.error), projs;
      }
      i := i + 1;
    }
    assert rest[..i] == rest;
    r := Ok(plates);
  }

  /**
   * `loadFromFile` on the rows of the file: the first row is a header
   * whatever it says (an empty file is an IndexError), then ReadRows reads
   * the others. On success the plate objects and the project objects stand
   * for the state LoadRows computes.
   */
  method LoadFromRows(rows: seq<seq<string>>) returns (r: Result<seq<Plate>, PlateError>, ghost projs: seq<Project>)
    ensures r.Ok? <==> LoadRows(rows).Ok?
    ensures r.Err? ==> r == Err(LoadRows(rows).error)
    ensures r.Ok? ==> Represents(LoadRows(rows).value, r.value, projs)
  {
    if |rows| == 0 {
      return Err(IndexError), [];
    }
    var header := ParseHeader(rows[0]);
    if header.Err? {
      return Err(header.error), [];
    }
    var first := NewPlate(header.value, []);
    LoadRowsFrom(rows, header.value);
    r, projs := ReadRows(rows[1..], first, header.value);
  }

  /** Plate objects that stand for loaded plates show what those plates would be written as. */
  lemma RepresentedView(st: LoadState, plates: seq<Plate>, projs: seq<Project>, j: nat)
    requires Represents(st, plates, projs) && j < |plates|
    ensures SnapshotOf(plates[j]) == ViewOf(st.projects, st.plates[j])
  {
    var plate, p := plates[j], st.plates[j];
    assert PlateMatches(plate, p, projs);
    forall k | 0 <= k < |p.order|
      ensures CellAt(plate, p.order[k]) == (if p.order[k] in p.data then CellOf(st.projects, p.data[p.order[k]]) else None)
    {
      var l := p.order[k];
      assert l in plate.data by {
        assert l in set l' | l' in plate.wellOrder;
      }
      if plate.data[l] != null {
        var x := p.data[l].value;
        assert ProjectMatches(projs[x.project], st.projects[x.project], projs);
      }
    }
  }

  /**
   * Saving plates and loading the rows back gives as many plate objects,
   * each written exactly as the original would be, provided every sample has
   * a number and no name is EMPTY.
   */
  method SaveAndReload(plates: seq<Plate>) returns (r: Result<seq<Plate>, PlateError>)
    requires |plates| > 0
    requires forall j :: 0 <= j < |plates| ==> plates[j].Valid() && Writable(SnapshotOf(plates[j]))
    ensures r.Ok? && |r.value| == |plates|
    ensures forall j :: 0 <= j < |plates| ==> SnapshotOf(r.value[j]) == SnapshotOf(plates[j])
  {
    var rows, snaps := SaveToFile(plates);
    r := Reload(rows, snaps);
  }

  /** Loading the rows written for some writable snapshots gives plate objects that look like those snapshots again. */
  method Reload(rows: seq<seq<string>>, ghost snaps: seq<Snapshot>) returns (r: Result<seq<Plate>, PlateError>)
    requires |snaps| > 0 && rows == WriteAll(snaps)
    requires forall j :: 0 <= j < |snaps| ==> Writable(snaps[j])
    ensures r.Ok? && |r.value| == |snaps|
    ensures forall j :: 0 <= j < |snaps| ==> SnapshotOf(r.value[j]) == snaps[j]
  {
    ghost var st := SaveLoadRoundTrip(snaps);
    ghost var projs;
    r, projs := LoadFromRows(rows);
    forall j | 0 <= j < |snaps| ensures SnapshotOf(r.value[j]) == snaps[j] {
      RepresentedView(st, r.value, projs, j);
    }
  }
}
