/**
 * What the plate CSV dialect guarantees: plates written with outputCSV read
 * back with loadFromFile as the same plates (SaveLoadRoundTrip), and while
 * reading, projects are shared by name and get their colours round robin
 * (PlaceSharesProjects, LoadRowsInvariants).
 */
module CsvProperties {
  import opened Wrappers
  import opened PlateExceptions
  import opened PySeq
  import opened Decimal
  import opened Addressing
  import opened PlateCsv

  /** A header row reads back as a new, empty plate with the same name and geometry. */
  lemma HeaderRoundTrip(s: Snapshot)
    ensures ParseHeader(HeaderRow(s)) == Ok(NewPlateRec(s.name, s.rows, s.columns, s.vertical))
  {
    IntRoundTrip(s.rows);
    IntRoundTrip(s.columns);
  }

  /** Reading `a + b` is reading `a`, then `b` from where `a` left off. */
  lemma {:induction false} ContinueAppend(r: Result<LoadState, PlateError>, a: seq<seq<string>>, b: seq<seq<string>>)
    requires r.Ok? ==> |r.value.plates| > 0
    ensures Continue(r, a + b) == Continue(Continue(r, a), b)
    decreases |b|
  {
    if |b| == 0 {
      assert a + b == a;
    } else {
      var b' := b[..|b| - 1];
      ContinueAppend(r, a, b');
      assert (a + b)[..|a + b| - 1] == a + b';
    }
  }

  /** A written number field is never the "-" of an empty well and reads back as the number. */
  lemma NumberFieldRoundTrip(n: int)
    ensures IntToString(n) != NoNumber && ParseInt(IntToString(n)) == Some(n)
  {
    IntRoundTrip(n);
    if n < 0 {
      assert |IntToString(n)| >= 2;
    } else {
      assert IsDigit(IntToString(n)[0]);
    }
  }

  /** Names only grow: a project keeps its name when samples are added. */
  lemma CellStable(st1: LoadState, st2: LoadState, v: Option<LoadedSample>)
    requires Extends(st1, st2)
    requires v.Some? ==> v.value.project < |st1.projects|
    ensures CellOf(st2.projects, v) == CellOf(st1.projects, v)
  {
  }

  /**
   * Storing a sample read from a well row: every loaded sample still has a
   * known project, existing projects keep their names, and only the newest
   * plate changes, in the one well named.
   */
  lemma PlaceFacts(st: LoadState, well: string, projectName: string, sampleName: string, number: Option<int>)
    requires |st.plates| > 0 && ProjectsKnown(st)
    requires Place(st, well, projectName, sampleName, number).Ok?
    ensures var st' := Place(st, well, projectName, sampleName, number).value;
      ProjectsKnown(st') && Extends(st, st') && |st'.plates| == |st.plates| &&
      (forall j :: 0 <= j < |st.plates| - 1 ==> st'.plates[j] == st.plates[j]) &&
      well in Last(st').data && Last(st').data[well].Some? &&
      Last(st') == Last(st).(data := Last(st).data[well := Last(st').data[well]]) &&
      CellOf(st'.projects, Last(st').data[well]) ==
        Some(Cell(projectName, sampleName, Last(st').data[well].value.number)) &&
      (number.Some? ==> Last(st').data[well].value.number == number)
  {
    var st' := Place(st, well, projectName, sampleName, number).value;
    var n := |st.plates| - 1;
    var x := Last(st').data[well].value;
    forall j, l | 0 <= j < |st'.plates| && l in st'.plates[j].data && st'.plates[j].data[l].Some?
      ensures st'.plates[j].data[l].value.project < |st'.projects|
    {
      if j != n || l != well {
        assert st'.plates[j].data[l] == st.plates[j].data[l];
      }
    }
  }

  /** One well row with a storable content fills its well of the newest plate and nothing else. */
  lemma WellRowLoads(st: LoadState, i: nat, e: Entry) returns (st': LoadState)
    requires |st.plates| > 0 && ProjectsKnown(st)
    requires e.well in Last(st).data && Storable(e.content)
    ensures LoadLine(st, WellRow(i, e)) == Ok(st')
    ensures ProjectsKnown(st') && Extends(st, st') && |st'.plates| == |st.plates|
    ensures forall j :: 0 <= j < |st.plates| - 1 ==> st'.plates[j] == st.plates[j]
    ensures Last(st') == Last(st).(data := Last(st).data[e.well := Last(st').data[e.well]])
    ensures e.content.None? ==> Last(st').data[e.well] == Last(st).data[e.well]
    ensures e.content.Some? ==> CellOf(st'.projects, Last(st').data[e.well]) == e.content
  {
    var line := WellRow(i, e);
    match e.content {
      case None =>
        st' := st;
        assert Last(st).data[e.well := Last(st).data[e.well]] == Last(st).data;
      case Some(c) =>
        NumberFieldRoundTrip(c.number.value);
        assert NumberField(line) == c.number;
        st' := Place(st, e.well, c.project, c.sample, c.number).value;
        PlaceFacts(st, e.well, c.project, c.sample, c.number);
    }
  }

  /**
   * The well rows of a snapshot, read into a new empty plate whose well
   * order is the snapshot's: after `k` rows the first `k` wells hold what
   * the snapshot says and the others are still empty.
   */
  lemma {:induction false} WellRowsLoad(st: LoadState, entries: seq<Entry>, k: nat) returns (st': LoadState)
    requires |st.plates| > 0 && ProjectsKnown(st)
    requires k <= |entries|
    requires Distinct(Last(st).order) && |entries| == |Last(st).order|
    requires forall i :: 0 <= i < |entries| ==> entries[i].well == Last(st).order[i] && Storable(entries[i].content)
    requires forall l :: l in Last(st).data <==> l in Last(st).order
    requires forall l :: l in Last(st).data ==> Last(st).data[l].None?
    ensures Continue(Ok(st), WellRows(entries)[..k]) == Ok(st')
    ensures ProjectsKnown(st') && Extends(st, st') && |st'.plates| == |st.plates|
    ensures forall j :: 0 <= j < |st.plates| - 1 ==> st'.plates[j] == st.plates[j]
    ensures Last(st').(data := Last(st).data) == Last(st)
    ensures forall l :: l in Last(st').data <==> l in Last(st).order
    ensures forall i :: 0 <= i < |entries| ==>
      CellOf(st'.projects, Last(st').data[entries[i].well]) == if i < k then entries[i].content else None
    decreases k
  {
    if k == 0 {
      st' := st;
      assert WellRows(entries)[..0] == [];
    } else {
      var mid := WellRowsLoad(st, entries, k - 1);
      assert WellRows(entries)[..k][..k - 1] == WellRows(entries)[..k - 1];
      assert WellRows(entries)[..k][k - 1] == WellRow(k - 1, entries[k - 1]);
      st' := WellRowLoads(mid, k - 1, entries[k - 1]);
      forall i | 0 <= i < |entries|
        ensures CellOf(st'.projects, Last(st').data[entries[i].well]) == if i < k then entries[i].content else None
      {
        if i != k - 1 {
          assert entries[i].well != entries[k - 1].well;
          CellStable(mid, st', Last(mid).data[entries[i].well]);
        }
      }
    }
  }

  /** A plate whose wells hold what a snapshot says looks like that snapshot. */
  lemma FilledView(projects: seq<ProjectRec>, p: PlateRec, s: Snapshot)
    requires p.name == s.name && p.rows == s.rows && p.columns == s.columns && p.vertical == s.vertical
    requires |s.entries| == |p.order|
    requires forall i :: 0 <= i < |s.entries| ==> s.entries[i].well == p.order[i]
    requires forall l :: l in p.data <==> l in p.order
    requires forall i :: 0 <= i < |s.entries| ==> CellOf(projects, p.data[s.entries[i].well]) == s.entries[i].content
    ensures ViewOf(projects, p) == s
  {
    var v := ViewOf(projects, p);
    assert |v.entries| == |s.entries|;
    forall i | 0 <= i < |s.entries| ensures v.entries[i] == s.entries[i] {
      assert p.order[i] in p.data;
    }
  }

  /** Adding an empty plate adds no project to the plates' projects. */
  lemma VisibleAddEmpty(plates: seq<PlateRec>, p: PlateRec)
    requires forall l :: l in p.data ==> p.data[l].None?
    ensures Visible(plates + [p]) == Visible(plates)
  {
    var after := plates + [p];
    forall x | x in Visible(after) ensures x in Visible(plates) {
      var j, l :| 0 <= j < |after| && l in after[j].data && after[j].data[l].Some? && after[j].data[l].value.project == x;
      assert after[j] == plates[j];
    }
    forall x | x in Visible(plates) ensures x in Visible(after) {
      var j, l :| 0 <= j < |plates| && l in plates[j].data && plates[j].data[l].Some? && plates[j].data[l].value.project == x;
      assert after[j] == plates[j];
    }
  }

  /** A header row starts a new empty plate and keeps the invariants. */
  lemma HeaderKeeps(st: LoadState, p: PlateRec)
    requires ProjectsKnown(st) && NamesUnique(st)
    requires forall l :: l in p.data ==> p.data[l].None?
    ensures ProjectsKnown(st.(plates := st.plates + [p])) && NamesUnique(st.(plates := st.plates + [p]))
  {
    VisibleAddEmpty(st.plates, p);
    var after := st.plates + [p];
    forall j, l | 0 <= j < |after| && l in after[j].data && after[j].data[l].Some?
      ensures after[j].data[l].value.project < |st.projects|
    {
      assert j < |st.plates|;
      assert after[j] == st.plates[j];
    }
  }

  /** Storing one sample in one well adds at most that sample's project to the plates' projects. */
  lemma VisibleAfterStore(plates: seq<PlateRec>, n: nat, well: string, x: LoadedSample)
    requires n < |plates|
    ensures Visible(plates[n := plates[n].(data := plates[n].data[well := Some(x)])]) <= Visible(plates) + {x.project}
  {
    var after := plates[n := plates[n].(data := plates[n].data[well := Some(x)])];
    forall v | v in Visible(after) ensures v in Visible(plates) + {x.project} {
      var j, l :| 0 <= j < |after| && l in after[j].data && after[j].data[l].Some? && after[j].data[l].value.project == v;
      if j != n || l != well {
        assert l in plates[j].data && plates[j].data[l] == after[j].data[l];
      }
    }
  }

  /**
   * A well row naming a project that is on the plates read so far adds the
   * sample to that very project, at the end of its samples; any other name
   * creates a project with that name and the colour
   * `color_list[len(projects on the plates) % 8]`. A number read from the
   * row is kept; a missing one becomes the project's new sample count.
   */
  lemma PlaceSharesProjects(st: LoadState, well: string, projectName: string, sampleName: string, number: Option<int>)
    requires |st.plates| > 0 && Place(st, well, projectName, sampleName, number).Ok?
    ensures var st' := Place(st, well, projectName, sampleName, number).value;
      well in Last(st').data && Last(st').data[well].Some? &&
      var x := Last(st').data[well].value;
      x.name == sampleName && x.project < |st'.projects| && st'.projects[x.project].name == projectName &&
      ((exists p :: p in Visible(st.plates) && p < |st.projects| && st.projects[p].name == projectName) ==>
         |st'.projects| == |st.projects| && x.project in Visible(st.plates) &&
         st'.projects[x.project].samples == st.projects[x.project].samples + [x] &&
         (forall p :: 0 <= p < |st.projects| && p != x.project ==> st'.projects[p] == st.projects[p])) &&
      ((forall p :: p in Visible(st.plates) && p < |st.projects| ==> st.projects[p].name != projectName) ==>
         st'.projects == st.projects + [ProjectRec(projectName, ColorList[|Visible(st.plates)| % |ColorList|], [x])]) &&
      (number.Some? ==> x.number == number) &&
      (number.None? ==> x.number == Some(|st'.projects[x.project].samples|))
  {
    var st' := Place(st, well, projectName, sampleName, number).value;
    var x := Last(st').data[well].value;
    var visible := Visible(st.plates);
    if FindProject(st.projects, visible, projectName).None? {
      var created := ProjectRec(projectName, ColorList[|visible| % |ColorList|], []);
      assert x.project == |st.projects|;
      var projects := st.projects + [created];
      assert projects[|st.projects|].samples + [x] == [x];
      assert st'.projects == projects[|st.projects| := created.(samples := [x])];
      assert st'.projects == st.projects + [created.(samples := [x])];
    }
  }

  /** With unique names, the project a name finds is the only one on the plates with that name. */
  lemma FindProjectIsTheOnly(st: LoadState, name: string, p: nat)
    requires NamesUnique(st)
    requires p in Visible(st.plates) && p < |st.projects| && st.projects[p].name == name
    ensures FindProject(st.projects, Visible(st.plates), name) == Some(p)
  {
  }

  /** Storing a sample keeps the names of the projects on the plates unique. */
  lemma PlaceKeepsNamesUnique(st: LoadState, well: string, projectName: string, sampleName: string, number: Option<int>)
    requires |st.plates| > 0 && NamesUnique(st)
    requires Place(st, well, projectName, sampleName, number).Ok?
    ensures NamesUnique(Place(st, well, projectName, sampleName, number).value)
  {
    var st' := Place(st, well, projectName, sampleName, number).value;
    var n := |st.plates| - 1;
    var x := Last(st').data[well].value;
    assert st'.plates == st.plates[n := st.plates[n].(data := st.plates[n].data[well := Some(x)])];
    VisibleAfterStore(st.plates, n, well, x);
    var found := FindProject(st.projects, Visible(st.plates), projectName);
    if found.Some? {
      assert x.project == found.value;
      assert st'.projects == st.projects[found.value := st'.projects[found.value]];
      UniqueKept(st, st', found.value);
    } else {
      assert x.project == |st.projects|;
      assert st'.projects[..|st.projects|] == st.projects;
      UniqueWithNew(st, st', projectName);
    }
  }

  /** Names stay unique when the plates show no new project and no project is renamed or added. */
  lemma UniqueKept(st: LoadState, st': LoadState, shown: nat)
    requires NamesUnique(st) && shown in Visible(st.plates)
    requires Visible(st'.plates) <= Visible(st.plates) + {shown}
    requires |st'.projects| == |st.projects| && forall v :: 0 <= v < |st.projects| ==> st'.projects[v].name == st.projects[v].name
    ensures NamesUnique(st')
  {
  }

  /** Names stay unique when the plates show one new project whose name no shown project has. */
  lemma UniqueWithNew(st: LoadState, st': LoadState, name: string)
    requires NamesUnique(st) && Visible(st'.plates) <= Visible(st.plates) + {|st.projects|}
    requires |st'.projects| == |st.projects| + 1 && st'.projects[|st.projects|].name == name
    requires forall v :: 0 <= v < |st.projects| ==> st'.projects[v].name == st.projects[v].name
    requires forall v :: v in Visible(st.plates) && v < |st.projects| ==> st.projects[v].name != name
    ensures NamesUnique(st')
  {
  }

  /** Reading one row keeps every loaded sample's project known and the names on the plates unique. */
  lemma LoadLineKeeps(st: LoadState, line: seq<string>)
    requires |st.plates| > 0 && ProjectsKnown(st) && NamesUnique(st)
    requires LoadLine(st, line).Ok?
    ensures ProjectsKnown(LoadLine(st, line).value) && NamesUnique(LoadLine(st, line).value)
  {
    if line[0] == HeaderMark {
      HeaderKeeps(st, ParseHeader(line).value);
    } else if !(line[3] == EmptyMark || line[2] == EmptyMark) {
      PlaceFacts(st, line[1], line[2], line[3], NumberField(line));
      PlaceKeepsNamesUnique(st, line[1], line[2], line[3], NumberField(line));
    }
  }

  lemma {:induction false} ContinueKeeps(r: Result<LoadState, PlateError>, lines: seq<seq<string>>)
    requires r.Ok? ==> |r.value.plates| > 0 && ProjectsKnown(r.value) && NamesUnique(r.value)
    ensures Continue(r, lines).Ok? ==> ProjectsKnown(Continue(r, lines).value) && NamesUnique(Continue(r, lines).value)
    decreases |lines|
  {
    if |lines| > 0 {
      var init := lines[..|lines| - 1];
      ContinueKeeps(r, init);
      var mid := Continue(r, init);
      if mid.Ok? && LoadLine(mid.value, lines[|lines| - 1]).Ok? {
        assert ProjectsKnown(mid.value) && NamesUnique(mid.value);
        LoadLineKeeps(mid.value, lines[|lines| - 1]);
      }
    }
  }

  /**
   * Whatever the rows, a successful read leaves every sample with a known
   * project and no two projects on the plates with the same name, so the
   * project a name finds never depends on the order Python walks its set in.
   */
  lemma LoadRowsInvariants(rows: seq<seq<string>>)
    requires LoadRows(rows).Ok?
    ensures ProjectsKnown(LoadRows(rows).value) && NamesUnique(LoadRows(rows).value)
  {
    var p := ParseHeader(rows[0]).value;
    HeaderKeeps(LoadState([], []), p);
    ContinueKeeps(Ok(LoadState([], [p])), rows[1..]);
  }

  /** A header row on its own adds a new empty plate and no project. */
  lemma HeaderLoads(st: LoadState, s: Snapshot) returns (st1: LoadState)
    requires |st.plates| > 0 && ProjectsKnown(st)
    ensures Continue(Ok(st), [HeaderRow(s)]) == Ok(st1)
    ensures st1 == st.(plates := st.plates + [NewPlateRec(s.name, s.rows, s.columns, s.vertical)])
    ensures ProjectsKnown(st1)
  {
    HeaderRoundTrip(s);
    st1 := st.(plates := st.plates + [NewPlateRec(s.name, s.rows, s.columns, s.vertical)]);
    assert [HeaderRow(s)][..0] == [];
    forall j, l | 0 <= j < |st1.plates| && l in st1.plates[j].data && st1.plates[j].data[l].Some?
      ensures st1.plates[j].data[l].value.project < |st1.projects|
    {
      assert j < |st.plates| && st1.plates[j] == st.plates[j];
    }
  }

  /** The well rows of a writable snapshot, read into a new empty plate for it, make the plate look like the snapshot. */
  lemma EmptyPlateFills(st: LoadState, s: Snapshot) returns (st': LoadState)
    requires |st.plates| > 0 && ProjectsKnown(st) && Writable(s)
    requires Last(st) == NewPlateRec(s.name, s.rows, s.columns, s.vertical)
    ensures Continue(Ok(st), WellRows(s.entries)) == Ok(st')
    ensures ProjectsKnown(st') && Extends(st, st') && |st'.plates| == |st.plates|
    ensures forall j :: 0 <= j < |st.plates| - 1 ==> st'.plates[j] == st.plates[j]
    ensures ViewOf(st'.projects, Last(st')) == s
  {
    ReadyToFill(st, s);
    st' := MatchingPlateFills(st, s);
  }

  /** The well rows of a snapshot, read into an empty plate with the snapshot's geometry and well order, make the plate look like the snapshot. */
  lemma MatchingPlateFills(st: LoadState, s: Snapshot) returns (st': LoadState)
    requires |st.plates| > 0 && ProjectsKnown(st)
    requires Last(st).name == s.name && Last(st).rows == s.rows && Last(st).columns == s.columns
    requires Last(st).vertical == s.vertical
    requires Distinct(Last(st).order) && |s.entries| == |Last(st).order|
    requires forall i :: 0 <= i < |s.entries| ==> s.entries[i].well == Last(st).order[i] && Storable(s.entries[i].content)
    requires forall l :: l in Last(st).data <==> l in Last(st).order
    requires forall l :: l in Last(st).data ==> Last(st).data[l].None?
    ensures Continue(Ok(st), WellRows(s.entries)) == Ok(st')
    ensures ProjectsKnown(st') && Extends(st, st') && |st'.plates| == |st.plates|
    ensures forall j :: 0 <= j < |st.plates| - 1 ==> st'.plates[j] == st.plates[j]
    ensures ViewOf(st'.projects, Last(st')) == s
  {
    st' := WellRowsLoad(st, s.entries, |s.entries|);
    assert WellRows(s.entries)[..|s.entries|] == WellRows(s.entries);
    FilledView(st'.projects, Last(st'), s);
  }

  /** A new empty plate for a writable snapshot has the snapshot's geometry and wells, all empty. */
  lemma ReadyToFill(st: LoadState, s: Snapshot)
    requires |st.plates| > 0 && Writable(s)
    requires Last(st) == NewPlateRec(s.name, s.rows, s.columns, s.vertical)
    ensures Last(st).name == s.name && Last(st).rows == s.rows && Last(st).columns == s.columns
    ensures Last(st).vertical == s.vertical
    ensures Distinct(Last(st).order) && |s.entries| == |Last(st).order|
    ensures forall i :: 0 <= i < |s.entries| ==> s.entries[i].well == Last(st).order[i] && Storable(s.entries[i].content)
    ensures forall l :: l in Last(st).data <==> l in Last(st).order
    ensures forall l :: l in Last(st).data ==> Last(st).data[l].None?
  {
    WellOrderDistinct(s.rows, s.columns, s.vertical);
  }

  /** A header row, then the well rows of a writable snapshot, add a plate that looks like the snapshot. */
  lemma PlateLoads(st: LoadState, s: Snapshot) returns (st': LoadState)
    requires |st.plates| > 0 && ProjectsKnown(st) && Writable(s)
    ensures Continue(Ok(st), PlateRows(s)) == Ok(st')
    ensures ProjectsKnown(st') && Extends(st, st') && |st'.plates| == |st.plates| + 1
    ensures forall j :: 0 <= j < |st.plates| ==> st'.plates[j] == st.plates[j]
    ensures ViewOf(st'.projects, Last(st')) == s
  {
    var st1 := HeaderLoads(st, s);
    ContinueAppend(Ok(st), [HeaderRow(s)], WellRows(s.entries));
    st' := EmptyPlateFills(st1, s);
  }

  /**
   * The save -> load round trip: the rows written for one or more plates,
   * read back, give as many plates, each with the name, rows, columns,
   * orientation and well contents (project name, sample name, number) it
   * was written with — provided every sample has a number and no name is
   * EMPTY (see MissingNumberFailsLoad and EmptyNameReadsAsEmpty).
   */
  lemma {:induction false} SaveLoadRoundTrip(snaps: seq<Snapshot>) returns (st: LoadState)
    requires |snaps| > 0
    requires forall j :: 0 <= j < |snaps| ==> Writable(snaps[j])
    ensures LoadRows(WriteAll(snaps)) == Ok(st)
    ensures ProjectsKnown(st) && |st.plates| == |snaps|
    ensures forall j :: 0 <= j < |snaps| ==> ViewOf(st.projects, st.plates[j]) == snaps[j]
    decreases |snaps|
  {
    if |snaps| == 1 {
      st := FirstPlateLoads(snaps);
    } else {
      var before := SaveLoadRoundTrip(snaps[..|snaps| - 1]);
      st := AppendedPlateLoads(snaps, before);
    }
  }

  /** The base case of SaveLoadRoundTrip: the rows of a single plate read back as that plate. */
  lemma FirstPlateLoads(snaps: seq<Snapshot>) returns (st: LoadState)
    requires |snaps| == 1 && Writable(snaps[0])
    ensures LoadRows(WriteAll(snaps)) == Ok(st)
    ensures ProjectsKnown(st) && |st.plates| == |snaps|
    ensures forall j :: 0 <= j < |snaps| ==> ViewOf(st.projects, st.plates[j]) == snaps[j]
  {
    assert WriteAll(snaps) == PlateRows(snaps[0]) by {
      assert snaps[..0] == [];
    }
    st := LoadOnePlate(snaps[0]);
  }

  /** The induction step of SaveLoadRoundTrip: one more plate written is one more plate read. */
  lemma AppendedPlateLoads(snaps: seq<Snapshot>, before: LoadState) returns (st: LoadState)
    requires |snaps| >= 2 && Writable(snaps[|snaps| - 1])
    requires LoadRows(WriteAll(snaps[..|snaps| - 1])) == Ok(before)
    requires ProjectsKnown(before) && |before.plates| == |snaps| - 1
    requires forall j :: 0 <= j < |snaps| - 1 ==> ViewOf(before.projects, before.plates[j]) == snaps[j]
    ensures LoadRows(WriteAll(snaps)) == Ok(st)
    ensures ProjectsKnown(st) && |st.plates| == |snaps|
    ensures forall j :: 0 <= j < |snaps| ==> ViewOf(st.projects, st.plates[j]) == snaps[j]
  {
    var n := |snaps|;
    LoadRowsAppend(snaps);
    st := PlateLoads(before, snaps[n - 1]);
    ViewsStable(before, st);
    forall j | 0 <= j < n ensures ViewOf(st.projects, st.plates[j]) == snaps[j] {
      if j < n - 1 {
        assert ViewOf(st.projects, st.plates[j]) == ViewOf(before.projects, before.plates[j]);
      } else {
        assert st.plates[j] == Last(st);
      }
    }
  }

  /** Plates carried over unchanged look the same once more projects exist. */
  lemma ViewsStable(st1: LoadState, st2: LoadState)
    requires ProjectsKnown(st1) && Extends(st1, st2) && |st1.plates| <= |st2.plates|
    requires forall j :: 0 <= j < |st1.plates| ==> st2.plates[j] == st1.plates[j]
    ensures forall j :: 0 <= j < |st1.plates| ==> ViewOf(st2.projects, st2.plates[j]) == ViewOf(st1.projects, st1.plates[j])
  {
    forall j | 0 <= j < |st1.plates| ensures ViewOf(st2.projects, st2.plates[j]) == ViewOf(st1.projects, st1.plates[j]) {
      ViewStable(st1, st2, st1.plates[j]);
    }
  }

  /** The rows of one writable plate read back as that plate. */
  lemma LoadOnePlate(s: Snapshot) returns (st: LoadState)
    requires Writable(s)
    ensures LoadRows(PlateRows(s)) == Ok(st)
    ensures ProjectsKnown(st) && |st.plates| == 1
    ensures ViewOf(st.projects, st.plates[0]) == s
  {
    HeaderRoundTrip(s);
    assert PlateRows(s)[1..] == WellRows(s.entries);
    st := EmptyPlateFills(LoadState([], [NewPlateRec(s.name, s.rows, s.columns, s.vertical)]), s);
  }

  /** Reading the rows of several plates is reading those of all but the last, then the last one's. */
  lemma LoadRowsAppend(snaps: seq<Snapshot>)
    requires |snaps| >= 2
    ensures LoadRows(WriteAll(snaps)) == Continue(LoadRows(WriteAll(snaps[..|snaps| - 1])), PlateRows(snaps[|snaps| - 1]))
  {
    var written, last := WriteAll(snaps[..|snaps| - 1]), PlateRows(snaps[|snaps| - 1]);
    assert WriteAll(snaps) == written + last;
    DropFirstOfAppend(written, last);
    var header := ParseHeader(written[0]);
    if header.Ok? {
      ContinueAppend(Ok(LoadState([], [header.value])), written[1..], last);
    }
  }

  lemma DropFirstOfAppend<T>(a: seq<T>, b: seq<T>)
    requires |a| > 0
    ensures (a + b)[0] == a[0] && (a + b)[1..] == a[1..] + b
  {
  }

  /** A plate whose samples all have known projects looks the same once more projects exist. */
  lemma ViewStable(st1: LoadState, st2: LoadState, p: PlateRec)
    requires Extends(st1, st2)
    requires forall l :: l in p.data && p.data[l].Some? ==> p.data[l].value.project < |st1.projects|
    ensures ViewOf(st2.projects, p) == ViewOf(st1.projects, p)
  {
    var v1, v2 := ViewOf(st1.projects, p), ViewOf(st2.projects, p);
    forall k | 0 <= k < |p.order| ensures v2.entries[k] == v1.entries[k] {
      if p.order[k] in p.data {
        CellStable(st1, st2, p.data[p.order[k]]);
      }
    }
  }

  /** A sample without a number is written with an empty number field, which reads back as a ValueError. */
  lemma MissingNumberFailsLoad()
    ensures var s := Snapshot("P", 1, 1, true, [Entry("A1", Some(Cell("Proj", "S", None)))]);
      LoadRows(PlateRows(s)) == Err(ValueError)
  {
    var s := Snapshot("P", 1, 1, true, [Entry("A1", Some(Cell("Proj", "S", None)))]);
    HeaderRoundTrip(s);
    var rows := PlateRows(s);
    assert rows[1..] == [WellRow(0, s.entries[0])];
    assert rows[1..][..0] == [];
    assert WellRow(0, s.entries[0])[4] == "";
  }

  /** A sample named EMPTY is written like an empty well and reads back as one: no project, no sample. */
  lemma EmptyNameReadsAsEmpty()
    ensures var s := Snapshot("P", 1, 1, true, [Entry("A1", Some(Cell("Proj", EmptyMark, Some(1))))]);
      LoadRows(PlateRows(s)) == Ok(LoadState([], [NewPlateRec("P", 1, 1, true)]))
  {
    var s := Snapshot("P", 1, 1, true, [Entry("A1", Some(Cell("Proj", EmptyMark, Some(1))))]);
    HeaderRoundTrip(s);
    var rows := PlateRows(s);
    assert rows[1..] == [WellRow(0, s.entries[0])];
    assert rows[1..][..0] == [];
    NumberFieldRoundTrip(1);
    var st0 := LoadState([], [NewPlateRec("P", 1, 1, true)]);
    var line := WellRow(0, s.entries[0]);
    assert line[3] == EmptyMark && line[4] == IntToString(1);
    assert LoadLine(st0, line) == Ok(st0);
    assert Continue(Ok(st0), rows[1..]) == Ok(st0);
  }
}
