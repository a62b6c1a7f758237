/**
 * Plates: a fixed grid of wells, each empty or holding a reference to a
 * sample. The geometry (name, rows, columns, orientation and the well order)
 * is fixed when the plate is built; only the label -> sample map changes,
 * and only its values, never its keys.
 */
module Plates {
  import opened Wrappers
  import opened PlateExceptions
  import opened PySeq
  import opened Decimal
  import opened Addressing
  import opened Registry

  /** A place on a plate: an index into that plate's well order. */
  datatype Position = Position(plate: Plate, index: int)

  /** `Position.label`: the label at `index`; a negative index counts from the end. */
  function PositionLabel(p: Position): (r: Result<string, PlateError>)
    ensures r.Ok? <==> -|p.plate.wellOrder| <= p.index < |p.plate.wellOrder|
    ensures r.Ok? ==> r.value in p.plate.wellOrder
    ensures 0 <= p.index < |p.plate.wellOrder| ==> r == Ok(p.plate.wellOrder[p.index])
    ensures -|p.plate.wellOrder| <= p.index < 0 ==> r == Ok(p.plate.wellOrder[|p.plate.wellOrder| + p.index])
    ensures r.Err? ==> r.error == IndexError
  {
    match PyIndex(p.plate.wellOrder, p.index)
    case Some(well) => Ok(well)
    case None => Err(IndexError)
  }

  /** `Position.row`: the place of the label's first character in the row letters. */
  function PositionRow(p: Position): (r: Result<int, PlateError>)
    ensures PositionLabel(p).Err? ==> r == Err(IndexError)
    ensures PositionLabel(p).Ok? ==>
      var well := PositionLabel(p).value;
      (r.Ok? <==> |well| == 0 || well[0] in RowLetters) &&
      (r.Ok? && |well| > 0 ==> 0 <= r.value < |RowLetters| && RowLetters[r.value] == well[0]) &&
      (r.Ok? && |well| == 0 ==> r.value == 0) &&
      (r.Err? ==> r.error == ValueError)
  {
    match PositionLabel(p)
    case Err(e) => Err(e)
    case Ok(well) =>
      if |well| == 0 then Ok(0)  // ''.index finds the empty string at 0
      else match FirstIndex(RowLetters, well[0])
        case Some(i) => Ok(i)
        case None => Err(ValueError)
  }

  /** `Position.column`: the number after the row letter, minus one. */
  function PositionColumn(p: Position): (r: Result<int, PlateError>)
    ensures PositionLabel(p).Err? ==> r == Err(IndexError)
    ensures PositionLabel(p).Ok? ==>
      var well := PositionLabel(p).value;
      (r.Ok? <==> |well| > 0 && ParseInt(well[1..]).Some?) &&
      (r.Ok? ==> ParseInt(well[1..]) == Some(r.value + 1)) &&
      (r.Err? ==> r.error == ValueError)
  {
    match PositionLabel(p)
    case Err(e) => Err(e)
    case Ok(well) =>
      match ParseInt(if |well| == 0 then "" else well[1..])
      case Some(n) => Ok(n - 1)
      case None => Err(ValueError)
  }

  /** `Position.from_string`: the first place holding `well`, or ValueError when the plate has no such well. */
  function FromString(plate: Plate, well: string): (r: Result<Position, PlateError>)
    ensures r.Ok? <==> well in plate.wellOrder
    ensures r.Ok? ==> r.value.plate == plate && 0 <= r.value.index < |plate.wellOrder|
    ensures r.Ok? ==> PositionLabel(r.value) == Ok(well)
    ensures r.Err? ==> r.error == ValueError
  {
    match FirstIndex(plate.wellOrder, well)
    case Some(i) => Ok(Position(plate, i))
    case None => Err(ValueError)
  }

  /** `Position.from_rowcol`: `row_letters[row]` (negative rows count from Z) followed by `col + 1`. */
  function FromRowCol(plate: Plate, row: int, col: int): (r: Result<Position, PlateError>)
    ensures (row < -26 || row >= 26) ==> r == Err(IndexError)
  {
    match PyIndex(RowLetters, row)
    case None => Err(IndexError)
    case Some(letter) => FromString(plate, [letter] + IntToString(col + 1))
  }

  /** The row letter of a label reads back as its row. */
  lemma LabelRow(r: nat, c: nat)
    requires r < 26
    ensures |Label(r, c)| >= 2 && FirstIndex(RowLetters, Label(r, c)[0]) == Some(r)
  {
    RowLettersDistinct();
    FirstIndexOfDistinct(RowLetters, r);
  }

  /** The digits of a label read back as its column plus one. */
  lemma LabelColumn(r: nat, c: nat)
    requires r < 26
    ensures ParseInt(Label(r, c)[1..]) == Some(c + 1)
  {
    assert Label(r, c)[1..] == NatToString(c + 1);
    NatRoundTrip(c + 1);
  }

  /** Where a plate's well order is the one its geometry defines, the label at index `i` reads back as (row, column). */
  lemma PositionCoordinates(plate: Plate, i: nat)
    requires plate.StandardOrder()
    requires i < |plate.wellOrder|
    ensures PositionLabel(Position(plate, i)) == Ok(Label(PlateRowAt(plate, i), PlateColumnAt(plate, i)))
    ensures PositionRow(Position(plate, i)) == Ok(PlateRowAt(plate, i))
    ensures PositionColumn(Position(plate, i)) == Ok(PlateColumnAt(plate, i))
  {
    var r, c := PlateRowAt(plate, i), PlateColumnAt(plate, i);
    assert plate.wellOrder[i] == Label(r, c);
    assert PositionLabel(Position(plate, i)) == Ok(Label(r, c));
    LabelRow(r, c);
    LabelColumn(r, c);
  }

  /** The row of the `i`-th well of a plate of this geometry. */
  function PlateRowAt(plate: Plate, i: nat): (r: nat)
    requires i < |WellOrder(plate.rows, plate.columns, plate.vertical)|
    ensures r < RowCount(plate.rows)
  {
    RowAt(RowCount(plate.rows), ColumnCount(plate.columns), plate.vertical, i)
  }

  /** The column of the `i`-th well of a plate of this geometry. */
  function PlateColumnAt(plate: Plate, i: nat): (c: nat)
    requires i < |WellOrder(plate.rows, plate.columns, plate.vertical)|
    ensures c < ColumnCount(plate.columns)
  {
    ColumnAt(RowCount(plate.rows), ColumnCount(plate.columns), plate.vertical, i)
  }

  /** Reading the label at index `i` back with from_string gives index `i` again. */
  lemma FromStringRoundTrip(plate: Plate, i: nat)
    requires Distinct(plate.wellOrder)
    requires i < |plate.wellOrder|
    ensures FromString(plate, plate.wellOrder[i]) == Ok(Position(plate, i))
  {
    FirstIndexOfDistinct(plate.wellOrder, i);
  }

  /**
   * from_rowcol on a row and column inside the plate finds the well labelled
   * `row_letters[r] + str(c + 1)`, whose row and column read back as `r` and `c`.
   */
  lemma FromRowColInRange(plate: Plate, r: nat, c: nat)
    requires plate.StandardOrder()
    requires r < RowCount(plate.rows) && c < ColumnCount(plate.columns)
    ensures FromRowCol(plate, r, c).Ok?
    ensures PositionLabel(FromRowCol(plate, r, c).value) == Ok([RowLetters[r]] + IntToString(c + 1))
    ensures PositionRow(FromRowCol(plate, r, c).value) == Ok(r)
    ensures PositionColumn(FromRowCol(plate, r, c).value) == Ok(c)
  {
    var nr, nc := RowCount(plate.rows), ColumnCount(plate.columns);
    WellOrderAt(plate.rows, plate.columns, plate.vertical, r, c);
    var k := IndexAt(nr, nc, plate.vertical, r, c);
    assert [RowLetters[r]] + IntToString(c + 1) == Label(r, c);
    WellOrderDistinct(plate.rows, plate.columns, plate.vertical);
    FromStringRoundTrip(plate, k);
    IndexAtRoundTrip(nr, nc, plate.vertical, r, c);
    PositionCoordinates(plate, k);
  }

  /** The row index `row_letters[row]` selects, once a negative row has been counted from Z. */
  function LetterIndex(row: int): int {
    if row < 0 then 26 + row else row
  }

  /**
   * from_rowcol succeeds exactly when the row letter exists and is one of the
   * plate's rows and the column is one of its columns.
   */
  lemma FromRowColSucceeds(plate: Plate, row: int, col: int)
    requires plate.StandardOrder()
    ensures FromRowCol(plate, row, col).Ok? <==>
      -26 <= row < 26 && LetterIndex(row) < RowCount(plate.rows) && 0 <= col < ColumnCount(plate.columns)
  {
    if -26 <= row < 26 {
      var r: nat := LetterIndex(row);
      assert PyIndex(RowLetters, row) == Some(RowLetters[r]);
      if col >= 0 {
        LabelOnPlate(plate, r, col);
      } else {
        NegativeColumnOffPlate(plate, r, col);
      }
    }
  }

  /** A well label is found on the plate exactly when its row and column are within the plate. */
  lemma LabelOnPlate(plate: Plate, r: nat, c: nat)
    requires plate.StandardOrder()
    requires r < 26
    ensures FromString(plate, [RowLetters[r]] + IntToString(c + 1)).Ok? <==> r < RowCount(plate.rows) && c < ColumnCount(plate.columns)
  {
    assert [RowLetters[r]] + IntToString(c + 1) == Label(r, c);
    WellOrderContains(plate.rows, plate.columns, plate.vertical, r, c);
  }

  /** A column number below 1 is written "0" or with a minus sign, which no label of the plate has. */
  lemma NegativeColumnOffPlate(plate: Plate, r: nat, col: int)
    requires plate.StandardOrder()
    requires r < 26 && col < 0
    ensures [RowLetters[r]] + IntToString(col + 1) !in plate.wellOrder
  {
    var well := [RowLetters[r]] + IntToString(col + 1);
    forall k | 0 <= k < |plate.wellOrder| ensures plate.wellOrder[k] != well {
      WellOrderEntry(plate.rows, plate.columns, plate.vertical, k);
      var r': nat, c': nat :| r' < RowCount(plate.rows) && c' < ColumnCount(plate.columns) && plate.wellOrder[k] == Label(r', c');
      NegativeColumnNotLabel(r, col, r', c');
    }
  }

  lemma NegativeColumnNotLabel(r: nat, col: int, r': nat, c': nat)
    requires r < 26 && r' < 26 && col < 0
    ensures [RowLetters[r]] + IntToString(col + 1) != Label(r', c')
  {
    var well := [RowLetters[r]] + IntToString(col + 1);
    assert well[1..] == IntToString(col + 1);
    assert Label(r', c')[1..] == NatToString(c' + 1);
  }

  /** The key of `plate[key]`: a label, or a Position standing for its label. */
  datatype WellKey = LabelKey(well: string) | PositionKey(pos: Position)

  /** The value of `plate[key] = value`: a sample, None, or something else (a TypeError). */
  datatype WellValue = SampleValue(sample: Sample) | NoneValue | OtherValue

  function KeyLabel(key: WellKey): Result<string, PlateError> {
    match key
    case LabelKey(well) => Ok(well)
    case PositionKey(pos) => PositionLabel(pos)
  }

  /**
   * The label -> sample map of a plate, listed in well order: the positions
   * of the wells whose content satisfies `keep`, in increasing order.
   */
  function WellsWhere(order: seq<string>, data: map<string, Sample?>, keep: Sample? -> bool): (r: seq<nat>)
    ensures forall k :: 0 <= k < |r| ==> r[k] < |order| && order[r[k]] in data && keep(data[order[r[k]]])
    ensures forall i :: 0 <= i < |order| && order[i] in data && keep(data[order[i]]) ==> i in r
    ensures forall a, b :: 0 <= a < b < |r| ==> r[a] < r[b]
    decreases |order|
  {
    if |order| == 0 then []
    else
      var last := |order| - 1;
      var init := WellsWhere(order[..last], data, keep);
      assert forall k :: 0 <= k < last ==> order[..last][k] == order[k];
      if order[last] in data && keep(data[order[last]]) then init + [last] else init
  }

  /** `Position.from_string(plate, key)` for the keys at indices `u` of a well order without repetitions. */
  function AtIndices(plate: Plate, u: seq<nat>): (r: seq<Position>)
    ensures |r| == |u|
    ensures forall k :: 0 <= k < |r| ==> r[k] == Position(plate, u[k])
  {
    seq(|u|, k requires 0 <= k < |u| => Position(plate, u[k]))
  }

  /** The project of each sample, in order. */
  function Owners(samples: seq<Sample>): (r: seq<Project>)
    ensures |r| == |samples|
    ensures forall k :: 0 <= k < |r| ==> r[k] == samples[k].project
  {
    seq(|samples|, k requires 0 <= k < |samples| => samples[k].project)
  }

  /** Each element wrapped in Some. */
  function Somes<T>(s: seq<T>): (r: seq<Option<T>>)
    ensures |r| == |s|
    ensures forall k :: 0 <= k < |s| ==> r[k] == Some(s[k])
  {
    seq(|s|, k requires 0 <= k < |s| => Some(s[k]))
  }

  /** A well holding a sample. */
  predicate IsUsed(v: Sample?) {
    v != null
  }

  /** A well holding None. */
  predicate IsFree(v: Sample?) {
    v == null
  }

  /** Every well's content replaced by None where it is `s` (by reference). */
  function Cleared(data: map<string, Sample?>, s: Sample?): (r: map<string, Sample?>)
    ensures r.Keys == data.Keys
    ensures forall l :: l in r ==> r[l] != s || s == null
    ensures forall l :: l in data && data[l] == s ==> r[l] == null
    ensures forall l :: l in r && data[l] != s ==> r[l] == data[l]
  {
    map l | l in data :: if data[l] == s then null else data[l]
  }

  /** The map after `for pos in positions: if pos is not None: plate[pos] = None`, each assignment as `__setitem__` does it. */
  function ClearAt(data: map<string, Sample?>, positions: seq<Option<Position>>): (r: map<string, Sample?>)
    ensures r.Keys == data.Keys
    ensures forall l :: l in r ==> r[l] == null || r[l] == data[l]
    decreases |positions|
  {
    if |positions| == 0 then data
    else
      var d := ClearAt(data, positions[..|positions| - 1]);
      var p := positions[|positions| - 1];
      if p.Some? && PositionLabel(p.value).Ok? && PositionLabel(p.value).value in d
      then d[PositionLabel(p.value).value := null]
      else d
  }

  /** One more iteration of the clearing loop: either that well is emptied, or (an Err from `__setitem__`) nothing changes. */
  lemma ClearAtStep(data: map<string, Sample?>, positions: seq<Option<Position>>, i: nat,
                    before: map<string, Sample?>, after: map<string, Sample?>)
    requires i < |positions|
    requires before == ClearAt(data, positions[..i])
    requires positions[i].Some? && PositionLabel(positions[i].value).Ok? && PositionLabel(positions[i].value).value in before ==>
      after == before[PositionLabel(positions[i].value).value := null]
    requires !(positions[i].Some? && PositionLabel(positions[i].value).Ok? && PositionLabel(positions[i].value).value in before) ==>
      after == before
    ensures after == ClearAt(data, positions[..i + 1])
  {
    assert positions[..i + 1][..i] == positions[..i];
  }

  /** The labels of the positions that are not None and name a well. */
  function PositionLabels(positions: seq<Option<Position>>): (r: set<string>)
    ensures forall l :: l in r <==> exists k :: 0 <= k < |positions| && positions[k].Some? && PositionLabel(positions[k].value) == Ok(l)
    decreases |positions|
  {
    if |positions| == 0 then {}
    else
      var init := positions[..|positions| - 1];
      var p := positions[|positions| - 1];
      assert forall k :: 0 <= k < |init| ==> init[k] == positions[k];
      PositionLabels(init) + if p.Some? && PositionLabel(p.value).Ok? then {PositionLabel(p.value).value} else {}
  }

  /** Clearing positions one by one empties exactly the wells they name. */
  lemma {:induction false} ClearAtLabels(data: map<string, Sample?>, positions: seq<Option<Position>>)
    ensures ClearAt(data, positions) == map l | l in data :: if l in PositionLabels(positions) then null else data[l]
    decreases |positions|
  {
    if |positions| > 0 {
      ClearAtLabels(data, positions[..|positions| - 1]);
    }
  }

  /** Every well holding one of `samples` emptied. */
  function ClearedAll(data: map<string, Sample?>, samples: seq<Sample>): (r: map<string, Sample?>)
    ensures r.Keys == data.Keys
    ensures forall l :: l in r ==> r[l] == null || r[l] !in samples
    ensures forall l :: l in data && data[l] != null && data[l] in samples ==> r[l] == null
    ensures forall l :: l in r && (data[l] == null || data[l] !in samples) ==> r[l] == data[l]
  {
    map l | l in data :: if data[l] != null && data[l] in samples then null else data[l]
  }

  lemma ClearedAllStep(data: map<string, Sample?>, samples: seq<Sample>, j: nat)
    requires j < |samples|
    ensures ClearedAll(data, samples[..j + 1]) == Cleared(ClearedAll(data, samples[..j]), samples[j])
  {
    assert samples[..j + 1] == samples[..j] + [samples[j]];
  }

  /** The pairs `zip(wells, samples)` builds: as many as the shorter of the two has. */
  function Zip(wells: seq<string>, samples: seq<Sample>): (r: seq<(string, Sample)>)
    ensures |r| == if |wells| < |samples| then |wells| else |samples|
    ensures forall k :: 0 <= k < |r| ==> r[k] == (wells[k], samples[k])
  {
    var n := if |wells| < |samples| then |wells| else |samples|;
    seq(n, k requires 0 <= k < n => (wells[k], samples[k]))
  }

  /** The wells zipped from a slice of the well order are labels of the plate. */
  lemma ZipOnPlate(order: seq<string>, lo: int, hi: int, samples: seq<Sample>)
    ensures forall k :: 0 <= k < |Zip(PySlice(order, lo, hi), samples)| ==>
      Zip(PySlice(order, lo, hi), samples)[k].0 in order
  {
    var wells := PySlice(order, lo, hi);
    forall k | 0 <= k < |Zip(wells, samples)| ensures Zip(wells, samples)[k].0 in order {
      assert Zip(wells, samples)[k].0 == wells[k] == order[SliceBound(|order|, lo) + k];
    }
  }

  /** The map after `for well, sample in pairs: data[well] = sample`. */
  function Assign(data: map<string, Sample?>, pairs: seq<(string, Sample)>): (r: map<string, Sample?>)
    ensures data.Keys <= r.Keys
    ensures |pairs| > 0 ==> pairs[|pairs| - 1].0 in r && r[pairs[|pairs| - 1].0] == pairs[|pairs| - 1].1
    decreases |pairs|
  {
    if |pairs| == 0 then data
    else Assign(data, pairs[..|pairs| - 1])[pairs[|pairs| - 1].0 := pairs[|pairs| - 1].1]
  }

  /**
   * Assigning pairs whose wells are different puts each sample into its own
   * well and leaves every other well as it was.
   */
  lemma {:induction false} AssignSpec(data: map<string, Sample?>, pairs: seq<(string, Sample)>)
    requires forall a, b :: 0 <= a < b < |pairs| ==> pairs[a].0 != pairs[b].0
    ensures forall k :: 0 <= k < |pairs| ==> pairs[k].0 in Assign(data, pairs) && Assign(data, pairs)[pairs[k].0] == pairs[k].1
    ensures forall l :: (forall k :: 0 <= k < |pairs| ==> pairs[k].0 != l) ==>
      (l in Assign(data, pairs) <==> l in data) && (l in data ==> Assign(data, pairs)[l] == data[l])
    decreases |pairs|
  {
    if |pairs| > 0 {
      var init := pairs[..|pairs| - 1];
      AssignSpec(data, init);
      assert forall k :: 0 <= k < |init| ==> init[k] == pairs[k];
    }
  }

  /** `[w for w in wells if data[w] != None][0]`, or None when every well is free. */
  function FirstOccupied(wells: seq<string>, data: map<string, Sample?>): (r: Option<nat>)
    ensures r.Some? ==> r.value < |wells| && wells[r.value] in data && data[wells[r.value]] != null
    ensures r.Some? ==> forall k :: 0 <= k < r.value && wells[k] in data ==> data[wells[k]] == null
    ensures r.None? ==> forall k :: 0 <= k < |wells| && wells[k] in data ==> data[wells[k]] == null
    decreases |wells|
  {
    if |wells| == 0 then None
    else if wells[0] in data && data[wells[0]] != null then Some(0)
    else match FirstOccupied(wells[1..], data)
      case None => None
      case Some(k) => Some(k + 1)
  }

  /**
   * What `addProject` raises or leaves in the plate's map: NotEnoughWells when
   * the range runs past `number_of_wells`, WellNotFree naming the first taken
   * target well, otherwise the map with the chosen samples zipped into the
   * target wells.
   */
  function AddProjectOutcome(order: seq<string>, numberOfWells: int, data: map<string, Sample?>,
                             samples: seq<Sample>, start: int, first: int, lastSample: Option<int>)
    : (outcome: (Result<(), PlateError>, map<string, Sample?>))
    ensures outcome.0.Err? ==> outcome.1 == data
  {
    var last := EffectiveLast(lastSample, |samples|);
    var wells := PySlice(order, start, start + (last + 1 - first));
    if !(start + (last + 1 - first) <= numberOfWells) then
      (Err(NotEnoughWells(|samples|, numberOfWells - start)), data)
    else if FirstOccupied(wells, data).Some? then
      (Err(WellNotFree(wells[FirstOccupied(wells, data).value])), data)
    else
      (Ok(()), Assign(data, Zip(wells, PySlice(samples, first, last + 1))))
  }

  /** When the range runs past the plate, NotEnoughWells reports the project's sample count and the wells left. */
  lemma AddProjectOverflows(order: seq<string>, numberOfWells: int, data: map<string, Sample?>,
                            samples: seq<Sample>, start: int, first: int, lastSample: Option<int>)
    requires !(start + (EffectiveLast(lastSample, |samples|) + 1 - first) <= numberOfWells)
    ensures AddProjectOutcome(order, numberOfWells, data, samples, start, first, lastSample)
      == (Err(NotEnoughWells(|samples|, numberOfWells - start)), data)
  {
  }

  /** When the range fits but a target well is taken, WellNotFree names the first taken one. */
  lemma AddProjectCollides(order: seq<string>, numberOfWells: int, data: map<string, Sample?>,
                           samples: seq<Sample>, start: int, first: int, lastSample: Option<int>,
                           wells: seq<string>)
    requires wells == PySlice(order, start, start + (EffectiveLast(lastSample, |samples|) + 1 - first))
    requires start + (EffectiveLast(lastSample, |samples|) + 1 - first) <= numberOfWells
    requires FirstOccupied(wells, data).Some?
    ensures AddProjectOutcome(order, numberOfWells, data, samples, start, first, lastSample)
      == (Err(WellNotFree(wells[FirstOccupied(wells, data).value])), data)
  {
  }

  /** addProject fails exactly when the range runs past the plate or one of its target wells is taken. */
  lemma AddProjectFails(order: seq<string>, numberOfWells: int, data: map<string, Sample?>,
                        samples: seq<Sample>, start: int, first: int, lastSample: Option<int>)
    ensures var count := EffectiveLast(lastSample, |samples|) + 1 - first;
      AddProjectOutcome(order, numberOfWells, data, samples, start, first, lastSample).0.Err? <==>
        !(start + count <= numberOfWells) || FirstOccupied(PySlice(order, start, start + count), data).Some?
  {
  }

  /** When the range fits and every target well is free, the samples are zipped into the target wells. */
  lemma AddProjectSucceeds(order: seq<string>, numberOfWells: int, data: map<string, Sample?>,
                           samples: seq<Sample>, start: int, first: int, lastSample: Option<int>,
                           wells: seq<string>, chosen: seq<Sample>)
    requires wells == PySlice(order, start, start + (EffectiveLast(lastSample, |samples|) + 1 - first))
    requires chosen == PySlice(samples, first, EffectiveLast(lastSample, |samples|) + 1)
    requires start + (EffectiveLast(lastSample, |samples|) + 1 - first) <= numberOfWells
    requires FirstOccupied(wells, data).None?
    ensures AddProjectOutcome(order, numberOfWells, data, samples, start, first, lastSample)
      == (Ok(()), Assign(data, Zip(wells, chosen)))
  {
  }

  /** `last_sample`, clamped to the last sample when it is None or past the end. */
  function EffectiveLast(lastSample: Option<int>, sampleCount: nat): (r: int)
    ensures r < sampleCount
    ensures lastSample.Some? && lastSample.value < sampleCount ==> r == lastSample.value
    ensures (lastSample.None? || lastSample.value >= sampleCount) ==> r == sampleCount - 1
  {
    if lastSample.None? || lastSample.value >= sampleCount then sampleCount - 1 else lastSample.value
  }

  class Plate {
    const name: string
    const rows: int
    const columns: int
    const vertical: bool
    const wellOrder: seq<string>
    var data: map<string, Sample?>

    /** The well order is the one the plate's rows, columns and orientation define. */
    predicate StandardOrder() {
      wellOrder == WellOrder(rows, columns, vertical)
    }

    /** No label occurs twice, and `data` has exactly the labels as keys. */
    ghost predicate Valid()
      reads this
    {
      Distinct(wellOrder) &&
      data.Keys == set l | l in wellOrder
    }

    /** A plate with every well of its geometry present and empty. */
    constructor (name: string, rows: int, columns: int, vertical: bool)
      ensures StandardOrder() && Valid()
      ensures this.name == name && this.rows == rows && this.columns == columns && this.vertical == vertical
      ensures forall l :: l in data ==> data[l] == null
    {
      this.name := name;
      this.rows := rows;
      this.columns := columns;
      this.vertical := vertical;
      var order := WellOrder(rows, columns, vertical);
      WellOrderDistinct(rows, columns, vertical);
      wellOrder := order;
      data := map l | l in order :: null;
    }

    /** `number_of_wells`: rows times columns, the length of the well order for a plate of at most 26 rows. */
    function NumberOfWells(): (n: int)
      ensures StandardOrder() && 0 <= rows <= 26 && 0 <= columns ==> n == |wellOrder|
    {
      rows * columns
    }

    /** `positions`: a Position for every well, in well order. */
    function Positions(): (r: seq<Position>)
      ensures |r| == |wellOrder|
      ensures Distinct(wellOrder) ==> forall i :: 0 <= i < |r| ==> r[i] == Position(this, i)
    {
      var ps := seq(|wellOrder|, i requires 0 <= i < |wellOrder| => FromString(this, wellOrder[i]).value);
      if Distinct(wellOrder) then
        assert forall i :: 0 <= i < |ps| ==> ps[i] == Position(this, i) by {
          forall i | 0 <= i < |ps| ensures ps[i] == Position(this, i) {
            FromStringRoundTrip(this, i);
          }
        }
        ps
      else ps
    }

    /** `plate[key]`: the content of the well, or an error when the key names no well. */
    function GetItem(key: WellKey): (r: Result<Sample?, PlateError>)
      reads this
      ensures r.Ok? <==> KeyLabel(key).Ok? && KeyLabel(key).value in data
      ensures r.Ok? ==> r.value == data[KeyLabel(key).value]
      ensures KeyLabel(key).Ok? && KeyLabel(key).value !in data ==> r == Err(KeyError)
    {
      match KeyLabel(key)
      case Err(e) => Err(e)
      case Ok(well) => if well in data then Ok(data[well]) else Err(KeyError)
    }

    /**
     * `plate[key] = value`: the key must name a well of the plate (KeyError),
     * checked before the value must be a sample or None (TypeError). Exactly
     * that well changes; no key is ever added.
     */
    method SetItem(key: WellKey, value: WellValue) returns (r: Result<(), PlateError>)
      modifies this
      ensures data.Keys == old(data).Keys
      ensures r.Ok? <==> KeyLabel(key).Ok? && KeyLabel(key).value in old(data) && !value.OtherValue?
      ensures KeyLabel(key).Err? ==> r == Err(KeyLabel(key).error)
      ensures KeyLabel(key).Ok? && KeyLabel(key).value !in old(data) ==> r == Err(KeyError)
      ensures KeyLabel(key).Ok? && KeyLabel(key).value in old(data) && value.OtherValue? ==> r == Err(TypeError)
      ensures r.Err? ==> data == old(data)
      ensures r.Ok? ==> data == old(data)[KeyLabel(key).value := if value.SampleValue? then value.sample else null]
    {
      var well;
      match KeyLabel(key) {
        case Err(e) => return Err(e);
        case Ok(l) => well := l;
      }
      if well !in data {
        return Err(KeyError);
      }
      if value.OtherValue? {
        return Err(TypeError);
      }
      data := data[well := if value.SampleValue? then value.sample else null];
      r := Ok(());
    }

    /** The content of the `i`-th well in well order (None outside the plate). */
    function Held(i: int): Sample?
      reads this
    {
      if 0 <= i < |wellOrder| && wellOrder[i] in data then data[wellOrder[i]] else null
    }

    /** The indices, in well order, of the wells that hold a sample. */
    function UsedIndices(): seq<nat>
      reads this
    {
      WellsWhere(wellOrder, data, IsUsed)
    }

    /** The indices, in well order, of the wells that hold None. */
    function FreeIndices(): seq<nat>
      reads this
    {
      WellsWhere(wellOrder, data, IsFree)
    }

    /** The indices, in well order, of the wells that hold `s` (by reference). */
    function IndicesOf(s: Sample?): seq<nat>
      reads this
    {
      WellsWhere(wellOrder, data, v => v == s)
    }

    /** `getUsedWells`: the occupied wells, in well order (complete by UsedWellsComplete). */
    function GetUsedWells(): (r: seq<Position>)
      reads this
      ensures forall k :: 0 <= k < |r| ==> (r[k].plate == this && 0 <= r[k].index < |wellOrder| && Held(r[k].index) != null)
      ensures forall a, b :: 0 <= a < b < |r| ==> r[a].index < r[b].index
    {
      AtIndices(this, UsedIndices())
    }

    /** `getFreeWells`: the empty wells, in well order (complete by FreeWellsComplete). */
    function GetFreeWells(): (r: seq<Position>)
      reads this
      ensures forall k :: 0 <= k < |r| ==> (r[k].plate == this && 0 <= r[k].index < |wellOrder| &&
        wellOrder[r[k].index] in data && Held(r[k].index) == null)
      ensures forall a, b :: 0 <= a < b < |r| ==> r[a].index < r[b].index
    {
      AtIndices(this, FreeIndices())
    }

    /**
     * `getSamples`: the contents of the occupied wells, in well order; the
     * `k`-th sample is the content of the `k`-th occupied well, so a sample
     * placed twice appears twice (complete by SamplesComplete).
     */
    function GetSamples(): (r: seq<Sample>)
      reads this
      ensures |r| == |UsedIndices()|
      ensures forall k :: 0 <= k < |r| ==> UsedIndices()[k] < |wellOrder| && r[k] == Held(UsedIndices()[k])
    {
      var u, d := UsedIndices(), data;
      seq(|u|, k requires 0 <= k < |u| => d[wellOrder[u[k]]])
    }

    /**
     * `projects`: the projects of the occupied wells, each once, in the order
     * of their first well (see ProjectsComplete and
     * ProjectsInFirstOccurrenceOrder). A project none of whose samples is
     * placed here is not listed.
     */
    function Projects(): (r: seq<Project>)
      reads this
      ensures Distinct(r)
      ensures forall k :: 0 <= k < |r| ==> r[k] in Owners(GetSamples())
    {
      Dedup(Owners(GetSamples()))
    }

    /** The wells holding `s`, as positions in well order (complete by PositionsOfComplete). */
    function PositionsOf(s: Sample?): (r: seq<Position>)
      reads this
      ensures forall k :: 0 <= k < |r| ==> (r[k].plate == this && 0 <= r[k].index < |wellOrder| &&
        wellOrder[r[k].index] in data && Held(r[k].index) == s)
      ensures forall a, b :: 0 <= a < b < |r| ==> r[a].index < r[b].index
    {
      AtIndices(this, IndicesOf(s))
    }

    /**
     * `getSamplePositions`: the wells holding exactly `s`, in well order, or
     * the single marker [None] when `s` is None or held by no well.
     */
    function GetSamplePositions(s: Sample?): (r: seq<Option<Position>>)
      reads this
      ensures r == [None] <==> s == null || forall i :: 0 <= i < |wellOrder| ==> Held(i) != s
      ensures r != [None] ==> r == Somes(PositionsOf(s))
    {
      var samples := GetSamples();
      if s != null && s in samples then
        var ps := PositionsOf(s);
        var r := Somes(ps);
        assert !(forall i :: 0 <= i < |wellOrder| ==> Held(i) != s) by {
          var k :| 0 <= k < |samples| && samples[k] == s;
          assert Held(UsedIndices()[k]) == s;
        }
        assert |r| == 1 ==> r[0] == Some(ps[0]);
        r
      else
        assert s == null || forall i :: 0 <= i < |wellOrder| ==> Held(i) != s by {
          forall i | 0 <= i < |wellOrder| && Held(i) != null ensures Held(i) in samples {
            SamplesComplete(this, i);
          }
        }
        [None]
    }

    /**
     * `removeSample`: empties every well holding `s` (by reference) and
     * nothing else; nothing happens for None or a sample not on the plate.
     * The sample stays in its project.
     */
    method RemoveSample(s: Sample?)
      requires Valid()
      modifies this
      ensures Valid()
      ensures data == Cleared(old(data), s)
    {
      if s != null {
        var positions := GetSamplePositions(s);
        SamplePositionsClear(this, s);
        ClearPositions(positions);
      } else {
        assert data == Cleared(data, s);
      }
    }

    /** `for pos in positions: if pos is not None: self[pos] = None`. */
    method ClearPositions(positions: seq<Option<Position>>)
      modifies this
      ensures data == ClearAt(old(data), positions)
    {
      var i := 0;
      while i < |positions|
        invariant 0 <= i <= |positions|
        invariant data == ClearAt(old(data), positions[..i])
      {
        ghost var before := data;
        if positions[i].Some? {
          var pos := positions[i].value;
          assert KeyLabel(PositionKey(pos)) == PositionLabel(pos);
          var result := SetItem(PositionKey(pos), NoneValue);
        }
        ClearAtStep(old(data), positions, i, before, data);
        i := i + 1;
      }
      assert positions[..i] == positions;
    }

    /**
     * `removeProject`: when `project` is among the plate's projects, removes
     * each of its samples from the plate; otherwise nothing happens. The
     * project's own sample list is never changed.
     */
    method RemoveProject(project: Project)
      requires Valid()
      modifies this
      ensures Valid()
      ensures data == if project in old(Projects()) then ClearedAll(old(data), project.samples) else old(data)
      ensures project.samples == old(project.samples)
    {
      var projects := Projects();
      RemoveIfListed(projects, project);
    }

    /** `for i, p in enumerate(projects): if p is project: ...remove its samples`, over a list without repetitions. */
    method RemoveIfListed(projects: seq<Project>, project: Project)
      requires Valid() && Distinct(projects)
      modifies this
      ensures Valid()
      ensures data == if project in projects then ClearedAll(old(data), project.samples) else old(data)
    {
      var i := 0;
      while i < |projects|
        invariant 0 <= i <= |projects|
        invariant Valid()
        invariant data == if project in projects[..i] then ClearedAll(old(data), project.samples) else old(data)
      {
        assert projects[..i + 1] == projects[..i] + [projects[i]];
        if projects[i] == project {
          assert project !in projects[..i];
          RemoveSamples(project.samples);
        }
        i := i + 1;
      }
      assert projects[..i] == projects;
    }

    /** `for s in samples: self.removeSample(s)`: every well holding one of them is emptied. */
    method RemoveSamples(samples: seq<Sample>)
      requires Valid()
      modifies this
      ensures Valid()
      ensures data == ClearedAll(old(data), samples)
    {
      assert data == ClearedAll(data, samples[..0]);
      var j := 0;
      while j < |samples|
        invariant 0 <= j <= |samples|
        invariant Valid()
        invariant data == ClearedAll(old(data), samples[..j])
      {
        ClearedAllStep(old(data), samples, j);
        RemoveSample(samples[j]);
        j := j + 1;
      }
      assert samples[..j] == samples;
    }

    /** The wells `addProject` targets: `count` labels of the well order from `start` on, as a Python slice. */
    function TargetWells(start: int, count: int): seq<string> {
      PySlice(wellOrder, start, start + count)
    }

    /**
     * `addProject`: places `project.samples[first..last]` into consecutive
     * wells from `startPos` on, in well order. When the range runs past the
     * plate it raises NotEnoughWells (reporting the whole project's sample
     * count); when a target well is taken it raises WellNotFree naming the
     * first such well; in both cases no well changes.
     */
    method AddProject(project: Project, startPos: Position, firstSample: int, lastSample: Option<int>)
      returns (r: Result<(), PlateError>)
      requires Valid()
      modifies this
      ensures Valid()
      ensures (r, data) == AddProjectOutcome(wellOrder, NumberOfWells(), old(data), project.samples,
                                             startPos.index, firstSample, lastSample)
    {
      var start := startPos.index;
      var last := EffectiveLast(lastSample, |project.samples|);
      var count := last + 1 - firstSample;
      if !(start + count <= NumberOfWells()) {
        r := Err(NotEnoughWells(|project.samples|, NumberOfWells() - start));
        AddProjectOverflows(wellOrder, NumberOfWells(), data, project.samples, start, firstSample, lastSample);
        return;
      }
      var wells := TargetWells(start, count);
      var occupied := FirstOccupied(wells, data);
      if occupied.Some? {
        r := Err(WellNotFree(wells[occupied.value]));
        AddProjectCollides(wellOrder, NumberOfWells(), data, project.samples, start, firstSample, lastSample, wells);
        return;
      }
      var chosen := PySlice(project.samples, firstSample, last + 1);
      var pairs := Zip(wells, chosen);
      AddProjectSucceeds(wellOrder, NumberOfWells(), data, project.samples, start, firstSample, lastSample, wells, chosen);
      ZipOnPlate(wellOrder, start, start + count, chosen);
      PlacePairs(pairs);
      r := Ok(());
    }

    /** `for well, sample in pairs: self[well] = sample`, every well being a label of the plate. */
    method PlacePairs(pairs: seq<(string, Sample)>)
      requires Valid()
      requires forall k :: 0 <= k < |pairs| ==> pairs[k].0 in wellOrder
      modifies this
      ensures Valid()
      ensures data == Assign(old(data), pairs)
    {
      var i := 0;
      while i < |pairs|
        invariant 0 <= i <= |pairs|
        invariant Valid()
        invariant data == Assign(old(data), pairs[..i])
      {
        assert pairs[..i + 1][..i] == pairs[..i];
        var result := SetItem(LabelKey(pairs[i].0), SampleValue(pairs[i].1));
        i := i + 1;
      }
      assert pairs[..i] == pairs;
    }
  }

  /** The used and the free wells together are every well, each exactly once. */
  lemma UsedFreePartition(plate: Plate)
    requires plate.Valid()
    ensures |plate.GetUsedWells()| + |plate.GetFreeWells()| == |plate.wellOrder|
    ensures forall i :: 0 <= i < |plate.wellOrder| ==>
      (Position(plate, i) in plate.GetUsedWells()) != (Position(plate, i) in plate.GetFreeWells())
  {
    WellsSplit(plate.wellOrder, plate.data);
    forall i | 0 <= i < |plate.wellOrder|
      ensures (Position(plate, i) in plate.GetUsedWells()) != (Position(plate, i) in plate.GetFreeWells())
    {
      assert plate.wellOrder[i] in plate.data;
      if plate.Held(i) == null {
        FreeWellsComplete(plate, i);
      } else {
        UsedWellsComplete(plate, i);
      }
    }
  }

  /** Over labels that are all keys, the used and the free indices add up to all of them. */
  lemma {:induction false} WellsSplit(order: seq<string>, data: map<string, Sample?>)
    requires forall i :: 0 <= i < |order| ==> order[i] in data
    ensures |WellsWhere(order, data, IsUsed)| + |WellsWhere(order, data, IsFree)| == |order|
    decreases |order|
  {
    if |order| > 0 {
      WellsSplit(order[..|order| - 1], data);
    }
  }

  /** The projects view lists them in the order of the wells where each first appears. */
  lemma ProjectsInFirstOccurrenceOrder(plate: Plate)
    ensures var owners := Owners(plate.GetSamples());
      plate.Projects() == Dedup(owners) &&
      forall a, b :: 0 <= a < b < |plate.Projects()| ==>
        FirstIndex(owners, plate.Projects()[a]).value < FirstIndex(owners, plate.Projects()[b]).value
  {
    DedupOrder(Owners(plate.GetSamples()));
  }

  /**
   * addProject on a plate whose labels are distinct, from a non-negative
   * start and first sample: when it succeeds, the chosen samples land in the
   * consecutive wells from `start` on, in sample order, and no other well
   * changes.
   */
  lemma AddProjectPlacesContiguously(order: seq<string>, data: map<string, Sample?>, samples: seq<Sample>,
                                     start: nat, first: nat, lastSample: Option<int>)
    requires Distinct(order)
    requires first <= EffectiveLast(lastSample, |samples|)
    requires AddProjectOutcome(order, |order|, data, samples, start, first, lastSample).0.Ok?
    ensures var after := AddProjectOutcome(order, |order|, data, samples, start, first, lastSample).1;
      var count := EffectiveLast(lastSample, |samples|) + 1 - first;
      (forall i :: start <= i < start + count ==>
         order[i] in after && after[order[i]] == samples[first + (i - start)]) &&
      (forall i :: 0 <= i < |order| && !(start <= i < start + count) ==>
         (order[i] in after <==> order[i] in data) &&
         (order[i] in data ==> after[order[i]] == data[order[i]]))
  {
    var last := EffectiveLast(lastSample, |samples|);
    var count := last + 1 - first;
    var wells := PySlice(order, start, start + count);
    var chosen := PySlice(samples, first, last + 1);
    AddProjectFails(order, |order|, data, samples, start, first, lastSample);
    AddProjectSucceeds(order, |order|, data, samples, start, first, lastSample, wells, chosen);
    PlacedInRange(order, data, samples, start, first, count);
    UntouchedOutsideRange(order, data, samples, start, first, count);
  }

  /** Zipping `count` samples from `first` into the wells from `start` on fills those wells in order. */
  lemma PlacedInRange(order: seq<string>, data: map<string, Sample?>, samples: seq<Sample>,
                      start: nat, first: nat, count: nat)
    requires Distinct(order) && start + count <= |order| && first + count <= |samples|
    ensures var after := Assign(data, Zip(PySlice(order, start, start + count), PySlice(samples, first, first + count)));
      forall i :: start <= i < start + count ==> order[i] in after && after[order[i]] == samples[first + (i - start)]
  {
    var pairs := Zip(PySlice(order, start, start + count), PySlice(samples, first, first + count));
    assert |pairs| == count;
    forall a, b | 0 <= a < b < |pairs| ensures pairs[a].0 != pairs[b].0 {
      assert pairs[a].0 == order[start + a] && pairs[b].0 == order[start + b];
    }
    AssignSpec(data, pairs);
    forall i | start <= i < start + count
      ensures order[i] in Assign(data, pairs) && Assign(data, pairs)[order[i]] == samples[first + (i - start)]
    {
      assert pairs[i - start] == (order[i], samples[first + (i - start)]);
    }
  }

  /** Zipping into the wells from `start` on leaves every other well of the order as it was. */
  lemma UntouchedOutsideRange(order: seq<string>, data: map<string, Sample?>, samples: seq<Sample>,
                              start: nat, first: nat, count: nat)
    requires Distinct(order) && start + count <= |order| && first + count <= |samples|
    ensures var after := Assign(data, Zip(PySlice(order, start, start + count), PySlice(samples, first, first + count)));
      forall i :: 0 <= i < |order| && !(start <= i < start + count) ==>
        (order[i] in after <==> order[i] in data) && (order[i] in data ==> after[order[i]] == data[order[i]])
  {
    var pairs := Zip(PySlice(order, start, start + count), PySlice(samples, first, first + count));
    assert |pairs| == count;
    forall a, b | 0 <= a < b < |pairs| ensures pairs[a].0 != pairs[b].0 {
      assert pairs[a].0 == order[start + a] && pairs[b].0 == order[start + b];
    }
    AssignSpec(data, pairs);
    forall i | 0 <= i < |order| && !(start <= i < start + count)
      ensures forall k :: 0 <= k < |pairs| ==> pairs[k].0 != order[i]
    {
      forall k | 0 <= k < |pairs| ensures pairs[k].0 != order[i] {
        assert pairs[k].0 == order[start + k];
      }
    }
  }

  /**
   * Clearing the wells getSamplePositions reports for a sample empties
   * exactly the wells holding that sample.
   */
  lemma SamplePositionsClear(plate: Plate, s: Sample)
    requires plate.Valid()
    ensures ClearAt(plate.data, plate.GetSamplePositions(s)) == Cleared(plate.data, s)
  {
    var positions := plate.GetSamplePositions(s);
    ClearAtLabels(plate.data, positions);
    forall l | l in plate.data ensures l in PositionLabels(positions) <==> plate.data[l] == s {
      if plate.data[l] == s {
        HolderIsReported(plate, s, l);
      }
      if l in PositionLabels(positions) {
        ReportedHoldsSample(plate, s, l);
      }
    }
  }

  lemma HolderIsReported(plate: Plate, s: Sample, l: string)
    requires plate.Valid() && l in plate.data && plate.data[l] == s
    ensures l in PositionLabels(plate.GetSamplePositions(s))
  {
    var i :| 0 <= i < |plate.wellOrder| && plate.wellOrder[i] == l;
    assert plate.Held(i) == s;
    var ps := plate.PositionsOf(s);
    PositionsOfComplete(plate, s, i);
    var k :| 0 <= k < |ps| && ps[k] == Position(plate, i);
    var positions := plate.GetSamplePositions(s);
    assert positions == Somes(ps);
    assert positions[k] == Some(Position(plate, i));
    assert PositionLabel(positions[k].value) == Ok(l);
  }

  lemma ReportedHoldsSample(plate: Plate, s: Sample, l: string)
    requires plate.Valid() && l in PositionLabels(plate.GetSamplePositions(s))
    ensures l in plate.data && plate.data[l] == s
  {
    var positions, ps := plate.GetSamplePositions(s), plate.PositionsOf(s);
    var k :| 0 <= k < |positions| && positions[k].Some? && PositionLabel(positions[k].value) == Ok(l);
    assert positions != [None];
    assert positions[k] == Some(ps[k]);
  }

  /** Every occupied well is listed by getUsedWells. */
  lemma UsedWellsComplete(plate: Plate, i: nat)
    requires i < |plate.wellOrder| && plate.Held(i) != null
    ensures Position(plate, i) in plate.GetUsedWells()
  {
    var u := plate.UsedIndices();
    assert i in u;
    var k :| 0 <= k < |u| && u[k] == i;
    assert plate.GetUsedWells()[k] == Position(plate, i);
  }

  /** Every empty well is listed by getFreeWells. */
  lemma FreeWellsComplete(plate: Plate, i: nat)
    requires i < |plate.wellOrder| && plate.wellOrder[i] in plate.data && plate.Held(i) == null
    ensures Position(plate, i) in plate.GetFreeWells()
  {
    var u := plate.FreeIndices();
    assert i in u;
    var k :| 0 <= k < |u| && u[k] == i;
    assert plate.GetFreeWells()[k] == Position(plate, i);
  }

  /** Every well holding `s` is listed among its positions. */
  lemma PositionsOfComplete(plate: Plate, s: Sample?, i: nat)
    requires i < |plate.wellOrder| && plate.wellOrder[i] in plate.data && plate.Held(i) == s
    ensures Position(plate, i) in plate.PositionsOf(s)
  {
    var u := plate.IndicesOf(s);
    assert i in u;
    var k :| 0 <= k < |u| && u[k] == i;
    assert plate.PositionsOf(s)[k] == Position(plate, i);
  }

  /** The content of every occupied well is among getSamples. */
  lemma SamplesComplete(plate: Plate, i: nat)
    requires i < |plate.wellOrder| && plate.Held(i) != null
    ensures plate.Held(i) in plate.GetSamples()
  {
    var u := plate.UsedIndices();
    assert i in u;
    var k :| 0 <= k < |u| && u[k] == i;
    assert plate.GetSamples()[k] == plate.Held(i);
  }

  /** The project of every occupied well is among the plate's projects. */
  lemma ProjectsComplete(plate: Plate, i: nat)
    requires i < |plate.wellOrder| && plate.Held(i) != null
    ensures plate.Held(i).project in plate.Projects()
  {
    SamplesComplete(plate, i);
    var samples := plate.GetSamples();
    var j :| 0 <= j < |samples| && samples[j] == plate.Held(i);
    assert Owners(samples)[j] == plate.Held(i).project;
  }
}
