# Plate model (idea_utils)

This project models the plate-layout core of `idea_utils` in Dafny. That core is
`src/idea_utils/PlateModel.py`, and it has four parts:

- **Well addressing.** A plate has `rows` × `columns` wells labelled `A1`, `B1`, …
  They are ordered column by column on a vertical plate and row by row on a horizontal one.
  A `Position` is a plate together with an index into that order.
- **Samples and projects.** A `Sample` belongs to a `Project` and has a name and an
  optional number. A project keeps its samples in a list and can add or remove one.
- **The plate.** A plate maps each well label to a sample or to nothing. It supports
  `plate[key] = value`, lookups, the used and free wells, the samples and the
  projects on the plate, removing a sample or a project, and `addProject`. That last
  operation places a range of a project's samples into consecutive wells, or raises
  NotEnoughWells or WellNotFree.
- **The CSV plate file.** `outputCSV` and `saveToFile` write each plate as a header row
  followed by one row per well. `loadFromFile` reads such rows back into plates.
  Projects are shared across plates by name, and a new project is given a colour
  from `color_list`.

## Modules

| module | file | contents |
|---|---|---|
| `Wrappers` | `wrappers.dfy` | `Option` and `Result` |
| `PlateExceptions` | `wrappers.dfy` | the errors the code raises |
| `PySeq` | `pyseq.dfy` | the Python list operations the code relies on: negative indexing, slices, `list.index`, `dict.fromkeys`, and `pop` inside `enumerate` |
| `Decimal` | `decimal.dfy` | `str` and `int` on integers |
| `Addressing` | `addressing.dfy` | the well order a plate's constructor builds |
| `Registry` | `registry.dfy` | the `Sample` and `Project` classes |
| `Plates` | `plates.dfy` | `Position` (as a datatype over a plate) and the `Plate` class, whose `data` map its methods update in place |
| `PlateCsv` | `plate_csv.dfy` | the file dialect on values (see below) |
| `CsvProperties` | `csv_properties.dfy` | the save/load round trip and the loader's invariants |
| `PlateStore` | `plate_store.dfy` | the same dialect on live objects |

### The CSV dialect on values

The `PlateCsv` module describes the file format without any objects:

- A plate's rows are a function of a `Snapshot`: its name, its geometry and, for each well in order, the project name, sample name and number stored there.
- Loading is a fold (`LoadRows`) over a `LoadState`. In that state, projects are numbered in order of creation, and the numbers stand for object identity.

### The CSV dialect on objects

`PlateStore` implements the same format on live objects:

- Its writer methods walk `Plate` objects.
- Its loader methods build `Plate`, `Project` and `Sample` objects.
- The loader is proved to build objects that `Represents` the value computed by `LoadRows`, so the value-level theorems carry over to the objects.

### Main results

- `SaveLoadRoundTrip`: loading what `saveToFile` writes gives back every plate's name, geometry and well contents.
- `SaveAndReload`: the same holds when saving and loading are done on objects.
- `Plate.AddProject`: it is proved against `AddProjectOutcome`.
- `AddProjectPlacesContiguously`: a successful `addProject` fills consecutive wells in sample order and changes nothing else.

## Model

| member | source | states |
|---|---|---|
| `Addressing.RowLettersDistinct` | src/idea_utils/PlateModel.py:18 | the 26 row letters are pairwise distinct, so `row_letters.index` recovers a row |
| `Addressing.RowCount` | src/idea_utils/PlateModel.py:111 | the number of row letters `row_letters[:rows]` yields: `rows` when 0 ≤ rows ≤ 26, never more than 26 |
| `Addressing.ColumnCount` | src/idea_utils/PlateModel.py:111 | `range(columns)` yields `columns` values, none when negative |
| `Addressing.LabelInjective` | src/idea_utils/PlateModel.py:111-113 | two wells with the same label have the same row and column |
| `Addressing.Label` | src/idea_utils/PlateModel.py:111-113 | a well label is its row letter followed by the column number plus one, written in decimal without a leading zero |
| `Addressing.WellOrder` | src/idea_utils/PlateModel.py:110-113 | the well order has one label per (row letter, column) pair |
| `Addressing.WellOrderLength` | src/idea_utils/PlateModel.py:122-124 | for 0 ≤ rows ≤ 26 and columns ≥ 0 the order has `rows * columns` wells, which is `number_of_wells` |
| `Addressing.IndexAtRoundTrip` | src/idea_utils/PlateModel.py:110-113 | the index of (row, column) in either ordering is in range and maps back to that row and column |
| `Addressing.PlaceRoundTrip` | src/idea_utils/PlateModel.py:110-113 | every index in the order is the index of its own row and column |
| `Addressing.WellOrderAt` | src/idea_utils/PlateModel.py:110-113 | the label of (row, column) sits at its index in the order, column-major when vertical and row-major otherwise |
| `Addressing.WellOrderDistinct` | src/idea_utils/PlateModel.py:110-114 | the labels are pairwise distinct for every geometry, so the `data` dict has one key per well |
| `Addressing.WellOrderContains` | src/idea_utils/PlateModel.py:110-113 | a label is on the plate exactly when its row and column are within the geometry |
| `Addressing.WellOrderEntry` | src/idea_utils/PlateModel.py:110-113 | every entry of the order is the label of some in-range row and column |
| `Addressing.VerticalOrderExample` | src/idea_utils/PlateModel.py:111 | a vertical 8×12 plate starts A1, B1, C1, D1, E1 |
| `Addressing.HorizontalOrderExample` | src/idea_utils/PlateModel.py:113 | a horizontal 8×12 plate starts A1, A2, A3 |
| `Addressing.VerticalOrderLast` | src/idea_utils/PlateModel.py:111 | the 96th well of a vertical 8×12 plate is H12 |
| `Decimal.NatToString` | src/idea_utils/PlateModel.py:111 | the decimal text of a natural number is a non-empty run of digits with no leading zero |
| `Decimal.ParseNat` | src/idea_utils/PlateModel.py:34 | a digit string parses, and nothing else does |
| `Decimal.IntToString` | src/idea_utils/PlateModel.py:205 | `str(n)` starts with '-' exactly when n is negative, and is the natural-number text otherwise |
| `Decimal.ParseInt` | src/idea_utils/PlateModel.py:241-242 | `int()` succeeds exactly on a non-empty digit string, or a '+' or '-' followed by one; the value is the digits' value, negated after '-' |
| `Decimal.NatRoundTrip` | src/idea_utils/PlateModel.py:241-242 | parsing the decimal text of n gives n back |
| `Decimal.IntRoundTrip` | src/idea_utils/PlateModel.py:241-242 | `int(str(n)) == n` for every integer, negative ones included |
| `Decimal.NatToStringInjective` | src/idea_utils/PlateModel.py:111-113 | distinct column numbers have distinct texts |
| `PySeq.PyIndex` | src/idea_utils/PlateModel.py:38 | list indexing succeeds exactly for −len ≤ i < len; a negative index counts from the end |
| `PySeq.PySlice` | src/idea_utils/PlateModel.py:191 | a Python slice: the plain slice when bounds are in order and in range, empty when they cross; otherwise each bound is clamped or counted from the end, the length is the distance between the two normalised bounds (0 when they cross), and each element comes from its place in the list |
| `PySeq.SliceDistinct` | src/idea_utils/PlateModel.py:191 | a slice of a list without repeats has no repeats |
| `PySeq.FirstIndex` | src/idea_utils/PlateModel.py:42 | `list.index` fails exactly when the element is absent, and otherwise returns its first occurrence |
| `PySeq.FirstIndexOfDistinct` | src/idea_utils/PlateModel.py:42 | in a list without repeats, `index` of the i-th element is i |
| `PySeq.Dedup` | src/idea_utils/PlateModel.py:120 | `dict.fromkeys` keeps each element once and keeps exactly the elements of the input |
| `PySeq.DedupOrder` | src/idea_utils/PlateModel.py:120 | `dict.fromkeys` keeps elements in order of first occurrence |
| `PySeq.PopDuringEnumerate` | src/idea_utils/PlateModel.py:85-87 | popping matches while enumerating never lengthens the list and keeps every element other than the one removed |
| `PySeq.PopDuringEnumerateRemovesAll` | src/idea_utils/PlateModel.py:85-87 | when no two copies are adjacent, every copy is removed |
| `PySeq.PopDuringEnumerateSkips` | src/idea_utils/PlateModel.py:85-87 | with two adjacent copies, the second is skipped and stays |
| `Registry.Sample.constructor` | src/idea_utils/PlateModel.py:53-59 | a sample stores its project, name and number |
| `Registry.Project.constructor` | src/idea_utils/PlateModel.py:64-71 | a project with n fresh samples named Sample1…Samplen, numbered 1…n, owned by the project, none when n is not positive |
| `Registry.Project.AddSample` | src/idea_utils/PlateModel.py:77-81 | the sample is appended; a sample without a number is numbered with the new sample count |
| `Registry.Project.RemoveSample` | src/idea_utils/PlateModel.py:84-88 | the list after popping during enumeration, which removes the sample except where copies are adjacent |
| `Plates.PositionLabel` | src/idea_utils/PlateModel.py:36-38 | a position's label exists exactly when its index is in Python range: the entry at that index, counted from the end when negative; IndexError otherwise |
| `Plates.PositionRow` | src/idea_utils/PlateModel.py:28-30 | IndexError when the label does not exist; otherwise ValueError exactly when the label's first letter is not a row letter, and else the index of that letter (0 for an empty label, as `''` is found at index 0) |
| `Plates.PositionColumn` | src/idea_utils/PlateModel.py:32-34 | IndexError when the label does not exist; otherwise ValueError exactly when the text after the first character is not an integer, and else that integer minus one |
| `Plates.FromString` | src/idea_utils/PlateModel.py:40-43 | succeeds exactly for labels on the plate, giving an in-range position whose label is that string; ValueError otherwise |
| `Plates.FromRowCol` | src/idea_utils/PlateModel.py:45-48 | a row outside −26..25 raises IndexError |
| `Plates.LabelRow` | src/idea_utils/PlateModel.py:28-30 | the row property of a well recovers its row letter's index |
| `Plates.LabelColumn` | src/idea_utils/PlateModel.py:32-34 | the column property of a well recovers its zero-based column |
| `Plates.PositionCoordinates` | src/idea_utils/PlateModel.py:28-38 | on a plate built by the constructor, a position's label, row and column agree with where its index lies in the order |
| `Plates.FromStringRoundTrip` | src/idea_utils/PlateModel.py:40-43 | `from_string` of the i-th label is the position with index i |
| `Plates.FromRowColInRange` | src/idea_utils/PlateModel.py:45-48 | for an in-range row and column, `from_rowcol` succeeds, and its position has that label, row and column |
| `Plates.FromRowColSucceeds` | src/idea_utils/PlateModel.py:45-48 | `from_rowcol` succeeds exactly when the row letter (negative rows counted from Z) and a non-negative column are on the plate |
| `Plates.LabelOnPlate` | src/idea_utils/PlateModel.py:40-43 | a letter-and-number label is on the plate exactly when its row and column lie within the geometry |
| `Plates.NegativeColumnOffPlate` | src/idea_utils/PlateModel.py:47 | a negative column gives a label that is not on the plate |
| `Plates.WellsWhere` | src/idea_utils/PlateModel.py:147-151 | the indices, in well order, of exactly the wells whose content passes the test |
| `Plates.Cleared` | src/idea_utils/PlateModel.py:173-180 | same wells; every well that held the sample is emptied, no well holds it afterwards, and every other well is unchanged |
| `Plates.ClearAt` | src/idea_utils/PlateModel.py:177-179 | emptying the wells at some positions keeps the wells and only ever empties one; `Plates.ClearAtLabels` says which |
| `Plates.ClearAtLabels` | src/idea_utils/PlateModel.py:177-179 | emptying the wells at a list of positions empties exactly the labels listed and nothing else |
| `Plates.ClearedAll` | src/idea_utils/PlateModel.py:160-161 | same wells; every well holding one of the samples is emptied, none holds one afterwards, and wells holding other samples are unchanged |
| `Plates.Zip` | src/idea_utils/PlateModel.py:194 | pairs the i-th well with the i-th sample, as long as the shorter list |
| `Plates.Assign` | src/idea_utils/PlateModel.py:194-195 | assigning pairs in turn keeps every well and leaves the last pair's sample in its well; `Plates.AssignSpec` states the rest |
| `Plates.AssignSpec` | src/idea_utils/PlateModel.py:194-195 | assigning pairs with distinct wells puts each sample in its well and leaves other wells alone |
| `Plates.FirstOccupied` | src/idea_utils/PlateModel.py:199 | the first target well that holds a sample, or none when all are free |
| `Plates.EffectiveLast` | src/idea_utils/PlateModel.py:184-185 | the last sample index is clamped to `sample_count - 1` when missing or too large |
| `Plates.AddProjectOutcome` | src/idea_utils/PlateModel.py:182-200 | a failed `addProject` leaves the map as it was |
| `Plates.AddProjectOverflows` | src/idea_utils/PlateModel.py:189-190 | a range past `number_of_wells` raises NotEnoughWells with the sample count and the wells left |
| `Plates.AddProjectCollides` | src/idea_utils/PlateModel.py:198-200 | a fitting range with a taken well raises WellNotFree naming the first taken target well |
| `Plates.AddProjectFails` | src/idea_utils/PlateModel.py:189-200 | `addProject` fails exactly when the range overflows or a target well is taken |
| `Plates.AddProjectSucceeds` | src/idea_utils/PlateModel.py:191-195 | otherwise the chosen slice of samples is zipped into the target wells |
| `Plates.AddProjectPlacesContiguously` | src/idea_utils/PlateModel.py:191-195 | after a successful `addProject`, sample first+k sits in well start+k, and every other well is unchanged |
| `Plates.PlacedInRange` | src/idea_utils/PlateModel.py:194-195 | zipping fills the wells from `start` on with the samples from `first` on, in order |
| `Plates.UntouchedOutsideRange` | src/idea_utils/PlateModel.py:194-195 | zipping leaves every well outside the range as it was |
| `Plates.Plate.constructor` | src/idea_utils/PlateModel.py:104-116 | a new plate has the given geometry, its standard well order as keys, and every well empty |
| `Plates.Plate.NumberOfWells` | src/idea_utils/PlateModel.py:122-124 | for 0 ≤ rows ≤ 26 and columns ≥ 0, `number_of_wells` is the number of wells in the order |
| `Plates.Plate.Positions` | src/idea_utils/PlateModel.py:126-128 | one position per well, and the i-th is the position with index i |
| `Plates.Plate.GetItem` | src/idea_utils/PlateModel.py:141-145 | a lookup succeeds exactly for labels on the plate and returns that well's content; KeyError otherwise |
| `Plates.Plate.SetItem` | src/idea_utils/PlateModel.py:131-138 | `plate[key] = value`: KeyError for a label not on the plate, TypeError for a value that is neither a sample nor None; on success only that well changes |
| `Plates.Plate.GetUsedWells` | src/idea_utils/PlateModel.py:147-148 | positions of this plate holding a sample, in well order |
| `Plates.Plate.GetFreeWells` | src/idea_utils/PlateModel.py:150-151 | positions of this plate that are empty, in well order |
| `Plates.Plate.GetSamples` | src/idea_utils/PlateModel.py:153-154 | the samples of the used wells, one per used well, in well order |
| `Plates.Plate.Projects` | src/idea_utils/PlateModel.py:118-120 | the owners of the plate's samples, each listed once |
| `Plates.Plate.PositionsOf` | src/idea_utils/PlateModel.py:166 | positions holding the given sample, in well order |
| `Plates.Plate.GetSamplePositions` | src/idea_utils/PlateModel.py:164-169 | `[None]` exactly when the sample is None or not on the plate, otherwise the positions that hold it |
| `Plates.Plate.RemoveSample` | src/idea_utils/PlateModel.py:173-180 | the plate's map loses the sample from every well and nothing else changes |
| `Plates.Plate.ClearPositions` | src/idea_utils/PlateModel.py:177-179 | each listed position's well is emptied in turn |
| `Plates.Plate.RemoveProject` | src/idea_utils/PlateModel.py:157-162 | when the project is on the plate, all its samples leave the plate, otherwise nothing changes; the project's own list is untouched |
| `Plates.Plate.RemoveIfListed` | src/idea_utils/PlateModel.py:158-161 | the loop over the projects removes the project's samples exactly when it is listed |
| `Plates.Plate.RemoveSamples` | src/idea_utils/PlateModel.py:160-161 | removing each sample of a list clears all of them from the plate |
| `Plates.Plate.AddProject` | src/idea_utils/PlateModel.py:182-200 | error and new map are exactly `AddProjectOutcome` for the plate's order, `number_of_wells`, and the project's samples |
| `Plates.Plate.PlacePairs` | src/idea_utils/PlateModel.py:194-195 | the wells are assigned pair by pair, giving `Assign` of the pairs |
| `Plates.UsedFreePartition` | src/idea_utils/PlateModel.py:147-151 | every well is in exactly one of the used and the free wells, and the two counts add up to the plate size |
| `Plates.ProjectsInFirstOccurrenceOrder` | src/idea_utils/PlateModel.py:118-120 | the plate's projects are the deduplicated owners, ordered by the first well each owns |
| `Plates.SamplePositionsClear` | src/idea_utils/PlateModel.py:173-180 | clearing the reported positions of a sample removes exactly that sample from the plate |
| `Plates.HolderIsReported` | src/idea_utils/PlateModel.py:164-169 | every well holding the sample is among its reported positions |
| `Plates.ReportedHoldsSample` | src/idea_utils/PlateModel.py:164-169 | every reported position holds the sample |
| `Plates.UsedWellsComplete` | src/idea_utils/PlateModel.py:147-148 | every occupied well is among the used wells |
| `Plates.FreeWellsComplete` | src/idea_utils/PlateModel.py:150-151 | every empty well is among the free wells |
| `Plates.PositionsOfComplete` | src/idea_utils/PlateModel.py:166 | every well holding the sample is listed |
| `Plates.SamplesComplete` | src/idea_utils/PlateModel.py:153-154 | every sample in a well is among the plate's samples |
| `Plates.ProjectsComplete` | src/idea_utils/PlateModel.py:118-120 | the owner of every sample in a well is among the plate's projects |
| `PlateCsv.HeaderRow` | src/idea_utils/PlateModel.py:205 | the header row has nine fields and starts with `Index` |
| `PlateCsv.WellRow` | src/idea_utils/PlateModel.py:209-215 | a well row has five fields, its first is not `Index`, and its second is the well label |
| `PlateCsv.PlateRows` | src/idea_utils/PlateModel.py:204-217 | one header row, then one row per well: as many rows as wells plus one |
| `PlateCsv.PlateRowsEntry` | src/idea_utils/PlateModel.py:208-217 | the row after the header for the k-th well is that well's row, numbered k |
| `PlateCsv.WriteAll` | src/idea_utils/PlateModel.py:225-226 | the file starts with the first plate's header row |
| `PlateCsv.NewPlateRec` | src/idea_utils/PlateModel.py:248 | a loaded plate starts with the standard well order as keys, every well empty |
| `PlateCsv.ParseHeader` | src/idea_utils/PlateModel.py:239-244 | name defaults to `Unnamed Plate`, vertical unless the field is `False`; rows and columns are the parsed integers; IndexError for a short row and ValueError for a non-integer field, in the order the code reads them |
| `PlateCsv.NumberField` | src/idea_utils/PlateModel.py:263 | no number for a short row or a `-` field; otherwise the field's `int()` value, present exactly when it parses |
| `PlateCsv.Visible` | src/idea_utils/PlateModel.py:278 | no project is on an empty list of plates |
| `PlateCsv.VisibleMembers` | src/idea_utils/PlateModel.py:278 | a project is among those on the plates exactly when some well of some plate holds one of its samples |
| `PlateCsv.FindProject` | src/idea_utils/PlateModel.py:277-281 | a project on some plate with that name, or none when no project on a plate has it |
| `PlateCsv.ProjectsFor` | src/idea_utils/PlateModel.py:288-289 | the project list grows by at most one |
| `PlateCsv.ProjectIdFor` | src/idea_utils/PlateModel.py:283-289 | the chosen project is in the grown list |
| `PlateCsv.Place` | src/idea_utils/PlateModel.py:290-292 | storing a row's sample succeeds exactly when the well is on the newest plate; KeyError otherwise |
| `PlateCsv.LoadLine` | src/idea_utils/PlateModel.py:253-292 | an `Index` row adds one plate; any other row keeps the plate count |
| `PlateCsv.Continue` | src/idea_utils/PlateModel.py:251 | the first error stops the loop and is the result |
| `PlateCsv.LoadRows` | src/idea_utils/PlateModel.py:239-295 | an empty file raises IndexError; a load that succeeds has at least one plate |
| `CsvProperties.HeaderRoundTrip` | src/idea_utils/PlateModel.py:239-244 | reading a written header gives back the plate's name and geometry |
| `CsvProperties.ContinueAppend` | src/idea_utils/PlateModel.py:251 | loading a + b is loading a and then b |
| `CsvProperties.NumberFieldRoundTrip` | src/idea_utils/PlateModel.py:263 | a written number is not `-` and reads back as itself |
| `CsvProperties.PlaceFacts` | src/idea_utils/PlateModel.py:288-292 | storing a row's sample changes only the newest plate, in only that well, which then reads as that project, sample and number |
| `CsvProperties.PlaceSharesProjects` | src/idea_utils/PlateModel.py:277-292 | a project already on a plate is reused and gains the sample; otherwise a new project with the next colour is created with it |
| `CsvProperties.WellRowLoads` | src/idea_utils/PlateModel.py:259-292 | reading a written well row restores that well's content and changes nothing else |
| `CsvProperties.WellRowsLoad` | src/idea_utils/PlateModel.py:251-292 | after reading the first k well rows, those wells hold their written content and the rest stay empty |
| `CsvProperties.VisibleAddEmpty` | src/idea_utils/PlateModel.py:255-257 | an empty new plate adds no project to those on plates |
| `CsvProperties.HeaderKeeps` | src/idea_utils/PlateModel.py:253-258 | a new plate keeps the loader's invariants |
| `CsvProperties.VisibleAfterStore` | src/idea_utils/PlateModel.py:292 | storing a sample adds at most its project to those on plates |
| `CsvProperties.FindProjectIsTheOnly` | src/idea_utils/PlateModel.py:277-281 | with names unique, `findProject` returns the one project of that name, whatever the iteration order |
| `CsvProperties.PlaceKeepsNamesUnique` | src/idea_utils/PlateModel.py:277-292 | the projects on plates keep pairwise distinct names after each stored sample |
| `CsvProperties.LoadLineKeeps` | src/idea_utils/PlateModel.py:251-292 | each row keeps the loader's invariants |
| `CsvProperties.ContinueKeeps` | src/idea_utils/PlateModel.py:251 | the loop keeps the loader's invariants |
| `CsvProperties.LoadRowsInvariants` | src/idea_utils/PlateModel.py:239-295 | any loaded file refers only to known projects, and the projects on its plates have distinct names |
| `CsvProperties.HeaderLoads` | src/idea_utils/PlateModel.py:253-258 | a written header row reads back as a new empty plate of the same geometry |
| `CsvProperties.EmptyPlateFills` | src/idea_utils/PlateModel.py:259-292 | reading a plate's written well rows into its empty plate restores its whole view |
| `CsvProperties.MatchingPlateFills` | src/idea_utils/PlateModel.py:259-292 | reading a plate's well rows into an empty plate with its geometry and well order restores its whole view |
| `CsvProperties.PlateLoads` | src/idea_utils/PlateModel.py:204-217 | reading one written plate appends a plate whose view is the written one and leaves earlier plates alone |
| `CsvProperties.SaveLoadRoundTrip` | src/idea_utils/PlateModel.py:222-295 | loading what `saveToFile` writes succeeds with one plate per saved plate, each with its name, geometry and well contents |
| `CsvProperties.AppendedPlateLoads` | src/idea_utils/PlateModel.py:225-226 | appending a plate to the file keeps the earlier plates' views and adds its own |
| `CsvProperties.FirstPlateLoads` | src/idea_utils/PlateModel.py:222-249 | a file written from one plate loads as that one plate |
| `CsvProperties.LoadOnePlate` | src/idea_utils/PlateModel.py:246-249 | a file of one plate loads as that plate |
| `CsvProperties.LoadRowsAppend` | src/idea_utils/PlateModel.py:225-226 | loading a longer file is loading the shorter one and continuing with the last plate's rows |
| `CsvProperties.MissingNumberFailsLoad` | src/idea_utils/PlateModel.py:263 | a sample without a number is written as an empty field, which makes loading raise ValueError |
| `CsvProperties.EmptyNameReadsAsEmpty` | src/idea_utils/PlateModel.py:264 | a sample named EMPTY reads back as an empty well |
| `PlateStore.OutputCsv` | src/idea_utils/PlateModel.py:204-218 | the rows written for a plate are exactly the rows of its snapshot |
| `PlateStore.SaveToFile` | src/idea_utils/PlateModel.py:222-227 | the rows of all plates, in order, taken from the snapshot of each plate |
| `PlateStore.OnPlatesAreOwners` | src/idea_utils/PlateModel.py:278 | the set comprehension over the plates' projects is the set of owners of the samples in their wells |
| `PlateStore.CountProjects` | src/idea_utils/PlateModel.py:289 | the number of distinct projects on the plates |
| `PlateStore.FindProjectNamed` | src/idea_utils/PlateModel.py:277-281 | a project on a plate with that name, or null when none has it |
| `PlateStore.FindIn` | src/idea_utils/PlateModel.py:278-281 | a member of the set with that name, or null when none has it |
| `PlateStore.OnPlateIff` | src/idea_utils/PlateModel.py:118-120 | a project is listed for a plate exactly when one of its wells holds one of its samples |
| `PlateStore.OnPlatesAreVisible` | src/idea_utils/PlateModel.py:278 | the projects on the loaded plates are the objects of the projects on plates in the value model |
| `PlateStore.NoneFound` | src/idea_utils/PlateModel.py:281 | a failed search on objects is a failed search on values |
| `PlateStore.FoundIsFound` | src/idea_utils/PlateModel.py:279-280 | the object found is the object of the project the value model finds |
| `PlateStore.NewProjectKeeps` | src/idea_utils/PlateModel.py:289 | a new empty project object corresponds to a new empty project record |
| `PlateStore.NewProjectChosen` | src/idea_utils/PlateModel.py:288-289 | when no project has the name, the value model adds a project with the colour indexed by the number of projects on plates |
| `PlateStore.FoundChosen` | src/idea_utils/PlateModel.py:283 | when a project has the name, the value model reuses that project |
| `PlateStore.ChooseProject` | src/idea_utils/PlateModel.py:283-289 | the project object used for a row corresponds to the one the value model picks or creates |
| `PlateStore.CreateProject` | src/idea_utils/PlateModel.py:288-289 | the new project object stands for the record the value model appends |
| `PlateStore.AddNewSample` | src/idea_utils/PlateModel.py:290-291 | the new sample corresponds to the record appended to its project |
| `PlateStore.PutSample` | src/idea_utils/PlateModel.py:292 | storing into the newest plate succeeds exactly when the well is on it; KeyError otherwise; on success the plates match the filled records |
| `PlateStore.AddAndPut` | src/idea_utils/PlateModel.py:290-292 | creating, registering and storing a sample matches the value model's step |
| `PlateStore.StoreSample` | src/idea_utils/PlateModel.py:283-292 | handling a well row on objects succeeds exactly when the value model's does, and the objects then represent its result |
| `PlateStore.NewPlate` | src/idea_utils/PlateModel.py:256 | a new plate object matches the new plate record |
| `PlateStore.PlateAppended` | src/idea_utils/PlateModel.py:257 | appending matching plates keeps the correspondence |
| `PlateStore.ReadHeader` | src/idea_utils/PlateModel.py:253-258 | an `Index` row on objects fails or succeeds as the value model's does, and on success appends a fresh plate that keeps the correspondence |
| `PlateStore.ReadWellRow` | src/idea_utils/PlateModel.py:259-292 | a well row on objects fails or succeeds as the value model's does, and on success keeps the correspondence |
| `PlateStore.ReadLine` | src/idea_utils/PlateModel.py:253-292 | one row on objects agrees with `LoadLine` |
| `PlateStore.ReadNext` | src/idea_utils/PlateModel.py:251-292 | one more loop iteration on objects agrees with the value model's loop |
| `PlateStore.ReadRows` | src/idea_utils/PlateModel.py:251-292 | the loop on objects fails with the value model's error or yields plates representing its result |
| `PlateStore.LoadFromRows` | src/idea_utils/PlateModel.py:231-295 | `loadFromFile` on rows fails exactly when `LoadRows` does, with the same error, and otherwise yields plates representing its result |
| `PlateStore.Reload` | src/idea_utils/PlateModel.py:231-295 | loading the rows written for some plates succeeds, with one plate per saved plate and each plate's snapshot as written |
| `PlateStore.SaveAndReload` | src/idea_utils/PlateModel.py:222-295 | saving plates and loading the file gives back as many plates, each with the same name, geometry and well contents |

## Left out

- `Project.createFromSampleList` (lines 90-98) reads a spreadsheet through `SampleListReader`. That reader is not part of this model.
- The plate rendering code (lines 299-425) draws with a plotting library and is not modelled.
- `src/idea_utils/PlateExceptions.py` is not part of this model. Its exceptions are the `PlateError` datatype: `NotEnoughWells` carries the two numbers the code passes, and `WellNotFree` carries the well label.
- File handling is not modelled. This covers opening files, `csv.writer` and `csv.reader`, and the quoting and escaping of fields. Files are modelled as sequences of rows of fields.
  - `csv.writer` writes an `int` as its decimal text and `None` as an empty field, and the model writes fields the same way.
- The `OrderedDict` base class of `Plate` is not modelled. The code keeps its wells in the separate `data` dict.
- `data` is a `map` in the model. Iteration over it follows `wellOrder`, which is the order in which the constructor inserted the keys. Later assignments only change values.
- `int()` is modelled for an optional sign followed by ASCII digits. Surrounding whitespace, underscores and non-ASCII digits are not accepted by the model.
- Python's dynamic typing is fixed to the types the code expects. Each choice below leaves out the other values Python would accept:
  - A key of `plate[key]` is a label or a `Position` (`WellKey`).
  - The value assigned is a sample, `None`, or something else that raises TypeError (`WellValue`).
  - A plate's `vertical` is a `bool`. The writer stores `str(vertical)` (line 205), and the loader reads only `False` as horizontal (line 243). A non-bool false value such as `0` would be written as `0` and read back as vertical, so the code's own round trip fails there. The model does not cover that case.
  - A sample's `project` is never `None`. With `None`, `outputCSV` would raise AttributeError at line 212. The model does not cover that error.
  - Plate, project and sample names are strings. A `None` name would be written as an empty field and read back as the empty string. The model does not cover that case.
  - A sample's `number` is an integer or `None` (`Option<int>`). Other values are not modelled.
- `findProject` iterates over a Python set, whose order is unspecified.
  - `PlateCsv.FindProject` scans project numbers in increasing order, and `PlateStore.FindIn` picks an arbitrary match.
  - The two agree because the projects on plates always have distinct names (`CsvProperties.PlaceKeepsNamesUnique`, `CsvProperties.FindProjectIsTheOnly`).
- `Project.removeSample`: the code pops inside `enumerate`, which skips the element after each removed one. The model follows the code, so an adjacent second copy of a sample stays in the list (`PySeq.PopDuringEnumerateSkips`).
- `Plates.Plate.NumberOfWells` states that `number_of_wells` equals the number of wells only for 0 ≤ rows ≤ 26 and columns ≥ 0.
  - With more than 26 rows, `row_letters[:rows]` stops at Z while `number_of_wells` is still `rows * columns`.
  - `Plates.Plate.AddProject` uses `number_of_wells` exactly as the code does.
- `Plates.AddProjectPlacesContiguously` requires a non-negative start and first sample, and at least one sample chosen.
  - With negative slice bounds, Python counts from the end of the list.
  - `Plates.Plate.AddProject` itself covers every case through `AddProjectOutcome`.
- `Plates.FromRowCol` states only the IndexError case in its own contract. Its success condition is proved separately in `Plates.FromRowColSucceeds` and `Plates.FromRowColInRange`.
- `PlateStore.ReadHeader`, `PlateStore.ReadLine`, `PlateStore.ReadNext` and `PlateStore.ReadRows` state only that the newest plate object is fresh. They do not state this for every plate they return.
- `PlateStore.SaveAndReload` and `CsvProperties.SaveLoadRoundTrip` require every stored sample to have a number and no project or sample to be named `EMPTY`. The code itself does not round-trip other plates:
  - `CsvProperties.MissingNumberFailsLoad` shows that a missing number makes loading raise.
  - `CsvProperties.EmptyNameReadsAsEmpty` shows that an `EMPTY` name reads back as an empty well.
- The round trip restores names, numbers and sharing of projects by name. It does not restore object identity, and it does not restore a project's colour, which the file does not store. Projects are recoloured from `color_list` on load.
