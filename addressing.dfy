/**
 * Well addressing: the labels of a plate's wells ("C7" is row C, column 7)
 * and the order in which a plate lists them. A vertical plate lists its wells
 * column by column (A1, B1, C1, ...), a horizontal plate row by row
 * (A1, A2, A3, ...).
 */
module Addressing {
  import opened PySeq
  import opened Decimal

  const RowLetters: string := "ABCDEFGHIJKLMNOPQRSTUVWXYZ"

  lemma RowLettersDistinct()
    ensures Distinct(RowLetters)
  {
    forall i, j | 0 <= i < j < 26 ensures RowLetters[i] != RowLetters[j] {
      assert RowLetters[i] as int == 65 + i;
      assert RowLetters[j] as int == 65 + j;
    }
  }

  /** The number of letters `row_letters[:rows]` keeps: at most 26, and fewer for a negative bound. */
  function RowCount(rows: int): (n: nat)
    ensures n <= 26
    ensures 0 <= rows <= 26 ==> n == rows
    ensures n == |PySlice(RowLetters, 0, rows)|
  {
    SliceBound(26, rows)
  }

  /** The number of columns `range(columns)` yields. */
  function ColumnCount(columns: int): (n: nat)
    ensures columns >= 0 ==> n == columns
    ensures columns < 0 ==> n == 0
  {
    if columns < 0 then 0 else columns
  }

  /** The label of the well in row `r` (0-based) and column `c` (0-based): letter, then `c + 1`. */
  function Label(r: nat, c: nat): (s: string)
    requires r < 26
    ensures |s| >= 2 && s[0] == RowLetters[r] && AllDigits(s[1..]) && s[1] != '0'
  {
    [RowLetters[r]] + NatToString(c + 1)
  }

  /** Two wells never share a label. */
  lemma LabelInjective(r1: nat, c1: nat, r2: nat, c2: nat)
    requires r1 < 26 && r2 < 26
    ensures Label(r1, c1) == Label(r2, c2) ==> r1 == r2 && c1 == c2
  {
    if Label(r1, c1) == Label(r2, c2) {
      RowLettersDistinct();
      assert RowLetters[r1] == Label(r1, c1)[0];
      assert NatToString(c1 + 1) == Label(r1, c1)[1..];
      assert NatToString(c2 + 1) == Label(r2, c2)[1..];
      NatToStringInjective(c1 + 1, c2 + 1);
    }
  }

  lemma MulNonNegative(a: nat, b: nat)
    ensures a * b >= 0
  {
  }

  /** Quotient and remainder are determined by the equation they satisfy. */
  lemma DivModUnique(k: int, n: int, q: int, r: int)
    requires n > 0 && 0 <= r < n && k == q * n + r
    ensures k / n == q && k % n == r
  {
    var q', r' := k / n, k % n;
    assert k == q' * n + r';
    var d := q - q';
    assert d * n == r' - r by {
      assert d * n == q * n - q' * n;
    }
  }

  lemma DivBelow(k: nat, n: nat, m: nat)
    requires n > 0 && k < m * n
    ensures k / n < m
  {
    var q := k / n;
    assert k == q * n + k % n;
    if q >= m {
      MulNonNegative(q - m, n);
    }
  }

  /** The row of the `k`-th well in the well order. */
  function RowAt(nr: nat, nc: nat, vertical: bool, k: nat): (r: nat)
    requires k < nr * nc
    ensures r < nr
  {
    if vertical then k % nr else (DivBelow(k, nc, nr); k / nc)
  }

  /** The column of the `k`-th well in the well order. */
  function ColumnAt(nr: nat, nc: nat, vertical: bool, k: nat): (c: nat)
    requires k < nr * nc
    ensures c < nc
  {
    if vertical then (DivBelow(k, nr, nc); k / nr) else k % nc
  }

  /** The place of the well at (r, c) in the well order: column-major when vertical, row-major otherwise. */
  function IndexAt(nr: nat, nc: nat, vertical: bool, r: nat, c: nat): nat {
    if vertical then c * nr + r else r * nc + c
  }

  /**
   * `position_string_list`: every label of the plate, column by column for a
   * vertical plate and row by row for a horizontal one.
   */
  function WellOrder(rows: int, columns: int, vertical: bool): (order: seq<string>)
    ensures |order| == RowCount(rows) * ColumnCount(columns)
  {
    var nr, nc := RowCount(rows), ColumnCount(columns);
    seq(nr * nc, k requires 0 <= k < nr * nc => Label(RowAt(nr, nc, vertical, k), ColumnAt(nr, nc, vertical, k)))
  }

  /** A plate of `rows` x `columns` wells, `rows` at most 26, lists exactly `rows * columns` labels. */
  lemma WellOrderLength(rows: int, columns: int, vertical: bool)
    requires 0 <= rows <= 26 && 0 <= columns
    ensures |WellOrder(rows, columns, vertical)| == rows * columns
  {
  }

  /** Converting between a place in the well order and (row, column) works both ways. */
  lemma IndexAtRoundTrip(nr: nat, nc: nat, vertical: bool, r: nat, c: nat)
    requires r < nr && c < nc
    ensures IndexAt(nr, nc, vertical, r, c) < nr * nc
    ensures RowAt(nr, nc, vertical, IndexAt(nr, nc, vertical, r, c)) == r
    ensures ColumnAt(nr, nc, vertical, IndexAt(nr, nc, vertical, r, c)) == c
  {
    var k := IndexAt(nr, nc, vertical, r, c);
    if vertical {
      assert k < nr * nc by {
        MulNonNegative(nc - 1 - c, nr);
        assert nc * nr == c * nr + nr + (nc - 1 - c) * nr;
      }
      DivModUnique(k, nr, c, r);
    } else {
      assert k < nr * nc by {
        MulNonNegative(nr - 1 - r, nc);
        assert nr * nc == r * nc + nc + (nr - 1 - r) * nc;
      }
      DivModUnique(k, nc, r, c);
    }
  }

  lemma PlaceRoundTrip(nr: nat, nc: nat, vertical: bool, k: nat)
    requires k < nr * nc
    ensures IndexAt(nr, nc, vertical, RowAt(nr, nc, vertical, k), ColumnAt(nr, nc, vertical, k)) == k
  {
  }

  /** The well in row `r` and column `c` is listed at IndexAt(r, c): column-major or row-major order. */
  lemma WellOrderAt(rows: int, columns: int, vertical: bool, r: nat, c: nat)
    requires r < RowCount(rows) && c < ColumnCount(columns)
    ensures IndexAt(RowCount(rows), ColumnCount(columns), vertical, r, c) < |WellOrder(rows, columns, vertical)|
    ensures WellOrder(rows, columns, vertical)[IndexAt(RowCount(rows), ColumnCount(columns), vertical, r, c)] == Label(r, c)
  {
    IndexAtRoundTrip(RowCount(rows), ColumnCount(columns), vertical, r, c);
  }

  /** The labels of a plate are pairwise different. */
  lemma WellOrderDistinct(rows: int, columns: int, vertical: bool)
    ensures Distinct(WellOrder(rows, columns, vertical))
  {
    var nr, nc := RowCount(rows), ColumnCount(columns);
    var order := WellOrder(rows, columns, vertical);
    forall i, j | 0 <= i < j < |order| ensures order[i] != order[j] {
      LabelInjective(RowAt(nr, nc, vertical, i), ColumnAt(nr, nc, vertical, i),
                     RowAt(nr, nc, vertical, j), ColumnAt(nr, nc, vertical, j));
      PlaceRoundTrip(nr, nc, vertical, i);
      PlaceRoundTrip(nr, nc, vertical, j);
    }
  }

  /** A label is on the plate exactly when its row and column are within the plate's bounds. */
  lemma WellOrderContains(rows: int, columns: int, vertical: bool, r: nat, c: nat)
    requires r < 26
    ensures Label(r, c) in WellOrder(rows, columns, vertical) <==> r < RowCount(rows) && c < ColumnCount(columns)
  {
    var nr, nc := RowCount(rows), ColumnCount(columns);
    var order := WellOrder(rows, columns, vertical);
    if r < nr && c < nc {
      WellOrderAt(rows, columns, vertical, r, c);
    } else if Label(r, c) in order {
      var k :| 0 <= k < |order| && order[k] == Label(r, c);
      LabelInjective(r, c, RowAt(nr, nc, vertical, k), ColumnAt(nr, nc, vertical, k));
    }
  }

  /** Every entry of the well order is the label of a well within the bounds. */
  lemma WellOrderEntry(rows: int, columns: int, vertical: bool, k: nat)
    requires k < |WellOrder(rows, columns, vertical)|
    ensures exists r: nat, c: nat ::
      r < RowCount(rows) && c < ColumnCount(columns) && WellOrder(rows, columns, vertical)[k] == Label(r, c)
  {
    var nr, nc := RowCount(rows), ColumnCount(columns);
    assert WellOrder(rows, columns, vertical)[k] == Label(RowAt(nr, nc, vertical, k), ColumnAt(nr, nc, vertical, k));
  }

  /** An 8 x 12 vertical plate lists its first column first: A1, B1, C1, D1, E1, ... */
  lemma VerticalOrderExample()
    ensures WellOrder(8, 12, true)[..5] == ["A1", "B1", "C1", "D1", "E1"]
  {
    var v := WellOrder(8, 12, true);
    assert v[0] == Label(0, 0) == "A1";
    assert v[1] == Label(1, 0) == "B1";
    assert v[2] == Label(2, 0) == "C1";
    assert v[3] == Label(3, 0) == "D1";
    assert v[4] == Label(4, 0) == "E1";
  }

  /** An 8 x 12 horizontal plate lists its first row first: A1, A2, A3, ... */
  lemma HorizontalOrderExample()
    ensures WellOrder(8, 12, false)[..3] == ["A1", "A2", "A3"]
  {
    var h := WellOrder(8, 12, false);
    assert h[0] == Label(0, 0) == "A1";
    assert h[1] == Label(0, 1) == "A2";
    assert h[2] == Label(0, 2) == "A3";
  }

  /** The last of the 96 wells of an 8 x 12 vertical plate is H12. */
  lemma VerticalOrderLast()
    ensures WellOrder(8, 12, true)[95] == "H12"
  {
    assert NatToString(12) == "12" by {
      assert NatToString(12) == NatToString(1) + [DigitChar(2)];
    }
    DivModUnique(95, 8, 11, 7);
    assert WellOrder(8, 12, true)[95] == Label(7, 11) == "H12";
  }
}
