/** What cleaning guarantees about every row and column of the table. */
module CleanProperties {
  import opened Cells
  import opened Stints
  import opened Table

  // Means.

  /** A column has no mean exactly when it holds no number at all. */
  lemma {:induction false} NoMeanIffNoNumber(cells: seq<Cell>)
    ensures Mean(cells).None? <==> forall i :: 0 <= i < |cells| ==> !cells[i].Num?
  {
    if |cells| > 0 {
      var init := cells[..|cells| - 1];
      NoMeanIffNoNumber(init);
      assert forall i :: 0 <= i < |init| ==> init[i] == cells[i];
    }
  }

  lemma {:induction false} PresentSumBounds(cells: seq<Cell>, lo: real, hi: real)
    requires forall i :: 0 <= i < |cells| && cells[i].Num? ==> lo <= cells[i].value <= hi
    ensures lo * PresentCount(cells) as real <= PresentSum(cells) <= hi * PresentCount(cells) as real
  {
    if |cells| > 0 {
      var init := cells[..|cells| - 1];
      assert forall i :: 0 <= i < |init| ==> init[i] == cells[i];
      PresentSumBounds(init, lo, hi);
    }
  }

  /** A quotient by a positive count lies between the bounds that the
      dividend has, scaled by the count. */
  lemma ScaleBounds(v: real, n: real, sum: real, lo: real, hi: real)
    requires n > 0.0 && v * n == sum && lo * n <= sum <= hi * n
    ensures lo <= v <= hi
  {
  }

  /** The mean lies between the smallest and the largest number present. */
  lemma MeanBounds(cells: seq<Cell>, lo: real, hi: real)
    requires forall i :: 0 <= i < |cells| && cells[i].Num? ==> lo <= cells[i].value <= hi
    ensures Mean(cells).Some? ==> lo <= Mean(cells).value <= hi
  {
    var mean := Mean(cells);
    if mean.Some? {
      PresentSumBounds(cells, lo, hi);
      ScaleBounds(mean.value, PresentCount(cells) as real, PresentSum(cells), lo, hi);
    }
  }

  // Cleaning, column by column.

  /** Cleaning keeps every row, in order, and never touches the columns it
      does not name. */
  lemma CleanKeepsRows(rows: seq<Row>)
    ensures |Clean(rows)| == |rows|
    ensures forall i :: 0 <= i < |rows| ==> Clean(rows)[i].others == rows[i].others
  {
    CleanByRow(rows);
  }

  /** A position that is missing or unreadable becomes -1; one that reads
      as a number keeps that number. No position is missing afterwards. */
  lemma PositionsFilled(rows: seq<Row>, i: int, c: Column)
    requires 0 <= i < |rows| && IsPosition(c)
    ensures Get(Clean(rows)[i], c).Num?
    ensures ToNumeric(Get(rows[i], c)).Missing? ==> Get(Clean(rows)[i], c) == Num(-1.0)
    ensures ToNumeric(Get(rows[i], c)).Num? ==> Get(Clean(rows)[i], c) == ToNumeric(Get(rows[i], c))
  {
    CleanByRow(rows);
  }

  lemma MeanColumnOfCleanRow(r: Row, m: Means, c: Column)
    requires IsMeanFilled(c)
    ensures Get(CleanRow(r, m), c) == FillWith(ToNumeric(Get(r, c)), MeanOf(m, c))
  {
  }

  lemma MeanColumnOfClean(rows: seq<Row>, i: int, c: Column)
    requires 0 <= i < |rows| && IsMeanFilled(c)
    ensures |Clean(rows)| == |rows|
    ensures Get(Clean(rows)[i], c) == FillWith(ToNumeric(Get(rows[i], c)), Mean(CoercedColumn(rows, c)))
  {
    CleanByRow(rows);
    MeanColumnOfCleanRow(rows[i], ColumnMeans(rows), c);
  }

  /** Air temperature, track temperature and lap count: a number present
      stays; a gap gets the mean of the numbers present in that column of
      the coerced table; a column with no number at all stays empty. */
  lemma MeanFilled(rows: seq<Row>, i: int, c: Column)
    requires 0 <= i < |rows| && IsMeanFilled(c)
    ensures ToNumeric(Get(rows[i], c)).Num? ==> Get(Clean(rows)[i], c) == ToNumeric(Get(rows[i], c))
    ensures ToNumeric(Get(rows[i], c)).Missing? && Mean(CoercedColumn(rows, c)).Some? ==>
      Get(Clean(rows)[i], c) == Num(Mean(CoercedColumn(rows, c)).value)
    ensures Mean(CoercedColumn(rows, c)).None? ==> Get(Clean(rows)[i], c) == Missing
  {
    var column := CoercedColumn(rows, c);
    MeanColumnOfClean(rows, i, c);
    if Mean(column).None? {
      NoMeanIffNoNumber(column);
      assert !column[i].Num?;
    }
  }

  /** A filled temperature or lap count lies within the range of the values
      present in its column. */
  lemma MeanFillInRange(rows: seq<Row>, i: int, c: Column, lo: real, hi: real)
    requires 0 <= i < |rows| && IsMeanFilled(c)
    requires forall j :: 0 <= j < |rows| && ToNumeric(Get(rows[j], c)).Num? ==>
      lo <= ToNumeric(Get(rows[j], c)).value <= hi
    ensures Get(Clean(rows)[i], c).Num? ==> lo <= Get(Clean(rows)[i], c).value <= hi
  {
    var column := CoercedColumn(rows, c);
    assert forall j :: 0 <= j < |column| && column[j].Num? ==> lo <= column[j].value <= hi;
    MeanBounds(column, lo, hi);
    MeanFilled(rows, i, c);
  }

  /** A missing pit-stop count becomes 0; missing weather labels become
      'Unknown'; values present are kept. */
  lemma ConstantFills(rows: seq<Row>, i: int)
    requires 0 <= i < |rows|
    ensures ToNumeric(rows[i].pitStopCount).Missing? ==> Clean(rows)[i].pitStopCount == Num(0.0)
    ensures ToNumeric(rows[i].pitStopCount).Num? ==> Clean(rows)[i].pitStopCount == ToNumeric(rows[i].pitStopCount)
    ensures rows[i].weather.Missing? ==> Clean(rows)[i].weather == Text("Unknown")
    ensures !rows[i].weather.Missing? ==> Clean(rows)[i].weather == rows[i].weather
    ensures rows[i].weatherCategory.Missing? ==> Clean(rows)[i].weatherCategory == Text("Unknown")
    ensures !rows[i].weatherCategory.Missing? ==> Clean(rows)[i].weatherCategory == rows[i].weatherCategory
  {
    CleanByRow(rows);
  }

  /** The stints are parsed, and StintCount is the number of stints parsed. */
  lemma StintsDerived(rows: seq<Row>, i: int)
    requires 0 <= i < |rows|
    ensures Clean(rows)[i].stintStrategy == Labels(ParseStint(rows[i].stintStrategy))
    ensures Clean(rows)[i].stintCount == Num(|ParseStint(rows[i].stintStrategy)| as real)
  {
    CleanByRow(rows);
  }

  // Cleaning twice.

  /** Means that stay undefined wherever the first ones were. */
  predicate NoNewGapsFilled(m: Means, m': Means)
  {
    (m.airTemp.None? ==> m'.airTemp.None?) &&
    (m.trackTemp.None? ==> m'.trackTemp.None?) &&
    (m.numLaps.None? ==> m'.numLaps.None?)
  }

  lemma FillWithTwice(x: Cell, m: Option<real>, m': Option<real>)
    requires m.None? ==> m'.None?
    ensures FillWith(ToNumeric(FillWith(ToNumeric(x), m)), m') == FillWith(ToNumeric(x), m)
  {
  }

  /** A cleaned row comes through a second cleaning unchanged. */
  lemma CleanRowTwice(r: Row, m: Means, m': Means)
    requires NoNewGapsFilled(m, m')
    ensures CleanRow(CleanRow(r, m), m') == CleanRow(r, m)
  {
    FillWithTwice(r.airTemp, m.airTemp, m'.airTemp);
    FillWithTwice(r.trackTemp, m.trackTemp, m'.trackTemp);
    FillWithTwice(r.numLaps, m.numLaps, m'.numLaps);
  }

  /** A column without a mean stays without one after cleaning. */
  lemma NoMeanStaysNoMean(rows: seq<Row>, c: Column)
    requires IsMeanFilled(c)
    requires Mean(CoercedColumn(rows, c)).None?
    ensures Mean(CoercedColumn(Clean(rows), c)).None?
  {
    var column := CoercedColumn(rows, c);
    NoMeanIffNoNumber(column);
    CleanKeepsRows(rows);
    var cleaned := CoercedColumn(Clean(rows), c);
    forall j | 0 <= j < |cleaned| ensures !cleaned[j].Num? {
      MeanColumnOfClean(rows, j, c);
      assert !column[j].Num?;
    }
    NoMeanIffNoNumber(cleaned);
  }

  /** Cleaning gives no column a mean it did not have. */
  lemma NoNewMeans(rows: seq<Row>)
    ensures NoNewGapsFilled(ColumnMeans(rows), ColumnMeans(Clean(rows)))
  {
    var m := ColumnMeans(rows);
    if m.airTemp.None? { NoMeanStaysNoMean(rows, AirTemp); }
    if m.trackTemp.None? { NoMeanStaysNoMean(rows, TrackTemp); }
    if m.numLaps.None? { NoMeanStaysNoMean(rows, NumLaps); }
  }

  /** Cleaning a cleaned table changes nothing: lists pass through
      `parse_stint`, counts are recomputed to the same value, and no fill
      has a gap left to fill. */
  lemma CleanIdempotent(rows: seq<Row>)
    ensures Clean(Clean(rows)) == Clean(rows)
  {
    var cleaned := Clean(rows);
    var m := ColumnMeans(rows);
    var m' := ColumnMeans(cleaned);
    NoNewMeans(rows);
    CleanByRow(rows);
    CleanByRow(cleaned);
    forall i | 0 <= i < |rows| ensures Clean(cleaned)[i] == cleaned[i] {
      CleanRowTwice(rows[i], m, m');
    }
  }
}
