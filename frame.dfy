/** `process_f1_data` as the source runs it: the DataFrame is changed in
    place, one column step after another. Reading and writing the CSV files
    are left to the caller: the table comes in as rows and goes out as rows. */
module ProcessData {
  import opened Cells
  import opened Stints
  import opened Table
  import opened CleanProperties

  /** The DataFrame `df`: its rows, in file order. */
  class Frame {
    var rows: array<Row>

    constructor (data: seq<Row>)
      ensures fresh(rows) && rows[..] == data
    {
      rows := new Row[|data|](i requires 0 <= i < |data| => data[i]);
    }

    /** Assigns f of each cell of column c back to that cell. */
    method UpdateColumn(c: Column, f: Cell -> Cell)
      modifies rows
      ensures rows[..] == MapColumn(old(rows[..]), c, f)
    {
      var i := 0;
      while i < rows.Length
        invariant 0 <= i <= rows.Length
        invariant forall k :: 0 <= k < i ==> rows[k] == Set(old(rows[k]), c, f(Get(old(rows[k]), c)))
        invariant forall k :: i <= k < rows.Length ==> rows[k] == old(rows[k])
      {
        rows[i] := Set(rows[i], c, f(Get(rows[i], c)));
        i := i + 1;
      }
    }

    /** The numeric coercion of column c (src/process_data.py:8-14). */
    method CoerceNumeric(c: Column)
      modifies rows
      ensures rows[..] == CoerceColumn(old(rows[..]), c)
    {
      UpdateColumn(c, ToNumeric);
    }

    /** Filling the gaps of column c with the constant v (src/process_data.py:29-31, 34, 36-37). */
    method FillNaWith(c: Column, v: Cell)
      modifies rows
      ensures rows[..] == FillColumn(old(rows[..]), c, v)
    {
      UpdateColumn(c, x => FillNa(x, v));
    }

    /** The mean of column c (src/process_data.py:32-35): the mean of the numbers present in column c, None for
        the NaN of a column without any. */
    method ColumnMean(c: Column) returns (m: Option<real>)
      ensures m == Mean(ColumnCells(rows[..], c))
    {
      ghost var cells := ColumnCells(rows[..], c);
      var sum, count := 0.0, 0;
      var i := 0;
      while i < rows.Length
        invariant 0 <= i <= rows.Length
        invariant sum == PresentSum(cells[..i])
        invariant count == PresentCount(cells[..i])
      {
        var cell := Get(rows[i], c);
        assert cells[..i + 1][..i] == cells[..i] && cells[i] == cell;
        if cell.Num? {
          sum, count := sum + cell.value, count + 1;
        }
        i := i + 1;
      }
      assert cells[..i] == cells;
      m := if count == 0 then None else Some(sum / count as real);
    }

    /** Filling the gaps of column c with its mean (src/process_data.py:32-33, 35). */
    method FillNaWithMean(c: Column)
      modifies rows
      ensures rows[..] == FillMean(old(rows[..]), c)
    {
      var m := ColumnMean(c);
      if m.Some? {
        FillNaWith(c, Num(m.value));
      }
    }

    /** The parse step (src/process_data.py:25): every stint cell becomes its parsed list. */
    method ApplyParseStint()
      modifies rows
      ensures rows[..] == ParseStintColumn(old(rows[..]))
    {
      var i := 0;
      while i < rows.Length
        invariant 0 <= i <= rows.Length
        invariant forall k :: 0 <= k < i ==>
          rows[k] == old(rows[k]).(stintStrategy := Labels(ParseStint(old(rows[k]).stintStrategy)))
        invariant forall k :: i <= k < rows.Length ==> rows[k] == old(rows[k])
      {
        rows[i] := rows[i].(stintStrategy := Labels(ParseStint(rows[i].stintStrategy)));
        i := i + 1;
      }
    }

    /** The StintCount step (src/process_data.py:27): the length of a list, 0 otherwise. */
    method AddStintCount()
      modifies rows
      ensures rows[..] == CountStintColumn(old(rows[..]))
    {
      var i := 0;
      while i < rows.Length
        invariant 0 <= i <= rows.Length
        invariant forall k :: 0 <= k < i ==>
          rows[k] == old(rows[k]).(stintCount := Num(StintCount(old(rows[k]).stintStrategy) as real))
        invariant forall k :: i <= k < rows.Length ==> rows[k] == old(rows[k])
      {
        rows[i] := rows[i].(stintCount := Num(StintCount(rows[i].stintStrategy) as real));
        i := i + 1;
      }
    }

    /** The body of `process_f1_data` between `read_csv` and `to_csv`. Each
        row ends up cleaned on its own, with the means of the coerced
        columns. */
    method Process()
      modifies rows
      ensures rows[..] == Clean(old(rows[..]))
      ensures forall i :: 0 <= i < rows.Length ==> rows[i] == CleanRow(old(rows[i]), ColumnMeans(old(rows[..])))
    {
      ghost var input := rows[..];
      CoerceNumeric(QualifyingPosition);
      CoerceNumeric(GridPosition);
      CoerceNumeric(FinishingPosition);
      CoerceNumeric(AirTemp);
      CoerceNumeric(TrackTemp);
      CoerceNumeric(PitStopCount);
      CoerceNumeric(NumLaps);
      assert rows[..] == CoerceNumericColumns(input);
      ApplyParseStint();
      AddStintCount();
      assert rows[..] == DeriveStints(CoerceNumericColumns(input));
      FillNaWith(QualifyingPosition, Num(-1.0));
      FillNaWith(GridPosition, Num(-1.0));
      FillNaWith(FinishingPosition, Num(-1.0));
      assert rows[..] == FillPositions(DeriveStints(CoerceNumericColumns(input)));
      FillNaWithMean(AirTemp);
      FillNaWithMean(TrackTemp);
      FillNaWith(PitStopCount, Num(0.0));
      FillNaWithMean(NumLaps);
      FillNaWith(Weather, Text("Unknown"));
      FillNaWith(WeatherCategory, Text("Unknown"));
      CleanByRow(input);
    }
  }

  /** `process_f1_data` on a table already read: the cleaned table, with as
      many rows as the input, no missing position, each stint count the
      length of its stint list, and nothing left for a second run to change. */
  method ProcessF1Data(data: seq<Row>) returns (cleaned: seq<Row>)
    ensures cleaned == Clean(data)
    ensures |cleaned| == |data|
    ensures Clean(cleaned) == cleaned
    ensures forall i, c :: 0 <= i < |cleaned| && IsPosition(c) ==> Get(cleaned[i], c).Num?
    ensures forall i :: 0 <= i < |cleaned| ==>
      cleaned[i].stintStrategy.Labels? && cleaned[i].stintCount == Num(|cleaned[i].stintStrategy.items| as real)
  {
    var df := new Frame(data);
    df.Process();
    cleaned := df.rows[..];
    forall i, c | 0 <= i < |cleaned| && IsPosition(c) ensures Get(cleaned[i], c).Num? {
      PositionsFilled(data, i, c);
    }
    forall i | 0 <= i < |cleaned|
      ensures cleaned[i].stintStrategy.Labels? && cleaned[i].stintCount == Num(|cleaned[i].stintStrategy.items| as real)
    {
      StintsDerived(data, i);
    }
    CleanIdempotent(data);
  }
}
