/** The race-results table as a sequence of rows, the column steps of
    `process_f1_data` as functions on it (in the order the source runs
    them), and what cleaning guarantees. */
module Table {
  import opened Cells
  import opened Stints

  /** The columns that are coerced to numbers or filled; each holds a Cell. */
  datatype Column =
    | QualifyingPosition | GridPosition | FinishingPosition
    | AirTemp | TrackTemp | PitStopCount | NumLaps
    | Weather | WeatherCategory

  /** One row of the table: one driver in one race. The columns the cleaner
      never touches (Year, Round, Track, Driver, Team, ...) are kept in
      `others`, in file order. */
  datatype Row = Row(
    qualifyingPosition: Cell,
    gridPosition: Cell,
    finishingPosition: Cell,
    airTemp: Cell,
    trackTemp: Cell,
    pitStopCount: Cell,
    numLaps: Cell,
    stintStrategy: StintValue,
    stintCount: Cell,
    weather: Cell,
    weatherCategory: Cell,
    others: seq<Cell>)

  predicate IsPosition(c: Column)
  {
    c == QualifyingPosition || c == GridPosition || c == FinishingPosition
  }

  /** The columns whose gaps are filled with the column mean. */
  predicate IsMeanFilled(c: Column)
  {
    c == AirTemp || c == TrackTemp || c == NumLaps
  }

  /** The seven columns that `pd.to_numeric` coerces. */
  predicate IsNumeric(c: Column)
  {
    c != Weather && c != WeatherCategory
  }

  function Get(r: Row, c: Column): Cell
  {
    match c
    case QualifyingPosition => r.qualifyingPosition
    case GridPosition => r.gridPosition
    case FinishingPosition => r.finishingPosition
    case AirTemp => r.airTemp
    case TrackTemp => r.trackTemp
    case PitStopCount => r.pitStopCount
    case NumLaps => r.numLaps
    case Weather => r.weather
    case WeatherCategory => r.weatherCategory
  }

  /** Assigning column c of one row: column c gets v and every other column,
      the stint columns included, keeps its value. */
  function Set(r: Row, c: Column, v: Cell): (r': Row)
    ensures Get(r', c) == v
    ensures forall d :: d != c ==> Get(r', d) == Get(r, d)
    ensures r'.stintStrategy == r.stintStrategy && r'.stintCount == r.stintCount
    ensures r'.others == r.others
  {
    match c
    case QualifyingPosition => r.(qualifyingPosition := v)
    case GridPosition => r.(gridPosition := v)
    case FinishingPosition => r.(finishingPosition := v)
    case AirTemp => r.(airTemp := v)
    case TrackTemp => r.(trackTemp := v)
    case PitStopCount => r.(pitStopCount := v)
    case NumLaps => r.(numLaps := v)
    case Weather => r.(weather := v)
    case WeatherCategory => r.(weatherCategory := v)
  }

  /** The cells of column c, top to bottom. */
  function ColumnCells(rows: seq<Row>, c: Column): seq<Cell>
  {
    seq(|rows|, i requires 0 <= i < |rows| => Get(rows[i], c))
  }

  // The column steps.

  /** Replace every cell of column c by f of it. */
  function MapColumn(rows: seq<Row>, c: Column, f: Cell -> Cell): seq<Row>
  {
    seq(|rows|, i requires 0 <= i < |rows| => Set(rows[i], c, f(Get(rows[i], c))))
  }

  /** The numeric coercion of column c (src/process_data.py:8-14). */
  function CoerceColumn(rows: seq<Row>, c: Column): seq<Row>
  {
    MapColumn(rows, c, ToNumeric)
  }

  /** Filling the gaps of column c with the constant v (src/process_data.py:29-31, 34, 36-37). */
  function FillColumn(rows: seq<Row>, c: Column, v: Cell): (r: seq<Row>)
    ensures |r| == |rows|
    ensures forall i :: 0 <= i < |rows| ==> r[i] == Set(rows[i], c, FillNa(Get(rows[i], c), v))
  {
    MapColumn(rows, c, x => FillNa(x, v))
  }

  /** The parse step (src/process_data.py:25): every stint cell becomes its parsed list. */
  function ParseStintColumn(rows: seq<Row>): seq<Row>
  {
    seq(|rows|, i requires 0 <= i < |rows| =>
      rows[i].(stintStrategy := Labels(ParseStint(rows[i].stintStrategy))))
  }

  /** The StintCount step (src/process_data.py:27): the length of a list, 0 otherwise. */
  function CountStintColumn(rows: seq<Row>): seq<Row>
  {
    seq(|rows|, i requires 0 <= i < |rows| =>
      rows[i].(stintCount := Num(StintCount(rows[i].stintStrategy) as real)))
  }

  /** Sum of the numbers present in a column, over exact reals. */
  function PresentSum(cells: seq<Cell>): real
  {
    if |cells| == 0 then 0.0
    else PresentSum(cells[..|cells| - 1]) + (if cells[|cells| - 1].Num? then cells[|cells| - 1].value else 0.0)
  }

  /** How many numbers a column holds. */
  function PresentCount(cells: seq<Cell>): nat
  {
    if |cells| == 0 then 0
    else PresentCount(cells[..|cells| - 1]) + (if cells[|cells| - 1].Num? then 1 else 0)
  }

  /** `Series.mean()`: the mean of the numbers present, skipping missing
      cells; None stands for the NaN of a column with no number at all. */
  function Mean(cells: seq<Cell>): (r: Option<real>)
    ensures r.None? <==> PresentCount(cells) == 0
    ensures r.Some? ==> r.value * PresentCount(cells) as real == PresentSum(cells)
  {
    if PresentCount(cells) == 0 then None
    else Some(PresentSum(cells) / PresentCount(cells) as real)
  }

  /** Filling the gaps of column c with its mean (src/process_data.py:32-33, 35);
      filling with NaN changes nothing. */
  function FillMean(rows: seq<Row>, c: Column): (r: seq<Row>)
    ensures |r| == |rows|
    ensures Mean(ColumnCells(rows, c)).None? ==> r == rows
    ensures forall i :: 0 <= i < |rows| && !Get(rows[i], c).Missing? ==> r[i] == rows[i]
    ensures forall i :: 0 <= i < |rows| && Get(rows[i], c).Missing? && Mean(ColumnCells(rows, c)).Some? ==>
      Get(r[i], c) == Num(Mean(ColumnCells(rows, c)).value)
  {
    match Mean(ColumnCells(rows, c))
    case None => rows
    case Some(m) => FillColumn(rows, c, Num(m))
  }

  /** Lines 8-14: the seven numeric columns are coerced. */
  function CoerceNumericColumns(rows: seq<Row>): seq<Row>
  {
    CoerceColumn(CoerceColumn(CoerceColumn(CoerceColumn(CoerceColumn(CoerceColumn(CoerceColumn(
      rows, QualifyingPosition), GridPosition), FinishingPosition), AirTemp), TrackTemp), PitStopCount), NumLaps)
  }

  /** Lines 16-27: the stints are parsed, then counted. */
  function DeriveStints(rows: seq<Row>): seq<Row>
  {
    CountStintColumn(ParseStintColumn(rows))
  }

  /** Lines 29-31: missing positions become -1. */
  function FillPositions(rows: seq<Row>): seq<Row>
  {
    FillColumn(FillColumn(FillColumn(rows, QualifyingPosition, Num(-1.0)), GridPosition, Num(-1.0)), FinishingPosition, Num(-1.0))
  }

  /** Lines 32-37: the remaining gaps are filled, each mean taken just
      before its column is filled. */
  function FillOthers(rows: seq<Row>): seq<Row>
  {
    var temperatures := FillMean(FillMean(rows, AirTemp), TrackTemp);
    var laps := FillMean(FillColumn(temperatures, PitStopCount, Num(0.0)), NumLaps);
    FillColumn(FillColumn(laps, Weather, Text("Unknown")), WeatherCategory, Text("Unknown"))
  }

  /** `process_f1_data` between reading and writing the CSV file: every
      column step, in the order the source runs them. */
  function Clean(rows: seq<Row>): (r: seq<Row>)
    ensures |r| == |rows|
  {
    FillOthers(FillPositions(DeriveStints(CoerceNumericColumns(rows))))
  }

  // A reference definition of cleaning, one row at a time.

  /** The column means the cleaner fills gaps with, each computed over the
      coerced column. */
  datatype Means = Means(airTemp: Option<real>, trackTemp: Option<real>, numLaps: Option<real>)

  /** Column c of the table after numeric coercion. */
  function CoercedColumn(rows: seq<Row>, c: Column): seq<Cell>
  {
    seq(|rows|, i requires 0 <= i < |rows| => ToNumeric(Get(rows[i], c)))
  }

  function ColumnMeans(rows: seq<Row>): Means
  {
    Means(Mean(CoercedColumn(rows, AirTemp)), Mean(CoercedColumn(rows, TrackTemp)), Mean(CoercedColumn(rows, NumLaps)))
  }

  /** Fill a gap with a mean when there is one. */
  function FillWith(c: Cell, m: Option<real>): Cell
  {
    match m
    case None => c
    case Some(v) => FillNa(c, Num(v))
  }

  /** One cleaned row, given the means of the table it belongs to. */
  function CleanRow(r: Row, m: Means): (r': Row)
    ensures forall c :: IsPosition(c) ==> Get(r', c).Num?
    ensures r'.pitStopCount.Num? && !r'.weather.Missing? && !r'.weatherCategory.Missing?
    ensures r'.stintStrategy.Labels? && r'.stintCount == Num(|r'.stintStrategy.items| as real)
    ensures r'.others == r.others
  {
    var stints := ParseStint(r.stintStrategy);
    Row(
      qualifyingPosition := FillNa(ToNumeric(r.qualifyingPosition), Num(-1.0)),
      gridPosition := FillNa(ToNumeric(r.gridPosition), Num(-1.0)),
      finishingPosition := FillNa(ToNumeric(r.finishingPosition), Num(-1.0)),
      airTemp := FillWith(ToNumeric(r.airTemp), m.airTemp),
      trackTemp := FillWith(ToNumeric(r.trackTemp), m.trackTemp),
      pitStopCount := FillNa(ToNumeric(r.pitStopCount), Num(0.0)),
      numLaps := FillWith(ToNumeric(r.numLaps), m.numLaps),
      stintStrategy := Labels(stints),
      stintCount := Num(StintCount(Labels(stints)) as real),
      weather := FillNa(r.weather, Text("Unknown")),
      weatherCategory := FillNa(r.weatherCategory, Text("Unknown")),
      others := r.others)
  }

  function MeanOf(m: Means, c: Column): Option<real>
    requires IsMeanFilled(c)
  {
    if c == AirTemp then m.airTemp else if c == TrackTemp then m.trackTemp else m.numLaps
  }

  // How the column steps act on the columns.

  lemma MapColumnAt(rows: seq<Row>, c: Column, f: Cell -> Cell, i: int)
    requires 0 <= i < |rows|
    ensures |MapColumn(rows, c, f)| == |rows|
    ensures MapColumn(rows, c, f)[i] == Set(rows[i], c, f(Get(rows[i], c)))
  {
  }

  lemma MapOtherColumn(rows: seq<Row>, c: Column, f: Cell -> Cell, d: Column)
    requires d != c
    ensures ColumnCells(MapColumn(rows, c, f), d) == ColumnCells(rows, d)
  {
    var mapped := MapColumn(rows, c, f);
    forall i | 0 <= i < |rows| ensures ColumnCells(mapped, d)[i] == ColumnCells(rows, d)[i] {
      assert mapped[i] == Set(rows[i], c, f(Get(rows[i], c)));
    }
  }

  lemma FillMeanOtherColumn(rows: seq<Row>, c: Column, d: Column)
    requires d != c
    ensures ColumnCells(FillMean(rows, c), d) == ColumnCells(rows, d)
  {
    match Mean(ColumnCells(rows, c))
    case None =>
    case Some(m) => MapOtherColumn(rows, c, x => FillNa(x, Num(m)), d);
  }

  lemma StintStepsKeepColumns(rows: seq<Row>, d: Column)
    ensures ColumnCells(CountStintColumn(ParseStintColumn(rows)), d) == ColumnCells(rows, d)
  {
  }

  /** A row after the seven coercions. */
  function CoercedRow(r: Row): Row
  {
    r.(qualifyingPosition := ToNumeric(r.qualifyingPosition),
       gridPosition := ToNumeric(r.gridPosition),
       finishingPosition := ToNumeric(r.finishingPosition),
       airTemp := ToNumeric(r.airTemp),
       trackTemp := ToNumeric(r.trackTemp),
       pitStopCount := ToNumeric(r.pitStopCount),
       numLaps := ToNumeric(r.numLaps))
  }

  lemma FillColumnAt(rows: seq<Row>, c: Column, v: Cell, i: int)
    requires 0 <= i < |rows|
    ensures |FillColumn(rows, c, v)| == |rows|
    ensures FillColumn(rows, c, v)[i] == Set(rows[i], c, FillNa(Get(rows[i], c), v))
  {
    MapColumnAt(rows, c, x => FillNa(x, v), i);
  }

  lemma FillOtherColumn(rows: seq<Row>, c: Column, v: Cell, d: Column)
    requires d != c
    ensures ColumnCells(FillColumn(rows, c, v), d) == ColumnCells(rows, d)
  {
    MapOtherColumn(rows, c, x => FillNa(x, v), d);
  }

  lemma FillMeanAt(rows: seq<Row>, c: Column, i: int)
    requires 0 <= i < |rows|
    ensures |FillMean(rows, c)| == |rows|
    ensures FillMean(rows, c)[i] == Set(rows[i], c, FillWith(Get(rows[i], c), Mean(ColumnCells(rows, c))))
  {
    match Mean(ColumnCells(rows, c))
    case None =>
      assert Set(rows[i], c, Get(rows[i], c)) == rows[i];
    case Some(m) =>
      FillColumnAt(rows, c, Num(m), i);
  }

  lemma FirstCoercionsAt(rows: seq<Row>, i: int)
    requires 0 <= i < |rows|
    ensures |CoerceColumn(CoerceColumn(CoerceColumn(rows, QualifyingPosition), GridPosition), FinishingPosition)| == |rows|
    ensures CoerceColumn(CoerceColumn(CoerceColumn(rows, QualifyingPosition), GridPosition), FinishingPosition)[i] == rows[i].(
      qualifyingPosition := ToNumeric(rows[i].qualifyingPosition),
      gridPosition := ToNumeric(rows[i].gridPosition),
      finishingPosition := ToNumeric(rows[i].finishingPosition))
  {
    var s1 := CoerceColumn(rows, QualifyingPosition);
    var s2 := CoerceColumn(s1, GridPosition);
    MapColumnAt(rows, QualifyingPosition, ToNumeric, i);
    MapColumnAt(s1, GridPosition, ToNumeric, i);
    MapColumnAt(s2, FinishingPosition, ToNumeric, i);
  }

  lemma LastCoercionsAt(rows: seq<Row>, i: int)
    requires 0 <= i < |rows|
    ensures |CoerceColumn(CoerceColumn(CoerceColumn(CoerceColumn(rows, AirTemp), TrackTemp), PitStopCount), NumLaps)| == |rows|
    ensures CoerceColumn(CoerceColumn(CoerceColumn(CoerceColumn(rows, AirTemp), TrackTemp), PitStopCount), NumLaps)[i] == rows[i].(
      airTemp := ToNumeric(rows[i].airTemp),
      trackTemp := ToNumeric(rows[i].trackTemp),
      pitStopCount := ToNumeric(rows[i].pitStopCount),
      numLaps := ToNumeric(rows[i].numLaps))
  {
    var s4 := CoerceColumn(rows, AirTemp);
    var s5 := CoerceColumn(s4, TrackTemp);
    var s6 := CoerceColumn(s5, PitStopCount);
    MapColumnAt(rows, AirTemp, ToNumeric, i);
    MapColumnAt(s4, TrackTemp, ToNumeric, i);
    MapColumnAt(s5, PitStopCount, ToNumeric, i);
    MapColumnAt(s6, NumLaps, ToNumeric, i);
  }

  /** The seven coercions, as one row-wise step. */
  lemma CoercedAt(rows: seq<Row>)
    ensures |CoerceNumericColumns(rows)| == |rows|
    ensures forall i :: 0 <= i < |rows| ==> CoerceNumericColumns(rows)[i] == CoercedRow(rows[i])
  {
    var s3 := CoerceColumn(CoerceColumn(CoerceColumn(rows, QualifyingPosition), GridPosition), FinishingPosition);
    var coerced := CoerceColumn(CoerceColumn(CoerceColumn(CoerceColumn(s3, AirTemp), TrackTemp), PitStopCount), NumLaps);
    assert coerced == CoerceNumericColumns(rows);
    if |rows| > 0 {
      FirstCoercionsAt(rows, 0);
      LastCoercionsAt(s3, 0);
    }
    forall i | 0 <= i < |rows| ensures coerced[i] == CoercedRow(rows[i]) {
      FirstCoercionsAt(rows, i);
      LastCoercionsAt(s3, i);
    }
  }

  /** After the stint steps, the numeric columns are the coerced input. */
  lemma StintsAfterCoercion(rows: seq<Row>, c: Column)
    requires IsNumeric(c)
    ensures ColumnCells(DeriveStints(CoerceNumericColumns(rows)), c) == CoercedColumn(rows, c)
  {
    var coerced := CoerceNumericColumns(rows);
    CoercedAt(rows);
    forall i | 0 <= i < |rows|
      ensures ColumnCells(DeriveStints(coerced), c)[i] == CoercedColumn(rows, c)[i]
    {
      assert coerced[i] == CoercedRow(rows[i]);
    }
  }

  lemma PositionsAt(rows: seq<Row>, i: int)
    requires 0 <= i < |rows|
    ensures |FillPositions(rows)| == |rows|
    ensures FillPositions(rows)[i] == rows[i].(
      qualifyingPosition := FillNa(rows[i].qualifyingPosition, Num(-1.0)),
      gridPosition := FillNa(rows[i].gridPosition, Num(-1.0)),
      finishingPosition := FillNa(rows[i].finishingPosition, Num(-1.0)))
  {
    var p1 := FillColumn(rows, QualifyingPosition, Num(-1.0));
    var p2 := FillColumn(p1, GridPosition, Num(-1.0));
    FillColumnAt(rows, QualifyingPosition, Num(-1.0), i);
    FillColumnAt(p1, GridPosition, Num(-1.0), i);
    FillColumnAt(p2, FinishingPosition, Num(-1.0), i);
  }

  lemma PositionsKeepOthers(rows: seq<Row>, d: Column)
    requires !IsPosition(d)
    ensures ColumnCells(FillPositions(rows), d) == ColumnCells(rows, d)
  {
    var p1 := FillColumn(rows, QualifyingPosition, Num(-1.0));
    var p2 := FillColumn(p1, GridPosition, Num(-1.0));
    FillOtherColumn(rows, QualifyingPosition, Num(-1.0), d);
    FillOtherColumn(p1, GridPosition, Num(-1.0), d);
    FillOtherColumn(p2, FinishingPosition, Num(-1.0), d);
  }

  lemma TemperaturesAt(rows: seq<Row>, i: int)
    requires 0 <= i < |rows|
    ensures |FillMean(FillMean(rows, AirTemp), TrackTemp)| == |rows|
    ensures FillMean(FillMean(rows, AirTemp), TrackTemp)[i] == rows[i].(
      airTemp := FillWith(rows[i].airTemp, Mean(ColumnCells(rows, AirTemp))),
      trackTemp := FillWith(rows[i].trackTemp, Mean(ColumnCells(rows, TrackTemp))))
    ensures ColumnCells(FillMean(FillMean(rows, AirTemp), TrackTemp), NumLaps) == ColumnCells(rows, NumLaps)
  {
    var a := FillMean(rows, AirTemp);
    FillMeanOtherColumn(rows, AirTemp, TrackTemp);
    FillMeanOtherColumn(rows, AirTemp, NumLaps);
    FillMeanOtherColumn(a, TrackTemp, NumLaps);
    FillMeanAt(rows, AirTemp, i);
    FillMeanAt(a, TrackTemp, i);
  }

  lemma LapsAt(rows: seq<Row>, i: int)
    requires 0 <= i < |rows|
    ensures |FillMean(FillColumn(rows, PitStopCount, Num(0.0)), NumLaps)| == |rows|
    ensures FillMean(FillColumn(rows, PitStopCount, Num(0.0)), NumLaps)[i] == rows[i].(
      pitStopCount := FillNa(rows[i].pitStopCount, Num(0.0)),
      numLaps := FillWith(rows[i].numLaps, Mean(ColumnCells(rows, NumLaps))))
  {
    var ps := FillColumn(rows, PitStopCount, Num(0.0));
    FillOtherColumn(rows, PitStopCount, Num(0.0), NumLaps);
    FillColumnAt(rows, PitStopCount, Num(0.0), i);
    FillMeanAt(ps, NumLaps, i);
  }

  lemma WeatherAt(rows: seq<Row>, i: int)
    requires 0 <= i < |rows|
    ensures |FillColumn(FillColumn(rows, Weather, Text("Unknown")), WeatherCategory, Text("Unknown"))| == |rows|
    ensures FillColumn(FillColumn(rows, Weather, Text("Unknown")), WeatherCategory, Text("Unknown"))[i] == rows[i].(
      weather := FillNa(rows[i].weather, Text("Unknown")),
      weatherCategory := FillNa(rows[i].weatherCategory, Text("Unknown")))
  {
    var w := FillColumn(rows, Weather, Text("Unknown"));
    FillColumnAt(rows, Weather, Text("Unknown"), i);
    FillColumnAt(w, WeatherCategory, Text("Unknown"), i);
  }

  /** The remaining fills, row by row, with the means of their input. */
  lemma FillOthersAt(rows: seq<Row>, i: int)
    requires 0 <= i < |rows|
    ensures |FillOthers(rows)| == |rows|
    ensures FillOthers(rows)[i] == rows[i].(
      airTemp := FillWith(rows[i].airTemp, Mean(ColumnCells(rows, AirTemp))),
      trackTemp := FillWith(rows[i].trackTemp, Mean(ColumnCells(rows, TrackTemp))),
      pitStopCount := FillNa(rows[i].pitStopCount, Num(0.0)),
      numLaps := FillWith(rows[i].numLaps, Mean(ColumnCells(rows, NumLaps))),
      weather := FillNa(rows[i].weather, Text("Unknown")),
      weatherCategory := FillNa(rows[i].weatherCategory, Text("Unknown")))
  {
    var t := FillMean(FillMean(rows, AirTemp), TrackTemp);
    var n := FillMean(FillColumn(t, PitStopCount, Num(0.0)), NumLaps);
    TemperaturesAt(rows, i);
    LapsAt(t, i);
    WeatherAt(n, i);
  }

  /** The column-by-column cleaner agrees, row by row, with the reference
      definition CleanRow over the means of the coerced columns: the means
      are taken once, before any gap is filled, and each row is cleaned on
      its own. */
  lemma CleanByRow(rows: seq<Row>)
    ensures |Clean(rows)| == |rows|
    ensures forall i :: 0 <= i < |rows| ==> Clean(rows)[i] == CleanRow(rows[i], ColumnMeans(rows))
  {
    var coerced := CoerceNumericColumns(rows);
    var counted := DeriveStints(coerced);
    var positions := FillPositions(counted);
    CoercedAt(rows);
    StintsAfterCoercion(rows, AirTemp);
    StintsAfterCoercion(rows, TrackTemp);
    StintsAfterCoercion(rows, NumLaps);
    PositionsKeepOthers(counted, AirTemp);
    PositionsKeepOthers(counted, TrackTemp);
    PositionsKeepOthers(counted, NumLaps);
    forall i | 0 <= i < |rows| ensures Clean(rows)[i] == CleanRow(rows[i], ColumnMeans(rows)) {
      assert coerced[i] == CoercedRow(rows[i]);
      PositionsAt(counted, i);
      FillOthersAt(positions, i);
    }
  }
}
