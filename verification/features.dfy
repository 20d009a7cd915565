/**
 Feature engineering over the working frame (history plus the new row): lags,
 row-local products and differences, the rain threshold flag, the three-month
 arrivals window, the cyclic month and day-of-year encodings, price momentum
 and the holiday flag. Every column is computed over the whole frame at once,
 so a row's lags and windows read the rows above it.
 */
module Features {
  import opened Missing
  import opened Calendar
  import opened Frame

  /** Sine and cosine of a fraction of a full turn: `sin(k, n)` stands for
      sin(2πk/n). The floating-point values are not modelled. */
  datatype Circle = Circle(sin: (int, int) -> real, cos: (int, int) -> real)

  /** A row of the frame together with every column derived from it. */
  datatype Featured = Featured(
    row: Row,
    modalPriceLag1: Option<real>,
    tempRange: Option<real>,
    humidityPrecip: Option<real>,
    humidUv: Option<real>,
    arrivalsLag1: Option<real>,
    humidityLag1: Option<real>,
    precipLag1: Option<real>,
    tempmaxLag1: Option<real>,
    tempminLag1: Option<real>,
    solarenergyLag1: Option<real>,
    uvindexLag1: Option<real>,
    tempRangeLag1: Option<real>,
    monthSin: real,
    monthCos: real,
    rainFlag: int,
    arr3moMean: Option<real>,
    arr3moMax: Option<real>,
    sin365_1: real,
    cos365_1: real,
    sin365_2: real,
    cos365_2: real,
    priceMomentum: Option<real>,
    holidayFlag: int)

  /** `temp_range = tempmax - tempmin`, as a column. */
  function TempRangeColumn(s: seq<Row>): (c: Column)
    ensures |c| == |s|
  {
    seq(|s|, i requires 0 <= i < |s| => Sub(s[i].tempmax, s[i].tempmin))
  }

  /** `(precip > precip_med).astype(int)` for one row. */
  function RainFlag(precip: Option<real>, precipMedian: Option<real>): int {
    if Greater(precip, precipMedian) then 1 else 0
  }

  /** The features of row `i` that read no other row. */
  function RowLocal(x: Row, precipMedian: Option<real>, isHoliday: Date -> bool, circle: Circle)
    : (r: Featured)
  {
    var doy := DayOfYear(x.date);
    Featured(
      row := x,
      modalPriceLag1 := None,
      tempRange := Sub(x.tempmax, x.tempmin),
      humidityPrecip := Mul(x.humidity, x.precip),
      humidUv := Mul(x.humidity, x.uvindex),
      arrivalsLag1 := None,
      humidityLag1 := None,
      precipLag1 := None,
      tempmaxLag1 := None,
      tempminLag1 := None,
      solarenergyLag1 := None,
      uvindexLag1 := None,
      tempRangeLag1 := None,
      monthSin := circle.sin(x.month, 12),
      monthCos := circle.cos(x.month, 12),
      rainFlag := RainFlag(x.precip, precipMedian),
      arr3moMean := None,
      arr3moMax := None,
      sin365_1 := circle.sin(doy, 365),
      cos365_1 := circle.cos(doy, 365),
      sin365_2 := circle.sin(2 * doy, 365),
      cos365_2 := circle.cos(2 * doy, 365),
      priceMomentum := None,
      holidayFlag := if isHoliday(x.date) then 1 else 0)
  }

  /** Every derived column of row `i` of the frame `s`. `precipMedian` is the
      median of the history's precipitation and `isHoliday` the holiday
      calendar's membership test. */
  function FeatureRow(s: seq<Row>, i: nat, precipMedian: Option<real>, isHoliday: Date -> bool, circle: Circle)
    : (r: Featured)
    requires i < |s|
  {
    var modalLag := Shift1(ColumnOf(s, ModalPrice))[i];
    RowLocal(s[i], precipMedian, isHoliday, circle).(
      modalPriceLag1 := modalLag,
      arrivalsLag1 := Shift1(ColumnOf(s, Arrivals))[i],
      humidityLag1 := Shift1(ColumnOf(s, Humidity))[i],
      precipLag1 := Shift1(ColumnOf(s, Precip))[i],
      tempmaxLag1 := Shift1(ColumnOf(s, Tempmax))[i],
      tempminLag1 := Shift1(ColumnOf(s, Tempmin))[i],
      solarenergyLag1 := Shift1(ColumnOf(s, Solarenergy))[i],
      uvindexLag1 := Shift1(ColumnOf(s, Uvindex))[i],
      tempRangeLag1 := Shift1(TempRangeColumn(s))[i],
      arr3moMean := RollingMean(ColumnOf(s, Arrivals), 3)[i],
      arr3moMax := RollingMax(ColumnOf(s, Arrivals), 3)[i],
      priceMomentum := Sub(s[i].modalPrice, modalLag))
  }

  /** The whole feature-engineering block: every derived column for every row. */
  function Engineer(s: seq<Row>, precipMedian: Option<real>, isHoliday: Date -> bool, circle: Circle)
    : (r: seq<Featured>)
    ensures |r| == |s|
    ensures forall i :: 0 <= i < |s| ==> r[i].row == s[i]
  {
    seq(|s|, i requires 0 <= i < |s| => FeatureRow(s, i, precipMedian, isHoliday, circle))
  }

  /** The value a row's lag columns read: the row above, or NaN for the first row. */
  function Above(s: seq<Row>, i: nat, f: Field): Option<real>
    requires i < |s|
  {
    if i == 0 then None else Get(s[i - 1], f)
  }

  /** Every `_lag1` column holds the previous row's value of its column, and
      is missing in the first row. */
  lemma EngineerLags(s: seq<Row>, precipMedian: Option<real>, isHoliday: Date -> bool, circle: Circle, i: nat)
    requires i < |s|
    ensures var r := Engineer(s, precipMedian, isHoliday, circle)[i];
      && r.modalPriceLag1 == Above(s, i, ModalPrice)
      && r.arrivalsLag1 == Above(s, i, Arrivals)
      && r.humidityLag1 == Above(s, i, Humidity)
      && r.precipLag1 == Above(s, i, Precip)
      && r.tempmaxLag1 == Above(s, i, Tempmax)
      && r.tempminLag1 == Above(s, i, Tempmin)
      && r.solarenergyLag1 == Above(s, i, Solarenergy)
      && r.uvindexLag1 == Above(s, i, Uvindex)
      && r.tempRangeLag1 == Sub(Above(s, i, Tempmax), Above(s, i, Tempmin))
  {
  }

  /** The row-local features: `temp_range`, `humidity_precip`, `humid_uv`,
      the rain flag, the cyclic encodings and the holiday flag of a row are
      functions of that row alone, whatever the rest of the frame holds. */
  lemma EngineerRowLocal(
    s: seq<Row>, t: seq<Row>, i: nat, j: nat,
    precipMedian: Option<real>, isHoliday: Date -> bool, circle: Circle)
    requires i < |s| && j < |t| && s[i] == t[j]
    ensures var a := Engineer(s, precipMedian, isHoliday, circle)[i];
      var b := Engineer(t, precipMedian, isHoliday, circle)[j];
      && a.tempRange == b.tempRange && a.humidityPrecip == b.humidityPrecip && a.humidUv == b.humidUv
      && a.rainFlag == b.rainFlag && a.holidayFlag == b.holidayFlag
      && a.monthSin == b.monthSin && a.monthCos == b.monthCos
      && a.sin365_1 == b.sin365_1 && a.cos365_1 == b.cos365_1
      && a.sin365_2 == b.sin365_2 && a.cos365_2 == b.cos365_2
    ensures var a := Engineer(s, precipMedian, isHoliday, circle)[i];
      && (a.tempRange.Some? <==> s[i].tempmax.Some? && s[i].tempmin.Some?)
      && (a.tempRange.Some? ==> a.tempRange.value == s[i].tempmax.value - s[i].tempmin.value)
      && a.humidUv == Mul(s[i].humidity, s[i].uvindex)
      && a.humidityPrecip == Mul(s[i].humidity, s[i].precip)
  {
    FeatureRowKeepsRowLocal(s, i, precipMedian, isHoliday, circle);
    FeatureRowKeepsRowLocal(t, j, precipMedian, isHoliday, circle);
  }

  lemma FeatureRowKeepsRowLocal(s: seq<Row>, i: nat, precipMedian: Option<real>, isHoliday: Date -> bool, circle: Circle)
    requires i < |s|
    ensures var a := Engineer(s, precipMedian, isHoliday, circle)[i];
      var b := RowLocal(s[i], precipMedian, isHoliday, circle);
      && a.tempRange == b.tempRange && a.humidityPrecip == b.humidityPrecip && a.humidUv == b.humidUv
      && a.rainFlag == b.rainFlag && a.holidayFlag == b.holidayFlag
      && a.monthSin == b.monthSin && a.monthCos == b.monthCos
      && a.sin365_1 == b.sin365_1 && a.cos365_1 == b.cos365_1
      && a.sin365_2 == b.sin365_2 && a.cos365_2 == b.cos365_2
  {
  }

  /** The rain flag is 1 exactly when the row's precipitation is known and
      strictly above a known median, and 0 otherwise. */
  lemma EngineerRainFlag(s: seq<Row>, precipMedian: Option<real>, isHoliday: Date -> bool, circle: Circle, i: nat)
    requires i < |s|
    ensures var f := Engineer(s, precipMedian, isHoliday, circle)[i].rainFlag;
      && (f == 0 || f == 1)
      && (f == 1 <==> s[i].precip.Some? && precipMedian.Some? && s[i].precip.value > precipMedian.value)
  {
  }

  /** The holiday flag is the calendar's membership of the row's date, as 0 or 1. */
  lemma EngineerHolidayFlag(s: seq<Row>, precipMedian: Option<real>, isHoliday: Date -> bool, circle: Circle, i: nat)
    requires i < |s|
    ensures var f := Engineer(s, precipMedian, isHoliday, circle)[i].holidayFlag;
      (f == 1 <==> isHoliday(s[i].date)) && (f == 0 <==> !isHoliday(s[i].date))
  {
  }

  /** The three-month arrivals window at row `i`. */
  lemma EngineerArrivalsWindow(s: seq<Row>, precipMedian: Option<real>, isHoliday: Date -> bool, circle: Circle, i: nat)
    requires i < |s|
    ensures var r := Engineer(s, precipMedian, isHoliday, circle)[i];
      && (r.arr3moMean.Some? <==>
           2 <= i && s[i - 2].arrivals.Some? && s[i - 1].arrivals.Some? && s[i].arrivals.Some?)
      && (r.arr3moMax.Some? <==> r.arr3moMean.Some?)
      && (r.arr3moMean.Some? ==>
           r.arr3moMean.value == (s[i - 2].arrivals.value + s[i - 1].arrivals.value + s[i].arrivals.value) / 3.0)
      && (r.arr3moMax.Some? ==>
           && s[i - 2].arrivals.value <= r.arr3moMax.value
           && s[i - 1].arrivals.value <= r.arr3moMax.value
           && s[i].arrivals.value <= r.arr3moMax.value
           && (r.arr3moMax.value == s[i - 2].arrivals.value
               || r.arr3moMax.value == s[i - 1].arrivals.value
               || r.arr3moMax.value == s[i].arrivals.value)
           && r.arr3moMean.value <= r.arr3moMax.value)
  {
    Rolling3(ColumnOf(s, Arrivals), i);
  }

  /** `price_momentum` is the change of the modal price since the row above
      (`Sub` is missing when either operand is): missing for the first row and
      whenever either price is unknown. */
  lemma EngineerMomentum(s: seq<Row>, precipMedian: Option<real>, isHoliday: Date -> bool, circle: Circle, i: nat)
    requires i < |s|
    ensures var m := Engineer(s, precipMedian, isHoliday, circle)[i].priceMomentum;
      && m == Sub(s[i].modalPrice, Above(s, i, ModalPrice))
      && (i == 0 ==> m.None?)
  {
    EngineerLags(s, precipMedian, isHoliday, circle, i);
  }

  /** Appending a row below the frame leaves every lag of the rows above
      unchanged. */
  lemma LagsOfPrefix(s: seq<Row>, x: Row, i: nat)
    requires i < |s|
    ensures forall f: Field :: Shift1(ColumnOf(s + [x], f))[i] == Shift1(ColumnOf(s, f))[i]
    ensures Shift1(TempRangeColumn(s + [x]))[i] == Shift1(TempRangeColumn(s))[i]
  {
  }

  /** Appending a row below the frame leaves the arrivals windows of the rows
      above unchanged. */
  lemma WindowsOfPrefix(s: seq<Row>, x: Row, i: nat)
    requires i < |s|
    ensures RollingMean(ColumnOf(s + [x], Arrivals), 3)[i] == RollingMean(ColumnOf(s, Arrivals), 3)[i]
    ensures RollingMax(ColumnOf(s + [x], Arrivals), 3)[i] == RollingMax(ColumnOf(s, Arrivals), 3)[i]
  {
    var ct, cs := ColumnOf(s + [x], Arrivals), ColumnOf(s, Arrivals);
    assert cs == ct[..|cs|];
    WindowOfPrefix(cs, ct, 3, i);
  }

  /** Appending a row below the frame leaves every feature of the rows above
      unchanged: lags and windows only look upwards. */
  lemma EngineerKeepsEarlierRows(
    s: seq<Row>, x: Row, precipMedian: Option<real>, isHoliday: Date -> bool, circle: Circle, i: nat)
    requires i < |s|
    ensures Engineer(s + [x], precipMedian, isHoliday, circle)[i] == Engineer(s, precipMedian, isHoliday, circle)[i]
  {
    var t := s + [x];
    assert t[i] == s[i];
    LagsOfPrefix(s, x, i);
    WindowsOfPrefix(s, x, i);
    assert FeatureRow(t, i, precipMedian, isHoliday, circle) == FeatureRow(s, i, precipMedian, isHoliday, circle);
  }
}
