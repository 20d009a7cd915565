/**
 The forecast request: the context loaded once at start-up (history, the
 history's precipitation median, the holiday calendar), the new observation
 built from the user's inputs and appended below the history, and the feature
 vector handed to the three quantile models.
 */
module Pipeline {
  import opened Missing
  import opened Calendar
  import opened Stats
  import opened Frame
  import opened Features
  import Selection

  /** The user's inputs for the month to forecast. */
  datatype Observation = Observation(
    year: int,
    month: int,
    arrivals: real,
    tempmax: real,
    tempmin: real,
    humidity: real,
    precip: real,
    solarenergy: real,
    uvindex: real)

  /** Indian public holidays, generated for the years `firstYear..lastYear`.
      A lookup in any other year generates that year on demand, so membership
      is `isHoliday` for every date. */
  datatype HolidayCalendar = HolidayCalendar(firstYear: int, lastYear: int, isHoliday: Date -> bool)

  /** What is loaded once and shared by every request. */
  datatype Context = Context(history: seq<Row>, precipMedian: Option<real>, holidays: HolidayCalendar)

  datatype Error =
    | NoHistoryYears           // `range()` over the years of an empty history raises
    | InvalidDate(year: int, month: int)  // `pd.to_datetime` raises

  function MinYear(s: seq<Row>): (y: int)
    requires |s| > 0
    ensures forall i :: 0 <= i < |s| ==> y <= s[i].year
    ensures exists i :: 0 <= i < |s| && y == s[i].year
  {
    if |s| == 1 then s[0].year
    else
      var m := MinYear(s[1..]);
      assert forall i :: 1 <= i < |s| ==> s[i] == s[1..][i - 1];
      if s[0].year < m then s[0].year else m
  }

  function MaxYear(s: seq<Row>): (y: int)
    requires |s| > 0
    ensures forall i :: 0 <= i < |s| ==> s[i].year <= y
    ensures exists i :: 0 <= i < |s| && y == s[i].year
  {
    if |s| == 1 then s[0].year
    else
      var m := MaxYear(s[1..]);
      assert forall i :: 1 <= i < |s| ==> s[i] == s[1..][i - 1];
      if s[0].year > m then s[0].year else m
  }

  /** Loading the context: the history as read, the median of its
      precipitation, and a holiday calendar for the years from the earliest
      history year through the year after the latest (`range` excludes its
      upper bound `max + 2`). An empty history has no years to range over. */
  function LoadContext(history: seq<Row>, isHoliday: Date -> bool): (r: Result<Context, Error>)
    ensures r.Failure? <==> |history| == 0
    ensures r.Success? ==>
      && r.value.history == history
      && r.value.precipMedian == Median(ColumnOf(history, Precip))
      && r.value.holidays.isHoliday == isHoliday
    ensures r.Success? ==>
      var cal := r.value.holidays;
      && (forall i :: 0 <= i < |history| ==> cal.firstYear <= history[i].year < cal.lastYear)
      && (exists i :: 0 <= i < |history| && history[i].year == cal.firstYear)
      && (exists i :: 0 <= i < |history| && history[i].year == cal.lastYear - 1)
  {
    if |history| == 0 then Failure(NoHistoryYears)
    else
      var cal := HolidayCalendar(MinYear(history), MaxYear(history) + 1, isHoliday);
      Success(Context(history, Median(ColumnOf(history, Precip)), cal))
  }

  /** The new row: every input is known, the date is the first of the month,
      and there is no modal price — it is what is being forecast. */
  function NewRow(obs: Observation, date: Date): Row {
    Row(date, obs.year, obs.month,
        Some(obs.arrivals), Some(obs.tempmax), Some(obs.tempmin), Some(obs.humidity),
        Some(obs.precip), Some(obs.solarenergy), Some(obs.uvindex), None)
  }

  /** `pd.concat([hist, new_row], ignore_index=True)`: the history rows in
      their order, then the new row, whatever its date. */
  function Append(history: seq<Row>, x: Row): (s: seq<Row>)
    ensures |s| == |history| + 1
    ensures forall i :: 0 <= i < |history| ==> s[i] == history[i]
    ensures s[|history|] == x
  {
    history + [x]
  }

  /** The working frame of one request: the history with the new row below
      it, or the error `pd.to_datetime` raises for the requested month. */
  function WorkingFrame(ctx: Context, obs: Observation): (r: Result<seq<Row>, Error>)
    ensures r.Success? ==> |r.value| == |ctx.history| + 1
  {
    match FirstOfMonth(obs.year, obs.month)
    case None => Failure(InvalidDate(obs.year, obs.month))
    case Some(date) => Success(Append(ctx.history, NewRow(obs, date)))
  }

  /** The engineered working frame of one request. */
  function EngineeredFrame(ctx: Context, circle: Circle, obs: Observation): (r: Result<seq<Featured>, Error>)
    ensures r.Success? ==> |r.value| == |ctx.history| + 1
  {
    var s :- WorkingFrame(ctx, obs);
    Success(Engineer(s, ctx.precipMedian, ctx.holidays.isHoliday, circle))
  }

  /** The whole pipeline up to the models: the feature vector of a request. */
  function FeatureVector(ctx: Context, circle: Circle, obs: Observation): Result<seq<real>, Error> {
    var t :- EngineeredFrame(ctx, circle, obs);
    Success(Selection.SelectFeatures(t))
  }

  /** The value a lag column of the new row reads: the last history row's
      cell, or NaN when there is no history. */
  function LastOfHistory(history: seq<Row>, f: Field): Option<real> {
    if |history| == 0 then None else Get(history[|history| - 1], f)
  }

  /** A request fails exactly when its month cannot be turned into a date;
      otherwise the working frame is the unchanged history followed by the
      new row, dated the first of the requested month and without a price. */
  lemma WorkingFrameShape(ctx: Context, obs: Observation)
    ensures var w := WorkingFrame(ctx, obs);
      && (w.Failure? <==> !(1 <= obs.month <= 12 && InTimestampRange(obs.year, obs.month)))
      && (w.Failure? ==> w.error == InvalidDate(obs.year, obs.month))
    ensures var w := WorkingFrame(ctx, obs);
      w.Success? ==>
        var n := |ctx.history|;
        && |w.value| == n + 1
        && w.value[..n] == ctx.history
        && w.value[n].date == CalendarDate(obs.year, obs.month, 1)
        && w.value[n].year == obs.year && w.value[n].month == obs.month
        && w.value[n].modalPrice.None?
        && w.value[n].arrivals == Some(obs.arrivals)
        && w.value[n].tempmax == Some(obs.tempmax)
        && w.value[n].tempmin == Some(obs.tempmin)
        && w.value[n].humidity == Some(obs.humidity)
        && w.value[n].precip == Some(obs.precip)
        && w.value[n].solarenergy == Some(obs.solarenergy)
        && w.value[n].uvindex == Some(obs.uvindex)
  {
  }

  /** The history rows keep every feature they had before the new row was
      appended: the engineered history is the same with or without it. */
  lemma HistoryFeaturesUnchanged(ctx: Context, circle: Circle, obs: Observation, i: nat)
    requires i < |ctx.history|
    ensures var e := EngineeredFrame(ctx, circle, obs);
      e.Success? ==>
        e.value[i] == Engineer(ctx.history, ctx.precipMedian, ctx.holidays.isHoliday, circle)[i]
  {
    var w := WorkingFrame(ctx, obs);
    if w.Success? {
      var date := FirstOfMonth(obs.year, obs.month).value;
      EngineerKeepsEarlierRows(ctx.history, NewRow(obs, date), ctx.precipMedian, ctx.holidays.isHoliday, circle, i);
    }
  }

  /** The new row's lag columns are exactly the last history row's values
      (NaN with no history), its momentum is always missing because it has no
      price, and its arrivals window covers the last two history rows. */
  lemma NewRowFeatures(ctx: Context, circle: Circle, obs: Observation)
    ensures var e := EngineeredFrame(ctx, circle, obs);
      e.Success? ==>
        var h := ctx.history;
        var last := e.value[|h|];
        && |e.value| == |h| + 1
        && last.modalPriceLag1 == LastOfHistory(h, ModalPrice)
        && last.arrivalsLag1 == LastOfHistory(h, Arrivals)
        && last.humidityLag1 == LastOfHistory(h, Humidity)
        && last.precipLag1 == LastOfHistory(h, Precip)
        && last.tempmaxLag1 == LastOfHistory(h, Tempmax)
        && last.tempminLag1 == LastOfHistory(h, Tempmin)
        && last.solarenergyLag1 == LastOfHistory(h, Solarenergy)
        && last.uvindexLag1 == LastOfHistory(h, Uvindex)
        && last.tempRangeLag1 == Sub(LastOfHistory(h, Tempmax), LastOfHistory(h, Tempmin))
        && last.priceMomentum.None?
        && (last.arr3moMean.Some? <==>
             |h| >= 2 && h[|h| - 2].arrivals.Some? && h[|h| - 1].arrivals.Some?)
        && (last.arr3moMean.Some? ==>
             last.arr3moMean.value == (h[|h| - 2].arrivals.value + h[|h| - 1].arrivals.value + obs.arrivals) / 3.0)
  {
    var w := WorkingFrame(ctx, obs);
    if w.Success? {
      var s := w.value;
      var h := ctx.history;
      var n := |h|;
      var e := Engineer(s, ctx.precipMedian, ctx.holidays.isHoliday, circle);
      EngineerLags(s, ctx.precipMedian, ctx.holidays.isHoliday, circle, n);
      EngineerMomentum(s, ctx.precipMedian, ctx.holidays.isHoliday, circle, n);
      EngineerArrivalsWindow(s, ctx.precipMedian, ctx.holidays.isHoliday, circle, n);
      if n > 0 {
        assert s[n - 1] == h[n - 1];
      }
      if n > 1 {
        assert s[n - 2] == h[n - 2];
      }
    }
  }

  /** The row-local features of the new row, computed from the user's inputs alone. */
  lemma NewRowLocalFeatures(ctx: Context, circle: Circle, obs: Observation)
    ensures var e := EngineeredFrame(ctx, circle, obs);
      e.Success? ==>
        var last := e.value[|ctx.history|];
        var doy := CumulativeDays(obs.year, obs.month) + 1;
        && |e.value| == |ctx.history| + 1
        && last.tempRange == Some(obs.tempmax - obs.tempmin)
        && last.humidUv.Some? && last.humidUv.value == obs.humidity * obs.uvindex
        && last.monthSin == circle.sin(obs.month, 12)
        && last.monthCos == circle.cos(obs.month, 12)
        && last.sin365_1 == circle.sin(doy, 365)
        && last.cos365_1 == circle.cos(doy, 365)
        && last.sin365_2 == circle.sin(2 * doy, 365)
        && last.cos365_2 == circle.cos(2 * doy, 365)
        && (last.rainFlag == 1 <==> ctx.precipMedian.Some? && obs.precip > ctx.precipMedian.value)
        && (last.holidayFlag == 1 <==> ctx.holidays.isHoliday(CalendarDate(obs.year, obs.month, 1)))
  {
    var w := WorkingFrame(ctx, obs);
    if w.Success? {
      var s := w.value;
      var n := |ctx.history|;
      var e := EngineeredFrame(ctx, circle, obs);
      assert e.value == Engineer(s, ctx.precipMedian, ctx.holidays.isHoliday, circle);
      var date := FirstOfMonth(obs.year, obs.month).value;
      var x := NewRow(obs, date);
      assert s[n] == x;
      FeatureRowKeepsRowLocal(s, n, ctx.precipMedian, ctx.holidays.isHoliday, circle);
      NewRowLocal(obs, date, ctx.precipMedian, ctx.holidays.isHoliday, circle);
    }
  }

  /** The row-local features of a new row, from its inputs alone. */
  lemma NewRowLocal(obs: Observation, date: Date, precipMedian: Option<real>, isHoliday: Date -> bool, circle: Circle)
    requires date == CalendarDate(obs.year, obs.month, 1)
    ensures var r := RowLocal(NewRow(obs, date), precipMedian, isHoliday, circle);
      var doy := CumulativeDays(obs.year, obs.month) + 1;
      && r.tempRange == Some(obs.tempmax - obs.tempmin)
      && r.humidUv.Some? && r.humidUv.value == obs.humidity * obs.uvindex
      && r.monthSin == circle.sin(obs.month, 12)
      && r.monthCos == circle.cos(obs.month, 12)
      && r.sin365_1 == circle.sin(doy, 365)
      && r.cos365_1 == circle.cos(doy, 365)
      && r.sin365_2 == circle.sin(2 * doy, 365)
      && r.cos365_2 == circle.cos(2 * doy, 365)
      && (r.rainFlag == 1 <==> precipMedian.Some? && obs.precip > precipMedian.value)
      && (r.holidayFlag == 1 <==> isHoliday(date))
  {
  }

  /** The feature vector of a request: sixteen entries in the models' order.
      The observation's own inputs pass through, the lags are the last history
      row's values with NaN filled by 0, and price momentum is always 0. */
  lemma FeatureVectorContents(ctx: Context, circle: Circle, obs: Observation)
    ensures var v := FeatureVector(ctx, circle, obs);
      && (v.Failure? <==> !(1 <= obs.month <= 12 && InTimestampRange(obs.year, obs.month)))
      && (v.Success? ==>
        var h := ctx.history;
        var x := v.value;
        var doy := CumulativeDays(obs.year, obs.month) + 1;
        && |x| == 16
        && x[0] == obs.arrivals
        && x[1] == obs.year as real
        && x[2] == obs.month as real
        && x[3] == obs.humidity
        && x[4] == obs.precip
        && x[5] == obs.solarenergy
        && x[6] == obs.uvindex
        && x[7] == FillZero(LastOfHistory(h, ModalPrice))
        && x[8] == obs.tempmax - obs.tempmin
        && x[9] == FillZero(LastOfHistory(h, Humidity))
        && x[10] == FillZero(Sub(LastOfHistory(h, Tempmax), LastOfHistory(h, Tempmin)))
        && x[11] == circle.sin(obs.month, 12)
        && x[12] == obs.humidity * obs.uvindex
        && x[13] == circle.sin(doy, 365)
        && x[14] == circle.sin(2 * doy, 365)
        && x[15] == 0.0)
  {
    WorkingFrameShape(ctx, obs);
    NewRowFeatures(ctx, circle, obs);
    NewRowLocalFeatures(ctx, circle, obs);
    var e := EngineeredFrame(ctx, circle, obs);
    if e.Success? {
      var t := e.value;
      assert t[|t| - 1] == t[|ctx.history|];
      assert t[|t| - 1].row == WorkingFrame(ctx, obs).value[|ctx.history|];
    }
  }

  /** With no history, every lag, window and momentum feature of the new row
      is missing, so every history-dependent entry of the vector is the fill
      value 0. */
  lemma EmptyHistoryVector(ctx: Context, circle: Circle, obs: Observation)
    requires |ctx.history| == 0
    ensures var e := EngineeredFrame(ctx, circle, obs);
      e.Success? ==>
        var last := e.value[0];
        && last.modalPriceLag1.None? && last.arrivalsLag1.None? && last.humidityLag1.None?
        && last.precipLag1.None? && last.tempmaxLag1.None? && last.tempminLag1.None?
        && last.solarenergyLag1.None? && last.uvindexLag1.None? && last.tempRangeLag1.None?
        && last.arr3moMean.None? && last.arr3moMax.None? && last.priceMomentum.None?
    ensures var v := FeatureVector(ctx, circle, obs);
      v.Success? ==> v.value[7] == 0.0 && v.value[9] == 0.0 && v.value[10] == 0.0 && v.value[15] == 0.0
  {
    NewRowFeatures(ctx, circle, obs);
    FeatureVectorContents(ctx, circle, obs);
    var w := WorkingFrame(ctx, obs);
    if w.Success? {
      EngineerArrivalsWindow(w.value, ctx.precipMedian, ctx.holidays.isHoliday, circle, 0);
    }
  }

  /** A worked request: one history month (January 2024, 900 tonnes at a
      modal price of 3000, 90/75 degrees, 55% humidity, 1.0 mm of rain) and a
      forecast for February 2024 with 1000 tonnes, 96/81 degrees, 60%
      humidity, 2.0 mm, solar energy 15 and UV index 7. */
  lemma ExampleRequest(ctx: Context, circle: Circle, janDate: Date, solar: Option<real>, uv: Option<real>)
    requires janDate == CalendarDate(2024, 1, 1)
    requires ctx.history == [Row(janDate, 2024, 1, Some(900.0), Some(90.0), Some(75.0), Some(55.0),
                                 Some(1.0), solar, uv, Some(3000.0))]
    ensures var v := FeatureVector(ctx, circle, Observation(2024, 2, 1000.0, 96.0, 81.0, 60.0, 2.0, 15.0, 7.0));
      && v.Success?
      && v.value[0] == 1000.0 && v.value[1] == 2024.0 && v.value[2] == 2.0
      && v.value[3] == 60.0 && v.value[4] == 2.0 && v.value[5] == 15.0 && v.value[6] == 7.0
      && v.value[7] == 3000.0
      && v.value[8] == 15.0
      && v.value[9] == 55.0
      && v.value[10] == 15.0
      && v.value[12] == 420.0
      && v.value[13] == circle.sin(32, 365)
      && v.value[15] == 0.0
  {
    var obs := Observation(2024, 2, 1000.0, 96.0, 81.0, 60.0, 2.0, 15.0, 7.0);
    var h := ctx.history;
    assert InTimestampRange(2024, 2);
    assert LastOfHistory(h, ModalPrice) == Some(3000.0);
    assert LastOfHistory(h, Humidity) == Some(55.0);
    assert Sub(LastOfHistory(h, Tempmax), LastOfHistory(h, Tempmin)) == Some(15.0);
    FeatureVectorContents(ctx, circle, obs);
    var v := FeatureVector(ctx, circle, obs).value;
    assert CumulativeDays(2024, 2) == 31;
  }
}
