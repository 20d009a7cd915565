/**
 Feature selection: the last engineered row, projected by column name onto the
 sixteen columns the price models were trained on, with every missing cell
 filled with 0.
 */
module Selection {
  import opened Missing
  import opened Features

  /** The numeric columns of the engineered frame. */
  datatype Col =
    | Year | Month | Arrivals | Tempmax | Tempmin | Humidity | Precip | Solarenergy | Uvindex | ModalPrice
    | ModalPriceLag1 | TempRange | HumidityPrecip | HumidUv
    | ArrivalsLag1 | HumidityLag1 | PrecipLag1 | TempmaxLag1 | TempminLag1 | SolarenergyLag1 | UvindexLag1
    | TempRangeLag1 | MonthSin | MonthCos | RainFlag | Arr3moMean | Arr3moMax
    | Sin365_1 | Cos365_1 | Sin365_2 | Cos365_2 | PriceMomentum | HolidayFlag

  /** The column's name in the frame. */
  function Name(c: Col): string {
    match c
    case Year => "Year"
    case Month => "Month"
    case Arrivals => "Arrivals"
    case Tempmax => "tempmax"
    case Tempmin => "tempmin"
    case Humidity => "humidity"
    case Precip => "precip"
    case Solarenergy => "solarenergy"
    case Uvindex => "uvindex"
    case ModalPrice => "ModalPrice"
    case ModalPriceLag1 => "ModalPrice_lag1"
    case TempRange => "temp_range"
    case HumidityPrecip => "humidity_precip"
    case HumidUv => "humid_uv"
    case ArrivalsLag1 => "Arrivals_lag1"
    case HumidityLag1 => "humidity_lag1"
    case PrecipLag1 => "precip_lag1"
    case TempmaxLag1 => "tempmax_lag1"
    case TempminLag1 => "tempmin_lag1"
    case SolarenergyLag1 => "solarenergy_lag1"
    case UvindexLag1 => "uvindex_lag1"
    case TempRangeLag1 => "temp_range_lag1"
    case MonthSin => "month_sin"
    case MonthCos => "month_cos"
    case RainFlag => "rain_flag"
    case Arr3moMean => "arr_3mo_mean"
    case Arr3moMax => "arr_3mo_max"
    case Sin365_1 => "sin365_1"
    case Cos365_1 => "cos365_1"
    case Sin365_2 => "sin365_2"
    case Cos365_2 => "cos365_2"
    case PriceMomentum => "price_momentum"
    case HolidayFlag => "holiday_flag"
  }

  /** The cell of column `c` in one engineered row. Integer columns and the
      0/1 flags are always known. */
  function Lookup(f: Featured, c: Col): Option<real> {
    match c
    case Year => Some(f.row.year as real)
    case Month => Some(f.row.month as real)
    case Arrivals => f.row.arrivals
    case Tempmax => f.row.tempmax
    case Tempmin => f.row.tempmin
    case Humidity => f.row.humidity
    case Precip => f.row.precip
    case Solarenergy => f.row.solarenergy
    case Uvindex => f.row.uvindex
    case ModalPrice => f.row.modalPrice
    case ModalPriceLag1 => f.modalPriceLag1
    case TempRange => f.tempRange
    case HumidityPrecip => f.humidityPrecip
    case HumidUv => f.humidUv
    case ArrivalsLag1 => f.arrivalsLag1
    case HumidityLag1 => f.humidityLag1
    case PrecipLag1 => f.precipLag1
    case TempmaxLag1 => f.tempmaxLag1
    case TempminLag1 => f.tempminLag1
    case SolarenergyLag1 => f.solarenergyLag1
    case UvindexLag1 => f.uvindexLag1
    case TempRangeLag1 => f.tempRangeLag1
    case MonthSin => Some(f.monthSin)
    case MonthCos => Some(f.monthCos)
    case RainFlag => Some(f.rainFlag as real)
    case Arr3moMean => f.arr3moMean
    case Arr3moMax => f.arr3moMax
    case Sin365_1 => Some(f.sin365_1)
    case Cos365_1 => Some(f.cos365_1)
    case Sin365_2 => Some(f.sin365_2)
    case Cos365_2 => Some(f.cos365_2)
    case PriceMomentum => f.priceMomentum
    case HolidayFlag => Some(f.holidayFlag as real)
  }

  /** The model's input columns, in the order the models expect them. */
  function FeatureColumn(k: nat): Col
    requires k < 16
  {
    match k
    case 0 => Arrivals
    case 1 => Year
    case 2 => Month
    case 3 => Humidity
    case 4 => Precip
    case 5 => Solarenergy
    case 6 => Uvindex
    case 7 => ModalPriceLag1
    case 8 => TempRange
    case 9 => HumidityLag1
    case 10 => TempRangeLag1
    case 11 => MonthSin
    case 12 => HumidUv
    case 13 => Sin365_1
    case 14 => Sin365_2
    case _ => PriceMomentum
  }

  /** The same list by name, as `feat_cols` lists it. */
  const FeatureNames: seq<string> := [
    "Arrivals", "Year", "Month", "humidity", "precip", "solarenergy", "uvindex",
    "ModalPrice_lag1", "temp_range", "humidity_lag1", "temp_range_lag1",
    "month_sin", "humid_uv", "sin365_1", "sin365_2", "price_momentum"]

  /** The selected columns are sixteen distinct columns of the frame, named
      exactly as listed. */
  lemma FeatureColumnsNamed()
    ensures |FeatureNames| == 16
    ensures forall k :: 0 <= k < 16 ==> Name(FeatureColumn(k)) == FeatureNames[k]
    ensures forall k, l :: 0 <= k < l < 16 ==> FeatureColumn(k) != FeatureColumn(l)
  {
  }

  /** `df.iloc[[-1]][feat_cols].fillna(0)`: the feature vector. It has sixteen
      entries, read from the last row only, in the order of `FeatureColumn`;
      a known cell passes through unchanged and a missing one becomes 0. */
  function SelectFeatures(table: seq<Featured>): (v: seq<real>)
    requires |table| > 0
    ensures |v| == 16
    ensures var last := table[|table| - 1];
      && v[0] == FillZero(last.row.arrivals)
      && v[1] == last.row.year as real
      && v[2] == last.row.month as real
      && v[3] == FillZero(last.row.humidity)
      && v[4] == FillZero(last.row.precip)
      && v[5] == FillZero(last.row.solarenergy)
      && v[6] == FillZero(last.row.uvindex)
      && v[7] == FillZero(last.modalPriceLag1)
      && v[8] == FillZero(last.tempRange)
      && v[9] == FillZero(last.humidityLag1)
      && v[10] == FillZero(last.tempRangeLag1)
      && v[11] == last.monthSin
      && v[12] == FillZero(last.humidUv)
      && v[13] == last.sin365_1
      && v[14] == last.sin365_2
      && v[15] == FillZero(last.priceMomentum)
  {
    var last := table[|table| - 1];
    var v := seq(16, k requires 0 <= k < 16 => FillZero(Lookup(last, FeatureColumn(k))));
    InputEntries(last, v);
    EngineeredEntries(last, v);
    v
  }

  /** The first seven selected columns are the row's own inputs. */
  lemma InputEntries(last: Featured, v: seq<real>)
    requires |v| == 16
    requires forall k :: 0 <= k < 16 ==> v[k] == FillZero(Lookup(last, FeatureColumn(k)))
    ensures v[0] == FillZero(last.row.arrivals)
    ensures v[1] == last.row.year as real
    ensures v[2] == last.row.month as real
    ensures v[3] == FillZero(last.row.humidity)
    ensures v[4] == FillZero(last.row.precip)
    ensures v[5] == FillZero(last.row.solarenergy)
    ensures v[6] == FillZero(last.row.uvindex)
  {
  }

  /** The other nine selected columns are engineered features. */
  lemma EngineeredEntries(last: Featured, v: seq<real>)
    requires |v| == 16
    requires forall k :: 0 <= k < 16 ==> v[k] == FillZero(Lookup(last, FeatureColumn(k)))
    ensures v[7] == FillZero(last.modalPriceLag1)
    ensures v[8] == FillZero(last.tempRange)
    ensures v[9] == FillZero(last.humidityLag1)
    ensures v[10] == FillZero(last.tempRangeLag1)
    ensures v[11] == last.monthSin
    ensures v[12] == FillZero(last.humidUv)
    ensures v[13] == last.sin365_1
    ensures v[14] == last.sin365_2
    ensures v[15] == FillZero(last.priceMomentum)
  {
  }

  /** Only the last row matters: frames that end in the same row select the
      same vector, whatever comes before it. */
  lemma SelectionReadsLastRowOnly(t: seq<Featured>, u: seq<Featured>)
    requires |t| > 0 && |u| > 0 && t[|t| - 1] == u[|u| - 1]
    ensures SelectFeatures(t) == SelectFeatures(u)
  {
  }

  /** The fill policy, entry by entry: an entry is 0 whenever its cell is
      missing, and equals the cell's value whenever the cell is known. */
  lemma SelectionFillsMissingWithZero(table: seq<Featured>, k: nat)
    requires |table| > 0 && k < 16
    ensures var cell := Lookup(table[|table| - 1], FeatureColumn(k));
      && (cell.None? ==> SelectFeatures(table)[k] == 0.0)
      && (cell.Some? ==> SelectFeatures(table)[k] == cell.value)
  {
  }
}
