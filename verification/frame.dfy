/**
 The monthly price frame: one row per month, its float columns, and the two
 column operations the features are built from, `shift(1)` and
 `rolling(w)` (with pandas' default of requiring all `w` values of a window).
 */
module Frame {
  import opened Missing
  import opened Calendar

  /** One month of the commodity's history. `year` and `month` are integer
      columns; every other measured column is a float column that may be NaN. */
  datatype Row = Row(
    date: Date,
    year: int,
    month: int,
    arrivals: Option<real>,
    tempmax: Option<real>,
    tempmin: Option<real>,
    humidity: Option<real>,
    precip: Option<real>,
    solarenergy: Option<real>,
    uvindex: Option<real>,
    modalPrice: Option<real>)

  /** The measured float columns of a row. */
  datatype Field = Arrivals | Tempmax | Tempmin | Humidity | Precip | Solarenergy | Uvindex | ModalPrice

  function Get(r: Row, f: Field): Option<real> {
    match f
    case Arrivals => r.arrivals
    case Tempmax => r.tempmax
    case Tempmin => r.tempmin
    case Humidity => r.humidity
    case Precip => r.precip
    case Solarenergy => r.solarenergy
    case Uvindex => r.uvindex
    case ModalPrice => r.modalPrice
  }

  type Column = seq<Option<real>>

  /** `df[f]`: the column `f`, one cell per row. */
  function ColumnOf(s: seq<Row>, f: Field): (c: Column)
    ensures |c| == |s|
    ensures forall i :: 0 <= i < |s| ==> c[i] == Get(s[i], f)
  {
    seq(|s|, i requires 0 <= i < |s| => Get(s[i], f))
  }

  /** `shift(1)`: each cell moves one row down and the first row gets NaN. */
  function Shift1(c: Column): (r: Column)
    ensures |r| == |c|
    ensures |c| > 0 ==> r[0].None?
    ensures forall i :: 1 <= i < |c| ==> r[i] == c[i - 1]
  {
    if |c| == 0 then [] else [None] + c[..|c| - 1]
  }

  function Sum(s: seq<real>): real {
    if |s| == 0 then 0.0 else Sum(s[..|s| - 1]) + s[|s| - 1]
  }

  function MaxOf(s: seq<real>): (r: real)
    requires |s| > 0
    ensures forall j :: 0 <= j < |s| ==> s[j] <= r
    ensures r in s
  {
    if |s| == 1 then s[0]
    else
      var m := MaxOf(s[..|s| - 1]);
      if s[|s| - 1] > m then s[|s| - 1] else m
  }

  /** The window of `rolling(w)` at row `i`: the `w` values ending at row `i`,
      or `None` when the window reaches above the first row or holds a NaN. */
  function Window(c: Column, w: nat, i: nat): (r: Option<seq<real>>)
    requires 1 <= w && i < |c|
    ensures r.Some? <==> w <= i + 1 && forall j :: i + 1 - w <= j <= i ==> c[j].Some?
    ensures r.Some? ==> |r.value| == w
    ensures r.Some? ==> forall k :: 0 <= k < w ==> Some(r.value[k]) == c[i + 1 - w + k]
  {
    if i + 1 < w then None
    else if forall j :: i + 1 - w <= j <= i ==> c[j].Some? then
      Some(seq(w, k requires 0 <= k < w => c[i + 1 - w + k].value))
    else None
  }

  /** A window only reads rows up to its own: extending the column below
      leaves it unchanged. */
  lemma WindowOfPrefix(c: Column, d: Column, w: nat, i: nat)
    requires 1 <= w && i < |c| <= |d| && c == d[..|c|]
    ensures Window(c, w, i) == Window(d, w, i)
  {
    assert forall j :: 0 <= j <= i ==> c[j] == d[j];
    var a, b := Window(c, w, i), Window(d, w, i);
    assert a.Some? <==> b.Some?;
    if a.Some? {
      assert forall k :: 0 <= k < w ==> Some(a.value[k]) == Some(b.value[k]);
      assert a.value == b.value;
    }
  }

  /** `rolling(w).mean()` */
  function RollingMean(c: Column, w: nat): (r: Column)
    requires w >= 1
    ensures |r| == |c|
  {
    seq(|c|, i requires 0 <= i < |c| =>
      match Window(c, w, i)
      case Some(vs) => Some(Sum(vs) / w as real)
      case None => None)
  }

  /** `rolling(w).max()` */
  function RollingMax(c: Column, w: nat): (r: Column)
    requires w >= 1
    ensures |r| == |c|
  {
    seq(|c|, i requires 0 <= i < |c| =>
      match Window(c, w, i)
      case Some(vs) => Some(MaxOf(vs))
      case None => None)
  }

  /** The three-row trailing mean and maximum: missing for the first two rows
      and whenever one of the three cells is NaN; otherwise the mean and the
      largest of the three values, and never is the maximum below the mean. */
  lemma Rolling3(c: Column, i: nat)
    requires i < |c|
    ensures RollingMean(c, 3)[i].Some? <==> 2 <= i && c[i - 2].Some? && c[i - 1].Some? && c[i].Some?
    ensures RollingMax(c, 3)[i].Some? <==> RollingMean(c, 3)[i].Some?
    ensures RollingMean(c, 3)[i].Some? ==>
      RollingMean(c, 3)[i].value == (c[i - 2].value + c[i - 1].value + c[i].value) / 3.0
    ensures RollingMax(c, 3)[i].Some? ==>
      var mx := RollingMax(c, 3)[i].value;
      && c[i - 2].value <= mx && c[i - 1].value <= mx && c[i].value <= mx
      && (mx == c[i - 2].value || mx == c[i - 1].value || mx == c[i].value)
      && RollingMean(c, 3)[i].value <= mx
  {
    var win := Window(c, 3, i);
    if win.Some? {
      var vs := win.value;
      assert vs == [c[i - 2].value, c[i - 1].value, c[i].value];
      assert vs[..2] == [c[i - 2].value, c[i - 1].value];
      assert vs[..2][..1] == [c[i - 2].value];
      assert vs[..2][..1][..0] == [];
      assert Sum(vs[..2][..1]) == c[i - 2].value;
      assert Sum(vs[..2]) == c[i - 2].value + c[i - 1].value;
      assert Sum(vs) == c[i - 2].value + c[i - 1].value + c[i].value;
    }
  }
}
