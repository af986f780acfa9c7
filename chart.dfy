/**
 * `getChartData` of HealthTrackerApp.jsx: the days within a date range, in
 * ascending date order, each rating turned into its 1-based level number.
 */
module Chart {

  import opened Wrappers
  import opened DateKeys
  import opened EmotionCatalog
  import opened Categories
  import opened EntryStore

  /**
   * One point of the line chart. `date` is the day's key; the `dd/mm` label
   * the screen shows is produced from it by the host's date formatting.
   */
  datatype ChartPoint = ChartPoint(
    date: string, dolor: Option<int>, libido: Option<int>, sueno: Option<int>, animo: Option<int>,
    emocion: Option<int>)
  {
    /** The plotted value of category `c`. */
    function Value(c: Category): Option<int> {
      match c
      case Dolor => dolor
      case Libido => libido
      case Sueno => sueno
      case EstadoAnimo => animo
      case Emocion => emocion
    }
  }

  /**
   * `entry.x ? categoryToValue(c, entry.x) : null`: an unset rating is absent
   * (the line breaks there), a set one is plotted at its level number, or at
   * 0 when it is not a current level of the category.
   */
  function Rating(c: Category, cats: seq<CustomEmotion>, value: string): (r: Option<int>)
    ensures r.None? <==> value == ""
    ensures r.Some? ==>
      && 0 <= r.value <= |Levels(c, cats)|
      && (r.value == 0 <==> value !in Levels(c, cats))
      && (r.value > 0 ==> Levels(c, cats)[r.value - 1] == value)
      && (r.value > 0 ==> forall j :: 0 <= j < r.value - 1 ==> Levels(c, cats)[j] != value)
  {
    if value != "" then Some(CategoryToValue(c, cats, value)) else None
  }

  /** The point for one day: its key and the rating of each of its five fields. */
  function PointOf(date: string, entry: DayEntry, cats: seq<CustomEmotion>): (r: ChartPoint)
    ensures r.date == date
    ensures forall c :: r.Value(c) == Rating(c, cats, Field(entry, c))
  {
    ChartPoint(
      date,
      Rating(Dolor, cats, entry.dolor),
      Rating(Libido, cats, entry.libido),
      Rating(Sueno, cats, entry.sueno),
      Rating(EstadoAnimo, cats, entry.estadoAnimo),
      Rating(Emocion, cats, entry.emocion))
  }

  /** The days the points stand for, in chart order. */
  function Dates(points: seq<ChartPoint>): seq<string> {
    seq(|points|, i requires 0 <= i < |points| => points[i].date)
  }

  /**
   * `getChartData`: `None` (JavaScript `null`) for a range holding no day;
   * otherwise one point per day in the range, in strictly ascending date order.
   */
  function ChartData(entries: Entries, cats: seq<CustomEmotion>, start: string, end: string)
    : (r: Option<seq<ChartPoint>>)
    ensures r.None? <==> InRangeDates(entries, start, end) == {}
    ensures r.Some? ==> |r.value| == |InRangeDates(entries, start, end)|
    ensures r.Some? ==> forall d :: d in InRangeDates(entries, start, end) <==> d in Dates(r.value)
    ensures r.Some? ==> forall i :: 0 <= i < |r.value| ==>
      r.value[i].date in entries && r.value[i] == PointOf(r.value[i].date, entries[r.value[i].date], cats)
    ensures r.Some? ==> forall i, j :: 0 <= i < j < |r.value| ==> Lt(r.value[i].date, r.value[j].date)
  {
    var filteredEntries := SortedAscending(InRangeDates(entries, start, end));
    if |filteredEntries| == 0 then None
    else
      var points := seq(|filteredEntries|, i requires 0 <= i < |filteredEntries| =>
        PointOf(filteredEntries[i], entries[filteredEntries[i]], cats));
      assert Dates(points) == filteredEntries;
      Some(points)
  }

  /**
   * A built-in rating that is set charts between 1 and 5 when it is one of
   * the category's levels and at 0 otherwise.
   */
  lemma {:induction false} BuiltInRatingScale(date: string, entry: DayEntry, cats: seq<CustomEmotion>, c: Category)
    requires c != Emocion && Field(entry, c) != ""
    ensures var v := PointOf(date, entry, cats).Value(c);
      v.Some? && 0 <= v.value <= 5 && (1 <= v.value <==> Field(entry, c) in Levels(c, cats))
  {
    var v := PointOf(date, entry, cats).Value(c);
    assert v == Rating(c, cats, Field(entry, c));
    assert |Levels(c, cats)| == 5;
  }

  /**
   * An emotion whose item was archived (and whose name no active item
   * shares) charts at 0 rather than disappearing from the line.
   */
  lemma {:induction false} ArchivedEmotionChartsAtZero(date: string, entry: DayEntry, cats: seq<CustomEmotion>, i: nat)
    requires i < |cats| && cats[i].archived && entry.emocion == cats[i].name && entry.emocion != ""
    requires forall j :: 0 <= j < |cats| && !cats[j].archived ==> cats[j].name != cats[i].name
    ensures PointOf(date, entry, cats).emocion == Some(0)
  {
    ActiveNamesMembership(cats, cats[i].name);
    assert cats[i].name !in Levels(Emocion, cats);
  }
}
