/**
 The rows of the ping chart (frontend/src/utils/pingChart.ts): records of several tasks that
 lie close together in time share one row, named by the first of them.
 */
module PingChart {

  import opened Wrappers

  /** `time` is None when it does not parse. */
  datatype Record = Record(time: Option<int>, value: real)
  datatype Series = Series(key: string, intervalSec: Option<real>, records: seq<Record>)

  /** A record with a valid time, and the task it belongs to. */
  datatype Point = Point(key: string, time: int, value: real)

  /** A cell is None for a failed ping. */
  type Cells = map<string, Option<real>>
  datatype Row = Row(time: int, cells: Cells)

  /** The row times in the order they were made, and the rows. */
  datatype Chart = Chart(anchors: seq<int>, grouped: map<int, Cells>)

  // ----- The tolerance -----

  function SmallestInterval(series: seq<Series>): Option<real> {
    if series == [] then None
    else
      var least, own := SmallestInterval(series[..|series| - 1]), series[|series| - 1].intervalSec;
      if own.None? || own.value <= 0.0 then least
      else if least.Some? && least.value < own.value then least else own
  }

  function Tolerance(series: seq<Series>): (t: int)
    ensures 800 <= t <= 1500
  {
    var least := SmallestInterval(series);
    var wanted := ((if least.Some? then least.value else 60.0) * 1000.0 * 0.4).Floor;
    var atLeast := if wanted < 800 then 800 else wanted;
    if atLeast > 1500 then 1500 else atLeast
  }

  /** The shortest interval of a task that has one. */
  lemma {:induction false} SmallestIsLeast(series: seq<Series>)
    ensures SmallestInterval(series).None? <==>
      forall i :: 0 <= i < |series| ==> series[i].intervalSec.None? || series[i].intervalSec.value <= 0.0
    ensures SmallestInterval(series).Some? ==>
      var least := SmallestInterval(series).value;
      && least > 0.0 && (exists i :: 0 <= i < |series| && series[i].intervalSec == Some(least))
      && forall i :: 0 <= i < |series| && series[i].intervalSec.Some? && series[i].intervalSec.value > 0.0 ==>
           least <= series[i].intervalSec.value
  {
    if series != [] {
      var n := |series| - 1;
      SmallestIsLeast(series[..n]);
      assert forall i :: 0 <= i < n ==> series[..n][i] == series[i];
    }
  }

  /** Forty percent of the shortest interval, or of a minute, in whole milliseconds, but 800 to 1500. */
  lemma ToleranceRule(series: seq<Series>)
    ensures var least := SmallestInterval(series);
      var share := (if least.Some? then least.value else 60.0) * 400.0;
      && (Tolerance(series) as real <= share || Tolerance(series) == 800)
      && (share - 1.0 < Tolerance(series) as real || Tolerance(series) == 1500)
  {
  }

  // ----- Placing one record -----

  function Distance(a: int, b: int): nat { if a < b then b - a else a - b }

  /** The oldest row within the tolerance. */
  function FindAnchor(anchors: seq<int>, time: int, tolerance: int): (r: Option<int>)
    ensures r.Some? ==> r.value in anchors && Distance(r.value, time) <= tolerance
    ensures r.None? ==> forall a <- anchors :: Distance(a, time) > tolerance
  {
    if anchors == [] then None
    else if Distance(anchors[0], time) <= tolerance then Some(anchors[0])
    else
      assert anchors == [anchors[0]] + anchors[1..];
      FindAnchor(anchors[1..], time, tolerance)
  }

  function RowFor(anchors: seq<int>, time: int, tolerance: int): int {
    var anchor := FindAnchor(anchors, time, tolerance);
    if anchor.Some? then anchor.value else time
  }

  function CellOf(value: real): Option<real> { if value < 0.0 then None else Some(value) }

  function Add(chart: Chart, p: Point, tolerance: int): Chart {
    var row := RowFor(chart.anchors, p.time, tolerance);
    var isNew := FindAnchor(chart.anchors, p.time, tolerance).None?;
    var cells: Cells := if row in chart.grouped then chart.grouped[row] else map[];
    Chart(if isNew && row !in chart.grouped then chart.anchors + [row] else chart.anchors,
          chart.grouped[row := cells[p.key := CellOf(p.value)]])
  }

  function ChartOf(points: seq<Point>, tolerance: int): Chart {
    if points == [] then Chart([], map[])
    else Add(ChartOf(points[..|points| - 1], tolerance), points[|points| - 1], tolerance)
  }

  // ----- All records -----

  function RecordPoints(key: string, records: seq<Record>): seq<Point> {
    if records == [] then []
    else
      var last := records[|records| - 1];
      RecordPoints(key, records[..|records| - 1])
        + (if last.time.Some? then [Point(key, last.time.value, last.value)] else [])
  }

  /** The valid records, series by series. */
  function Points(series: seq<Series>): seq<Point> {
    if series == [] then []
    else Points(series[..|series| - 1]) + RecordPoints(series[|series| - 1].key, series[|series| - 1].records)
  }

  function Insert(times: seq<int>, t: int): seq<int> {
    if times == [] || t < times[0] then [t] + times else [times[0]] + Insert(times[1..], t)
  }

  function Sorted(times: seq<int>): seq<int> {
    if times == [] then [] else Insert(Sorted(times[..|times| - 1]), times[|times| - 1])
  }

  /** `Object.values(grouped)`, sorted by time. */
  function RowsOf(chart: Chart): seq<Row>
    requires Matched(chart)
  {
    SortedElements(chart.anchors);
    var times := Sorted(chart.anchors);
    seq(|times|, i requires 0 <= i < |times| => assert times[i] in Elements(times);
      Row(times[i], chart.grouped[times[i]]))
  }

  /** One record: find its row or make one, then write its cell. */
  method Place(anchors: seq<int>, grouped: map<int, Cells>, p: Point, tolerance: int)
    returns (anchors': seq<int>, grouped': map<int, Cells>)
    ensures Chart(anchors', grouped') == Add(Chart(anchors, grouped), p, tolerance)
  {
    anchors', grouped' := anchors, grouped;
    var anchor := FindAnchor(anchors, p.time, tolerance);
    var useTime := if anchor.Some? then anchor.value else p.time;
    if useTime !in grouped' {
      grouped' := grouped'[useTime := map[]];
      if anchor.None? { anchors' := anchors' + [useTime]; }
    }
    grouped' := grouped'[useTime := grouped'[useTime][p.key := if p.value < 0.0 then None else Some(p.value)]];
  }

  method BuildPingChartRows(series: seq<Series>) returns (rows: seq<Row>)
    ensures IsChart(series, rows)
  {
    hide Tolerance, RowsOf, Matched, ChartOf, Points;
    var tolerance := Tolerance(series);
    var anchors: seq<int>, grouped: map<int, Cells> := [], map[];
    EmptyChart(tolerance);
    for i := 0 to |series|
      invariant Chart(anchors, grouped) == ChartOf(Points(series[..i]), tolerance)
    {
      PointsStep(series, i);
      var key, records := series[i].key, series[i].records;
      anchors, grouped := AddRecords(anchors, grouped, Points(series[..i]), key, records, tolerance);
    }
    assert series[..|series|] == series;
    ChartIsSound(Points(series), tolerance);
    rows := RowsOf(Chart(anchors, grouped));
  }

  /** The inner loop: the records of one series. */
  method AddRecords(anchors: seq<int>, grouped: map<int, Cells>, ghost done: seq<Point>, key: string,
      records: seq<Record>, tolerance: int) returns (anchors': seq<int>, grouped': map<int, Cells>)
    requires Chart(anchors, grouped) == ChartOf(done, tolerance)
    ensures Chart(anchors', grouped') == ChartOf(done + RecordPoints(key, records), tolerance)
  {
    hide Add, ChartOf, RecordPoints;
    anchors', grouped' := anchors, grouped;
    NoRecords(key, done);
    for j := 0 to |records|
      invariant Chart(anchors', grouped') == ChartOf(done + RecordPoints(key, records[..j]), tolerance)
    {
      RecordStep(done, key, records, j, tolerance);
      if records[j].time.None? { continue; }
      anchors', grouped' := Place(anchors', grouped', Point(key, records[j].time.value, records[j].value), tolerance);
    }
    assert records[..|records|] == records;
  }

  lemma EmptyChart(tolerance: int)
    ensures ChartOf(Points([]), tolerance) == Chart([], map[])
  {
  }

  lemma PointsStep(series: seq<Series>, i: nat)
    requires i < |series|
    ensures Points(series[..i + 1]) == Points(series[..i]) + RecordPoints(series[i].key, series[i].records)
  {
    assert series[..i + 1][..i] == series[..i];
  }

  lemma NoRecords(key: string, done: seq<Point>)
    ensures done + RecordPoints(key, []) == done
  {
  }

  /** One record more: nothing if its time is not valid, else it is added. */
  lemma RecordStep(done: seq<Point>, key: string, records: seq<Record>, j: nat, tolerance: int)
    requires j < |records|
    ensures var before := ChartOf(done + RecordPoints(key, records[..j]), tolerance);
      ChartOf(done + RecordPoints(key, records[..j + 1]), tolerance) ==
        if records[j].time.None? then before
        else Add(before, Point(key, records[j].time.value, records[j].value), tolerance)
  {
    hide Add;
    var r := records[j];
    assert records[..j + 1][..j] == records[..j];
    var before, after := done + RecordPoints(key, records[..j]), done + RecordPoints(key, records[..j + 1]);
    if r.time.None? {
      assert after == before;
    } else {
      AppendPoint(done, RecordPoints(key, records[..j]), Point(key, r.time.value, r.value));
    }
  }

  lemma AppendPoint(done: seq<Point>, more: seq<Point>, p: Point)
    ensures var after := done + (more + [p]); after[..|after| - 1] == done + more && after[|after| - 1] == p
  {
  }

  // ----- What a chart keeps -----

  ghost predicate Apart(times: seq<int>, tolerance: int) {
    forall i, j :: 0 <= i < j < |times| ==> Distance(times[i], times[j]) > tolerance
  }

  ghost function Elements(times: seq<int>): set<int> { set t | t in times }

  ghost predicate Matched(chart: Chart) { chart.grouped.Keys == Elements(chart.anchors) }

  lemma AddKeepsMatched(chart: Chart, p: Point, tolerance: int)
    requires Matched(chart) && tolerance >= 0
    ensures Matched(Add(chart, p, tolerance))
  {
    var row := RowFor(chart.anchors, p.time, tolerance);
    assert forall t :: t in chart.anchors + [row] <==> t in chart.anchors || t == row;
  }

  lemma AddKeepsApart(chart: Chart, p: Point, tolerance: int)
    requires Apart(chart.anchors, tolerance) && tolerance >= 0
    ensures Apart(Add(chart, p, tolerance).anchors, tolerance)
  {
  }

  lemma {:induction false} ChartIsSound(points: seq<Point>, tolerance: int)
    requires tolerance >= 0
    ensures Matched(ChartOf(points, tolerance)) && Apart(ChartOf(points, tolerance).anchors, tolerance)
  {
    if points != [] {
      hide Add, Matched, Apart;
      var n := |points| - 1;
      ChartIsSound(points[..n], tolerance);
      AddKeepsMatched(ChartOf(points[..n], tolerance), points[n], tolerance);
      AddKeepsApart(ChartOf(points[..n], tolerance), points[n], tolerance);
    }
  }

  // ----- Which record goes where -----

  /** The row that the i-th record joined or made when it was processed. */
  ghost function Home(points: seq<Point>, i: nat, tolerance: int): int
    requires i < |points|
  {
    RowFor(ChartOf(points[..i], tolerance).anchors, points[i].time, tolerance)
  }

  /** The last record of a task in a row, as its cell. */
  ghost function LastCell(points: seq<Point>, row: int, key: string, tolerance: int): Option<Option<real>> {
    if points == [] then None
    else
      var n := |points| - 1;
      if points[n].key == key && Home(points, n, tolerance) == row then
        Some(if points[n].value < 0.0 then None else Some(points[n].value))
      else LastCell(points[..n], row, key, tolerance)
  }

  ghost function Cell(grouped: map<int, Cells>, row: int, key: string): Option<Option<real>> {
    if row in grouped && key in grouped[row] then Some(grouped[row][key]) else None
  }

  /** Every cell holds the last record of its task in that row, and there are no other cells. */
  lemma {:induction false} CellsHoldLast(points: seq<Point>, row: int, key: string, tolerance: int)
    ensures Cell(ChartOf(points, tolerance).grouped, row, key) == LastCell(points, row, key, tolerance)
  {
    if points != [] {
      CellsHoldLast(points[..|points| - 1], row, key, tolerance);
    }
  }

  /** A record's row is there once it is added, and rows stay. */
  lemma AddKeepsRows(chart: Chart, p: Point, tolerance: int)
    requires Matched(chart) && tolerance >= 0
    ensures var row, after := RowFor(chart.anchors, p.time, tolerance), Add(chart, p, tolerance).anchors;
      && row in after && Distance(row, p.time) <= tolerance
      && (forall a :: a in chart.anchors ==> a in after)
      && (forall a :: a in after && a !in chart.anchors ==> a == row == p.time)
  {
  }

  lemma {:induction false} HomesAreRows(points: seq<Point>, i: nat, tolerance: int)
    requires tolerance >= 0 && i < |points|
    ensures Home(points, i, tolerance) in ChartOf(points, tolerance).anchors
    ensures Distance(Home(points, i, tolerance), points[i].time) <= tolerance
  {
    hide Add, RowFor, Matched, Apart, Distance;
    var n := |points| - 1;
    ChartIsSound(points[..n], tolerance);
    AddKeepsRows(ChartOf(points[..n], tolerance), points[n], tolerance);
    if i < n {
      HomesAreRows(points[..n], i, tolerance);
      assert points[..n][..i] == points[..i];
    }
  }

  ghost predicate MadeBy(points: seq<Point>, i: nat, row: int, tolerance: int) {
    i < |points| && points[i].time == row && Home(points, i, tolerance) == row
  }

  /** Every row was made by a record at exactly its time. */
  lemma {:induction false} RowsAreRecords(points: seq<Point>, row: int, tolerance: int) returns (i: nat)
    requires tolerance >= 0 && row in ChartOf(points, tolerance).anchors
    ensures MadeBy(points, i, row, tolerance)
  {
    hide Add, RowFor, Matched, Apart, Distance;
    var n := |points| - 1;
    ChartIsSound(points[..n], tolerance);
    AddKeepsRows(ChartOf(points[..n], tolerance), points[n], tolerance);
    if row in ChartOf(points[..n], tolerance).anchors {
      i := RowsAreRecords(points[..n], row, tolerance);
      assert points[..n][..i] == points[..i];
    } else {
      i := n;
    }
  }

  // ----- The sorted rows -----

  lemma {:induction false} InsertElements(times: seq<int>, t: int)
    ensures Elements(Insert(times, t)) == Elements(times) + {t}
  {
    if times == [] || t < times[0] {
      assert Elements([t] + times) == Elements(times) + {t};
    } else {
      InsertElements(times[1..], t);
      assert times == [times[0]] + times[1..];
      assert Elements(times) == {times[0]} + Elements(times[1..]);
      assert Elements([times[0]] + Insert(times[1..], t)) == {times[0]} + Elements(Insert(times[1..], t));
    }
  }

  lemma {:induction false} SortedElements(times: seq<int>)
    ensures Elements(Sorted(times)) == Elements(times)
  {
    if times != [] {
      var n := |times| - 1;
      SortedElements(times[..n]);
      InsertElements(Sorted(times[..n]), times[n]);
      assert times == times[..n] + [times[n]];
      assert Elements(times) == Elements(times[..n]) + {times[n]};
    }
  }

  /** Ascending, with more than the tolerance between neighbours and hence between any two. */
  ghost predicate Spread(times: seq<int>, tolerance: int) {
    forall i, j :: 0 <= i < j < |times| ==> times[j] - times[i] > tolerance
  }

  lemma SpreadFront(t: int, times: seq<int>, tolerance: int)
    requires Spread(times, tolerance) && forall x | x in Elements(times) :: x - t > tolerance
    ensures Spread([t] + times, tolerance)
  {
    assert forall i :: 0 <= i < |times| ==> times[i] in Elements(times);
  }

  lemma SpreadTail(times: seq<int>, tolerance: int)
    requires tolerance >= 0 && times != [] && Spread(times, tolerance)
    ensures times[0] in Elements(times) && Elements(times) == {times[0]} + Elements(times[1..])
    ensures Spread(times[1..], tolerance) && forall x | x in Elements(times[1..]) :: x - times[0] > tolerance
  {
    assert times == [times[0]] + times[1..];
  }

  lemma {:induction false} InsertSpread(times: seq<int>, t: int, tolerance: int)
    requires tolerance >= 0 && Spread(times, tolerance) && forall x | x in Elements(times) :: Distance(x, t) > tolerance
    ensures Spread(Insert(times, t), tolerance)
  {
    if times != [] {
      SpreadTail(times, tolerance);
      if t < times[0] {
        SpreadFront(t, times, tolerance);
      } else {
        InsertSpread(times[1..], t, tolerance);
        InsertElements(times[1..], t);
        SpreadFront(times[0], Insert(times[1..], t), tolerance);
      }
    }
  }

  lemma {:induction false} SortedSpread(times: seq<int>, tolerance: int)
    requires tolerance >= 0 && Apart(times, tolerance)
    ensures Spread(Sorted(times), tolerance)
  {
    if times != [] {
      var n := |times| - 1;
      SortedSpread(times[..n], tolerance);
      SortedElements(times[..n]);
      assert forall x | x in Elements(times[..n]) :: Distance(x, times[n]) > tolerance;
      InsertSpread(Sorted(times[..n]), times[n], tolerance);
    }
  }

  ghost predicate HasRow(rows: seq<Row>, time: int) { exists i :: 0 <= i < |rows| && rows[i].time == time }

  ghost predicate HasRecord(points: seq<Point>, time: int) { exists i :: 0 <= i < |points| && points[i].time == time }

  /** Row for row, the times are the sorted row times and the cells those of the chart. */
  lemma RowsAreSortedTimes(chart: Chart)
    requires Matched(chart)
    ensures var times, rows := Sorted(chart.anchors), RowsOf(chart);
      |rows| == |times| && forall i :: 0 <= i < |rows| ==>
        rows[i].time == times[i] && times[i] in chart.grouped && rows[i].cells == chart.grouped[times[i]]
  {
    SortedElements(chart.anchors);
    hide Sorted;
    var times := Sorted(chart.anchors);
    assert forall i :: 0 <= i < |times| ==> times[i] in Elements(times);
  }

  lemma RowForEveryTime(chart: Chart, t: int)
    requires Matched(chart)
    ensures t in chart.anchors <==> HasRow(RowsOf(chart), t)
  {
    var times, rows := Sorted(chart.anchors), RowsOf(chart);
    RowsAreSortedTimes(chart);
    SortedElements(chart.anchors);
    hide Sorted, RowsOf;
    assert t in chart.anchors <==> t in Elements(times);
    if t in times {
      var i :| 0 <= i < |times| && times[i] == t;
      assert rows[i].time == t;
    }
  }

  /** The rows of a chart: sorted, more than the tolerance apart, one for every row time. */
  lemma RowsFacts(points: seq<Point>, tolerance: int)
    requires tolerance >= 0
    ensures Matched(ChartOf(points, tolerance))
    ensures var chart := ChartOf(points, tolerance); var rows := RowsOf(chart);
      && (forall i, j :: 0 <= i < j < |rows| ==> rows[j].time - rows[i].time > tolerance)
      && (forall t :: t in chart.anchors <==> HasRow(rows, t))
      && (forall i :: 0 <= i < |rows| ==> rows[i].time in chart.grouped && rows[i].cells == chart.grouped[rows[i].time])
  {
    ChartIsSound(points, tolerance);
    hide ChartOf, Sorted, RowsOf, HasRow, Matched, Apart;
    var chart := ChartOf(points, tolerance);
    RowsAreSortedTimes(chart);
    SortedSpread(chart.anchors, tolerance);
    forall t ensures t in chart.anchors <==> HasRow(RowsOf(chart), t) { RowForEveryTime(chart, t); }
  }

  /** These are the rows of the chart of these series. */
  ghost predicate IsChart(series: seq<Series>, rows: seq<Row>) {
    var chart := ChartOf(Points(series), Tolerance(series)); Matched(chart) && rows == RowsOf(chart)
  }

  /** Rows are strictly sorted and more than the tolerance apart. */
  lemma RowsAreApart(series: seq<Series>, rows: seq<Row>, i: nat, j: nat)
    requires IsChart(series, rows) && i < j < |rows|
    ensures rows[j].time - rows[i].time > Tolerance(series)
  {
    hide Points, Tolerance, ChartOf, RowsOf;
    RowsFacts(Points(series), Tolerance(series));
  }

  /** Every valid record belongs to a row within the tolerance. */
  lemma RecordHasRow(series: seq<Series>, rows: seq<Row>, p: nat)
    requires IsChart(series, rows) && p < |Points(series)|
    ensures var points, tolerance := Points(series), Tolerance(series);
      HasRow(rows, Home(points, p, tolerance)) && Distance(Home(points, p, tolerance), points[p].time) <= tolerance
  {
    hide Points, Tolerance, ChartOf, RowsOf, Home, HasRow, Distance;
    RowsFacts(Points(series), Tolerance(series));
    HomesAreRows(Points(series), p, Tolerance(series));
  }

  /** Every row was made by a record at its time. */
  lemma RowHasRecord(series: seq<Series>, rows: seq<Row>, i: nat)
    requires IsChart(series, rows) && i < |rows|
    ensures HasRecord(Points(series), rows[i].time)
  {
    hide Points, Tolerance, ChartOf, RowsOf, Home;
    RowsFacts(Points(series), Tolerance(series));
    assert HasRow(rows, rows[i].time);
    var k := RowsAreRecords(Points(series), rows[i].time, Tolerance(series));
  }

  /** A row's cells are exactly the last records of the tasks that have one in it. */
  lemma CellsAreLast(series: seq<Series>, rows: seq<Row>, i: nat, key: string)
    requires IsChart(series, rows) && i < |rows|
    ensures LastCell(Points(series), rows[i].time, key, Tolerance(series))
         == if key in rows[i].cells then Some(rows[i].cells[key]) else None
  {
    hide Points, Tolerance, ChartOf, RowsOf, LastCell, HasRow;
    RowsFacts(Points(series), Tolerance(series));
    CellsHoldLast(Points(series), rows[i].time, key, Tolerance(series));
  }
}
