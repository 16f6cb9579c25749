/** Area enumeration: the task grid download_area builds, zoom by zoom,
    column by column, row by row, and the method with its nested loops. */
module Area {
  import opened Tiles

  /** The rectangle: south-west corner (latMin, lonMin), north-east corner (latMax, lonMax). */
  datatype Bounds = Bounds(latMin: real, lonMin: real, latMax: real, lonMax: real)

  /** lat_lon_to_tile, taken as a parameter: (lat, lon, zoom) to (x, y). */
  type TileOf = (real, real, int) -> (int, int)

  /** The corner tile indices at one zoom. */
  datatype TileRange = TileRange(xMin: int, xMax: int, yMin: int, yMax: int)

  /** The south-west corner gives x_min and y_max (tile rows grow southwards),
      the north-east corner x_max and y_min. */
  function RangeAt(toTile: TileOf, b: Bounds, zoom: int): TileRange {
    var (xMin, yMax) := toTile(b.latMin, b.lonMin, zoom);
    var (xMax, yMin) := toTile(b.latMax, b.lonMax, zoom);
    TileRange(xMin, xMax, yMin, yMax)
  }

  /** The length of `range(lo, hi + 1)`: max(0, hi - lo + 1). */
  function Span(lo: int, hi: int): nat {
    if hi < lo then 0 else hi - lo + 1
  }

  /** The tasks of column x, rows yLo..yHi, in the order the inner loop appends them. */
  function Column(s: Source, delay: real, z: int, x: int, yLo: int, yHi: int): seq<Task>
    decreases yHi - yLo + 1
  {
    if yHi < yLo then [] else Column(s, delay, z, x, yLo, yHi - 1) + [Task(s, z, x, yHi, delay)]
  }

  /** Columns xLo..xHi of one zoom. */
  function Columns(s: Source, delay: real, z: int, xLo: int, xHi: int, yLo: int, yHi: int): seq<Task>
    decreases xHi - xLo + 1
  {
    if xHi < xLo then [] else Columns(s, delay, z, xLo, xHi - 1, yLo, yHi) + Column(s, delay, z, xHi, yLo, yHi)
  }

  function ZoomTasks(s: Source, delay: real, toTile: TileOf, b: Bounds, z: int): seq<Task> {
    var r := RangeAt(toTile, b, z);
    Columns(s, delay, z, r.xMin, r.xMax, r.yMin, r.yMax)
  }

  /** The whole task list for zooms zLo..zHi. */
  function AreaTasks(s: Source, delay: real, toTile: TileOf, b: Bounds, zLo: int, zHi: int): seq<Task>
    decreases zHi - zLo + 1
  {
    if zHi < zLo then [] else AreaTasks(s, delay, toTile, b, zLo, zHi - 1) + ZoomTasks(s, delay, toTile, b, zHi)
  }

  /** The number of tiles in the rectangle summed over zooms zLo..zHi. */
  function AreaCount(toTile: TileOf, b: Bounds, zLo: int, zHi: int): nat
    decreases zHi - zLo + 1
  {
    if zHi < zLo then 0
    else
      var r := RangeAt(toTile, b, zHi);
      AreaCount(toTile, b, zLo, zHi - 1) + Span(r.xMin, r.xMax) * Span(r.yMin, r.yMax)
  }

  /** The tasks that belong to the area: the same source and delay, a zoom in
      range, and a tile inside that zoom's corner tiles. */
  predicate InArea(s: Source, delay: real, toTile: TileOf, b: Bounds, zLo: int, zHi: int, t: Task) {
    var r := RangeAt(toTile, b, t.z);
    t.source == s && t.delay == delay && zLo <= t.z <= zHi
    && r.xMin <= t.x <= r.xMax && r.yMin <= t.y <= r.yMax
  }

  /** Strict lexicographic order on (z, x, y). */
  predicate Precedes(a: Task, b: Task) {
    a.z < b.z || (a.z == b.z && (a.x < b.x || (a.x == b.x && a.y < b.y)))
  }

  predicate Increasing(ts: seq<Task>) {
    forall i, j :: 0 <= i < j < |ts| ==> Precedes(ts[i], ts[j])
  }

  // ---------------------------------------------------------------------
  // Enumeration, as download_area does it

  /** The nested loops of download_area and its `total_tiles` counter. */
  method EnumerateTasks(s: Source, b: Bounds, zoomMin: int, zoomMax: int, delay: real, toTile: TileOf)
    returns (tasks: seq<Task>, totalTiles: nat)
    ensures tasks == AreaTasks(s, delay, toTile, b, zoomMin, zoomMax)
    ensures totalTiles == |tasks|
  {
    totalTiles := 0;
    tasks := [];
    var zoom := zoomMin;
    while zoom <= zoomMax
      invariant zoomMin <= zoom && (zoom <= zoomMax + 1 || zoom == zoomMin)
      invariant tasks == AreaTasks(s, delay, toTile, b, zoomMin, zoom - 1)
      invariant totalTiles == |tasks|
      decreases zoomMax - zoom
    {
      var (xMin, yMax) := toTile(b.latMin, b.lonMin, zoom);
      var (xMax, yMin) := toTile(b.latMax, b.lonMax, zoom);
      ghost var before := tasks;
      var x := xMin;
      while x <= xMax
        invariant xMin <= x && (x <= xMax + 1 || x == xMin)
        invariant tasks == before + Columns(s, delay, zoom, xMin, x - 1, yMin, yMax)
        invariant totalTiles == |tasks|
        decreases xMax - x
      {
        ghost var beforeColumn := tasks;
        var y := yMin;
        while y <= yMax
          invariant yMin <= y && (y <= yMax + 1 || y == yMin)
          invariant tasks == beforeColumn + Column(s, delay, zoom, x, yMin, y - 1)
          invariant totalTiles == |tasks|
          decreases yMax - y
        {
          tasks := tasks + [Task(s, zoom, x, y, delay)];
          totalTiles := totalTiles + 1;
          y := y + 1;
        }
        x := x + 1;
      }
      zoom := zoom + 1;
    }
  }

  // ---------------------------------------------------------------------
  // Size

  lemma {:induction false} ColumnLength(s: Source, delay: real, z: int, x: int, yLo: int, yHi: int)
    ensures |Column(s, delay, z, x, yLo, yHi)| == Span(yLo, yHi)
    decreases yHi - yLo + 1
  {
    if yHi >= yLo {
      ColumnLength(s, delay, z, x, yLo, yHi - 1);
    }
  }

  lemma {:induction false} ColumnsLength(s: Source, delay: real, z: int, xLo: int, xHi: int, yLo: int, yHi: int)
    ensures |Columns(s, delay, z, xLo, xHi, yLo, yHi)| == Span(xLo, xHi) * Span(yLo, yHi)
    decreases xHi - xLo + 1
  {
    if xHi >= xLo {
      ColumnsLength(s, delay, z, xLo, xHi - 1, yLo, yHi);
      ColumnLength(s, delay, z, xHi, yLo, yHi);
      assert Span(xLo, xHi) == Span(xLo, xHi - 1) + 1;
      assert (Span(xLo, xHi - 1) + 1) * Span(yLo, yHi)
          == Span(xLo, xHi - 1) * Span(yLo, yHi) + Span(yLo, yHi);
    }
  }

  /** One zoom contributes max(0, x_max - x_min + 1) * max(0, y_max - y_min + 1) tasks. */
  lemma ZoomTaskCount(s: Source, delay: real, toTile: TileOf, b: Bounds, z: int)
    ensures var r := RangeAt(toTile, b, z);
      |ZoomTasks(s, delay, toTile, b, z)| == Span(r.xMin, r.xMax) * Span(r.yMin, r.yMax)
  {
    var r := RangeAt(toTile, b, z);
    ColumnsLength(s, delay, z, r.xMin, r.xMax, r.yMin, r.yMax);
  }

  /** `total_tiles`, the length of the task list, is the grid size summed over zooms. */
  lemma {:induction false} AreaTaskCount(s: Source, delay: real, toTile: TileOf, b: Bounds, zLo: int, zHi: int)
    ensures |AreaTasks(s, delay, toTile, b, zLo, zHi)| == AreaCount(toTile, b, zLo, zHi)
    decreases zHi - zLo + 1
  {
    if zHi >= zLo {
      AreaTaskCount(s, delay, toTile, b, zLo, zHi - 1);
      ZoomTaskCount(s, delay, toTile, b, zHi);
    }
  }

  // ---------------------------------------------------------------------
  // Contents

  lemma {:induction false} ColumnMembers(s: Source, delay: real, z: int, x: int, yLo: int, yHi: int, t: Task)
    ensures t in Column(s, delay, z, x, yLo, yHi) <==>
      t.source == s && t.delay == delay && t.z == z && t.x == x && yLo <= t.y <= yHi
    decreases yHi - yLo + 1
  {
    if yHi >= yLo {
      ColumnMembers(s, delay, z, x, yLo, yHi - 1, t);
    }
  }

  lemma {:induction false} ColumnsMembers(s: Source, delay: real, z: int, xLo: int, xHi: int, yLo: int, yHi: int, t: Task)
    ensures t in Columns(s, delay, z, xLo, xHi, yLo, yHi) <==>
      t.source == s && t.delay == delay && t.z == z && xLo <= t.x <= xHi && yLo <= t.y <= yHi
    decreases xHi - xLo + 1
  {
    if xHi >= xLo {
      ColumnsMembers(s, delay, z, xLo, xHi - 1, yLo, yHi, t);
      ColumnMembers(s, delay, z, xHi, yLo, yHi, t);
    }
  }

  /** A task is enumerated exactly when it lies in the area: every tile of
      every zoom's rectangle, and nothing else. */
  lemma {:induction false} AreaTasksMembers(s: Source, delay: real, toTile: TileOf, b: Bounds, zLo: int, zHi: int, t: Task)
    ensures t in AreaTasks(s, delay, toTile, b, zLo, zHi) <==> InArea(s, delay, toTile, b, zLo, zHi, t)
    decreases zHi - zLo + 1
  {
    if zHi >= zLo {
      AreaTasksMembers(s, delay, toTile, b, zLo, zHi - 1, t);
      var r := RangeAt(toTile, b, zHi);
      ColumnsMembers(s, delay, zHi, r.xMin, r.xMax, r.yMin, r.yMax, t);
    }
  }

  // ---------------------------------------------------------------------
  // Order

  lemma IncreasingConcat(a: seq<Task>, b: seq<Task>)
    requires Increasing(a) && Increasing(b)
    requires forall u, v :: u in a && v in b ==> Precedes(u, v)
    ensures Increasing(a + b)
  {
    forall i, j | 0 <= i < j < |a + b| ensures Precedes((a + b)[i], (a + b)[j]) {
      if j < |a| {
        assert (a + b)[i] == a[i] && (a + b)[j] == a[j];
      } else if i >= |a| {
        assert (a + b)[i] == b[i - |a|] && (a + b)[j] == b[j - |a|];
      } else {
        assert (a + b)[i] == a[i] && (a + b)[j] == b[j - |a|];
        assert a[i] in a && b[j - |a|] in b;
      }
    }
  }

  lemma {:induction false} ColumnIncreasing(s: Source, delay: real, z: int, x: int, yLo: int, yHi: int)
    ensures Increasing(Column(s, delay, z, x, yLo, yHi))
    decreases yHi - yLo + 1
  {
    if yHi >= yLo {
      var prev := Column(s, delay, z, x, yLo, yHi - 1);
      ColumnIncreasing(s, delay, z, x, yLo, yHi - 1);
      forall u | u in prev ensures Precedes(u, Task(s, z, x, yHi, delay)) {
        ColumnMembers(s, delay, z, x, yLo, yHi - 1, u);
      }
      IncreasingConcat(prev, [Task(s, z, x, yHi, delay)]);
    }
  }

  lemma {:induction false} ColumnsIncreasing(s: Source, delay: real, z: int, xLo: int, xHi: int, yLo: int, yHi: int)
    ensures Increasing(Columns(s, delay, z, xLo, xHi, yLo, yHi))
    decreases xHi - xLo + 1
  {
    if xHi >= xLo {
      var prev := Columns(s, delay, z, xLo, xHi - 1, yLo, yHi);
      var last := Column(s, delay, z, xHi, yLo, yHi);
      ColumnsIncreasing(s, delay, z, xLo, xHi - 1, yLo, yHi);
      ColumnIncreasing(s, delay, z, xHi, yLo, yHi);
      forall u, v | u in prev && v in last ensures Precedes(u, v) {
        ColumnsMembers(s, delay, z, xLo, xHi - 1, yLo, yHi, u);
        ColumnMembers(s, delay, z, xHi, yLo, yHi, v);
      }
      IncreasingConcat(prev, last);
    }
  }

  /** The task list is ordered by zoom, then x, then y, strictly. */
  lemma {:induction false} AreaTasksIncreasing(s: Source, delay: real, toTile: TileOf, b: Bounds, zLo: int, zHi: int)
    ensures Increasing(AreaTasks(s, delay, toTile, b, zLo, zHi))
    decreases zHi - zLo + 1
  {
    if zHi >= zLo {
      var prev := AreaTasks(s, delay, toTile, b, zLo, zHi - 1);
      var last := ZoomTasks(s, delay, toTile, b, zHi);
      var r := RangeAt(toTile, b, zHi);
      AreaTasksIncreasing(s, delay, toTile, b, zLo, zHi - 1);
      ColumnsIncreasing(s, delay, zHi, r.xMin, r.xMax, r.yMin, r.yMax);
      forall u, v | u in prev && v in last ensures Precedes(u, v) {
        AreaTasksMembers(s, delay, toTile, b, zLo, zHi - 1, u);
        ColumnsMembers(s, delay, zHi, r.xMin, r.xMax, r.yMin, r.yMax, v);
      }
      IncreasingConcat(prev, last);
    }
  }

  /** No tile is enumerated twice. */
  lemma AreaTasksDistinct(s: Source, delay: real, toTile: TileOf, b: Bounds, zLo: int, zHi: int)
    ensures var ts := AreaTasks(s, delay, toTile, b, zLo, zHi);
      forall i, j :: 0 <= i < j < |ts| ==> !SameTile(ts[i], ts[j])
  {
    AreaTasksIncreasing(s, delay, toTile, b, zLo, zHi);
  }
}
