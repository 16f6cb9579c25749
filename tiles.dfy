/** Tile sources, tasks, and the names built from a task: the store path
    `output_dir/source/z/x/y.ext`, the provider URL and the messages that
    download_tile returns. */
module Tiles {
  import opened Text

  /** The keys of TILE_SOURCES. */
  datatype Source = Terrain | Satellite | Osm

  /** A path as its list of components; `Path('a') / 'b'` is `["a", "b"]`. */
  type Path = seq<string>
  type Url = string

  /** One `(source_type, z, x, y, delay)` tuple of the task list. */
  datatype Task = Task(source: Source, z: int, x: int, y: int, delay: real)

  /** Two tasks that name the same tile (their delays may differ). */
  predicate SameTile(a: Task, b: Task) {
    a.source == b.source && a.z == b.z && a.x == b.x && a.y == b.y
  }

  /** The string key of a source, also its directory name in the store. */
  function Name(s: Source): string {
    match s
    case Terrain => "terrain"
    case Satellite => "satellite"
    case Osm => "osm"
  }

  /** A URL template is literal text with `{z}`, `{x}` and `{y}` fields. */
  datatype Piece = Literal(text: string) | ZField | XField | YField

  /** `template.format(z=z, x=x, y=y)`. */
  function Format(template: seq<Piece>, z: int, x: int, y: int): string {
    if template == [] then ""
    else
      var head := match template[0]
        case Literal(text) => text
        case ZField => IntToDecimal(z)
        case XField => IntToDecimal(x)
        case YField => IntToDecimal(y);
      head + Format(template[1..], z, x, y)
  }

  const TerrainBase := "https://tile.opentopomap.org/"
  const SatelliteBase := "https://server.arcgisonline.com/ArcGIS/rest/services/World_Imagery/MapServer/tile/"
  const OsmBase := "https://tile.openstreetmap.org/"

  /** TILE_SOURCES: the satellite template puts `{y}` before `{x}`. */
  function Template(s: Source): seq<Piece> {
    match s
    case Terrain =>
      [Literal(TerrainBase), ZField, Literal("/"), XField, Literal("/"), YField, Literal(".png")]
    case Satellite =>
      [Literal(SatelliteBase), ZField, Literal("/"), YField, Literal("/"), XField]
    case Osm =>
      [Literal(OsmBase), ZField, Literal("/"), XField, Literal("/"), YField, Literal(".png")]
  }

  function TileUrl(t: Task): Url {
    Format(Template(t.source), t.z, t.x, t.y)
  }

  /** The file extension: `.jpg` for the source named "satellite", `.png` otherwise. */
  function Extension(s: Source): string {
    if Name(s) == "satellite" then ".jpg" else ".png"
  }

  /** `output_dir / source_type / str(z) / str(x)`. */
  function TileDir(root: Path, t: Task): Path {
    root + [Name(t.source), IntToDecimal(t.z), IntToDecimal(t.x)]
  }

  /** `tile_dir / f"{y}{ext}"`. */
  function TilePath(root: Path, t: Task): Path {
    TileDir(root, t) + [IntToDecimal(t.y) + Extension(t.source)]
  }

  /** `f"{source_type}/{z}/{x}/{y}"`, the tile label inside the messages. */
  function Label(t: Task): string {
    Name(t.source) + "/" + IntToDecimal(t.z) + "/" + IntToDecimal(t.x) + "/" + IntToDecimal(t.y)
  }

  /** The word the aggregation loop looks for to tell a skip from a download. */
  const SkipMarker := "Пропущен"

  function SkippedMessage(t: Task): string {
    SkipMarker + " (уже существует): " + Label(t)
  }

  function DownloadedMessage(t: Task): string {
    "Загружен: " + Label(t)
  }

  function FailureMessage(t: Task, reason: string): string {
    "Ошибка при загрузке " + Label(t) + ": " + reason
  }

  // ---------------------------------------------------------------------
  // Properties of the names

  /** The extension is `.jpg` exactly for satellite tiles, `.png` for the rest. */
  lemma ExtensionJpgIffSatellite(s: Source)
    ensures Extension(s) == ".jpg" <==> s == Satellite
    ensures s != Satellite ==> Extension(s) == ".png"
  {
  }

  lemma FormatCons(p: Piece, rest: seq<Piece>, z: int, x: int, y: int)
    ensures Format([p] + rest, z, x, y) == Format([p], z, x, y) + Format(rest, z, x, y)
  {
    assert ([p] + rest)[1..] == rest;
  }

  /** The satellite provider is asked for `.../tile/{z}/{y}/{x}`: row before column. */
  lemma SatelliteUrl(s: Source, z: int, x: int, y: int, delay: real)
    requires s == Satellite
    ensures TileUrl(Task(s, z, x, y, delay))
         == SatelliteBase + IntToDecimal(z) + "/" + IntToDecimal(y) + "/" + IntToDecimal(x)
  {
    var zs, xs, ys := IntToDecimal(z), IntToDecimal(x), IntToDecimal(y);
    FormatCons(XField, [], z, x, y);
    FormatCons(Literal("/"), [XField], z, x, y);
    FormatCons(YField, [Literal("/"), XField], z, x, y);
    FormatCons(Literal("/"), [YField, Literal("/"), XField], z, x, y);
    FormatCons(ZField, [Literal("/"), YField, Literal("/"), XField], z, x, y);
    FormatCons(Literal(SatelliteBase), [ZField, Literal("/"), YField, Literal("/"), XField], z, x, y);
    assert TileUrl(Task(s, z, x, y, delay)) == SatelliteBase + (zs + ("/" + (ys + ("/" + (xs + "")))));
  }

  /** `base + {z}/{x}/{y}.png`, the layout of the terrain and osm templates. */
  lemma ColumnFirstFormat(base: string, z: int, x: int, y: int)
    ensures Format([Literal(base), ZField, Literal("/"), XField, Literal("/"), YField, Literal(".png")], z, x, y)
         == base + IntToDecimal(z) + "/" + IntToDecimal(x) + "/" + IntToDecimal(y) + ".png"
  {
    var zs, xs, ys := IntToDecimal(z), IntToDecimal(x), IntToDecimal(y);
    FormatCons(Literal(".png"), [], z, x, y);
    FormatCons(YField, [Literal(".png")], z, x, y);
    FormatCons(Literal("/"), [YField, Literal(".png")], z, x, y);
    FormatCons(XField, [Literal("/"), YField, Literal(".png")], z, x, y);
    FormatCons(Literal("/"), [XField, Literal("/"), YField, Literal(".png")], z, x, y);
    FormatCons(ZField, [Literal("/"), XField, Literal("/"), YField, Literal(".png")], z, x, y);
    FormatCons(Literal(base), [ZField, Literal("/"), XField, Literal("/"), YField, Literal(".png")], z, x, y);
    assert base + (zs + ("/" + (xs + ("/" + (ys + (".png" + "")))))) ==
      base + zs + "/" + xs + "/" + ys + ".png";
  }

  /** Terrain and osm are asked for `.../{z}/{x}/{y}.png`: column before row. */
  lemma ColumnFirstUrl(s: Source, z: int, x: int, y: int, delay: real)
    requires s != Satellite
    ensures TileUrl(Task(s, z, x, y, delay))
         == (if s == Terrain then TerrainBase else OsmBase)
            + IntToDecimal(z) + "/" + IntToDecimal(x) + "/" + IntToDecimal(y) + ".png"
  {
    ColumnFirstFormat(if s == Terrain then TerrainBase else OsmBase, z, x, y);
  }

  lemma TilePathShape(root: Path, t: Task)
    ensures |TileDir(root, t)| == |root| + 3
    ensures |TilePath(root, t)| == |root| + 4
    ensures TilePath(root, t)[..|root| + 3] == TileDir(root, t)
    ensures TileDir(root, t)[..|root|] == root
  {
  }

  /** Two tasks get the same store path exactly when they name the same tile. */
  lemma TilePathInjective(root: Path, a: Task, b: Task)
    ensures TilePath(root, a) == TilePath(root, b) <==> SameTile(a, b)
  {
    if TilePath(root, a) == TilePath(root, b) {
      var pa, pb := TilePath(root, a), TilePath(root, b);
      var n := |root|;
      assert pa[n] == Name(a.source) && pb[n] == Name(b.source);
      assert a.source == b.source;
      assert pa[n + 1] == IntToDecimal(a.z) && pb[n + 1] == IntToDecimal(b.z);
      IntToDecimalInjective(a.z, b.z);
      assert pa[n + 2] == IntToDecimal(a.x) && pb[n + 2] == IntToDecimal(b.x);
      IntToDecimalInjective(a.x, b.x);
      var ya, yb := IntToDecimal(a.y), IntToDecimal(b.y);
      var ext := Extension(a.source);
      assert pa[n + 3] == ya + ext && pb[n + 3] == yb + ext;
      assert |ya| == |yb|;
      assert ya == (ya + ext)[..|ya|];
      assert yb == (yb + ext)[..|yb|];
      IntToDecimalInjective(a.y, b.y);
    }
  }

  lemma NoSkipMarkerInDecimal(i: int)
    ensures forall k :: 0 <= k < |IntToDecimal(i)| ==> IntToDecimal(i)[k] != SkipMarker[0]
  {
  }

  /** The aggregation loop's test `"Пропущен" in message` is exact: it holds
      of the skip message and of no download message. */
  lemma SkipMarkerClassifies(t: Task)
    ensures Contains(SkippedMessage(t), SkipMarker)
    ensures !Contains(DownloadedMessage(t), SkipMarker)
  {
    PrefixContained(SkipMarker, " (уже существует): " + Label(t));
    assert SkippedMessage(t) == SkipMarker + (" (уже существует): " + Label(t));
    NoSkipMarkerInDecimal(t.z);
    NoSkipMarkerInDecimal(t.x);
    NoSkipMarkerInDecimal(t.y);
    var m := DownloadedMessage(t);
    assert forall k :: 0 <= k < |m| ==> m[k] != SkipMarker[0];
    NotContainedWithoutFirstChar(m, SkipMarker);
  }
}
