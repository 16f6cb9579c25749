# Offline tile downloader, modelled in Dafny

The model covers `TileDownloader` from the votetovid.ru offline-map utility:

- **`download_tile`** finds a tile's path, `output_dir/source/z/x/y.ext`. It creates the tile directory. It skips the tile when the path already exists. Otherwise it fetches the provider URL and writes the body, but only when the fetch succeeds.
- **`download_area`** lists every tile of a bounding box, zoom by zoom, then column by column, then row by row. Above 1000 tiles it asks for confirmation. It then runs every tile through a thread pool. It counts the results as they complete, and prints progress every tenth completion and on the last one.

The model has five modules:

| module | file | holds |
|---|---|---|
| `Text` | `text.dfy` | the Python string operations the code relies on: `str()` of an integer, the substring test `pat in s`, and `str.lower()` |
| `Tiles` | `tiles.dfy` | the tile sources; the URL templates of `TILE_SOURCES`; store paths, extensions and messages |
| `Store` | `store.dfy` | the filesystem as a class `FileStore`, with a map from path to bytes and a set of directories |
| `Area` | `area.dfy` | the grid of tasks: `AreaTasks` specifies it, and `EnumerateTasks` builds it with the source's three nested loops |
| `Downloader` | `downloader.dfy` | `TileStep` (one tile on a snapshot of the store) and `Run` (the tiles counted in a given completion order); the confirmation gate; the class `TileDownloader`, whose methods drive the store and the network and are proved equal to `TileStep` and `Run` |

How the outside world is represented:

- **Network.** The network is a parameter `net: Url -> FetchResult`. A result is either the body or the text of a request exception. The downloader logs every URL it requests in `requested`.
- **`lat_lon_to_tile`.** It is a parameter `toTile` of the enumeration.
- **Reply to the prompt.** The reply is a parameter.
- **Order of `as_completed`.** The order is a parameter `order`: a permutation of the task indices.

Each task runs atomically and is counted right after it runs. The model proves that the final counters and the final store are the same for every permutation. It does not assume this.

A tile is skipped when `Path.exists()` (line 54) is true, and that is also true for a directory; `Store.Disk.Has` models it so. The line read by `input()` (line 118) is the parameter `reply`.

## Model

| member | source | states |
|---|---|---|
| `Text.Contains` | map/votetovid_local/votetovid.ru/tile_downloader.py:135 | the definition of Python's `pat in s`: the pattern is a prefix of the string or occurs in its tail |
| `Text.LowerChar` | map/votetovid_local/votetovid.ru/tile_downloader.py:119 | the definition of `str.lower()` on one character: ASCII A-Z and Cyrillic А-Я move up by 32, U+0400-U+040F by 80, any other character is unchanged |
| `Text.Lower` | map/votetovid_local/votetovid.ru/tile_downloader.py:119 | the definition of `str.lower()` on a string: `LowerChar` applied at every position |
| `Text.IntToDecimal` | map/votetovid_local/votetovid.ru/tile_downloader.py:46 | `str(i)` is non-empty; every character after the first is a digit; the first is a minus sign exactly when `i < 0`, and a digit otherwise |
| `Text.IntToDecimalValue` | map/votetovid_local/votetovid.ru/tile_downloader.py:46 | `str(i)` denotes `i`: the digits, after the minus sign when `i < 0`, read back as the absolute value |
| `Text.IntToDecimalInjective` | map/votetovid_local/votetovid.ru/tile_downloader.py:46 | different integers print differently, so a tile directory names its z and x uniquely |
| `Text.ContainsIffOccurs` | map/votetovid_local/votetovid.ru/tile_downloader.py:135 | the substring test `"Пропущен" in message` holds exactly when the marker occurs at some position of the message |
| `Tiles.Name` | map/votetovid_local/votetovid.ru/tile_downloader.py:20-24 | the definition of a source's key in `TILE_SOURCES`: "terrain", "satellite" or "osm" |
| `Tiles.Template` | map/votetovid_local/votetovid.ru/tile_downloader.py:20-24 | the definition of the three URL templates, as literal text plus `{z}`, `{x}` and `{y}` fields in the order they appear |
| `Tiles.Format` | map/votetovid_local/votetovid.ru/tile_downloader.py:58 | the definition of `str.format(z=z, x=x, y=y)`: each literal copied, each field replaced by `str()` of its value |
| `Tiles.TileUrl` | map/votetovid_local/votetovid.ru/tile_downloader.py:58 | the definition of a task's URL: its source's template formatted with its z, x and y |
| `Tiles.Extension` | map/votetovid_local/votetovid.ru/tile_downloader.py:50 | the definition of the extension: `.jpg` when the source name is "satellite", `.png` otherwise |
| `Tiles.TileDir` | map/votetovid_local/votetovid.ru/tile_downloader.py:46 | the definition of `output_dir / source_type / str(z) / str(x)` |
| `Tiles.TilePath` | map/votetovid_local/votetovid.ru/tile_downloader.py:51 | the definition of `tile_dir / f"{y}{ext}"` |
| `Tiles.Label` | map/votetovid_local/votetovid.ru/tile_downloader.py:55 | the definition of the label `source/z/x/y` used in all three messages |
| `Tiles.SkippedMessage` | map/votetovid_local/votetovid.ru/tile_downloader.py:55 | the definition of the skip message: "Пропущен (уже существует): " then the label |
| `Tiles.DownloadedMessage` | map/votetovid_local/votetovid.ru/tile_downloader.py:72 | the definition of the download message: "Загружен: " then the label |
| `Tiles.FailureMessage` | map/votetovid_local/votetovid.ru/tile_downloader.py:75 | the definition of the failure message: "Ошибка при загрузке ", the label, ": " and the exception text |
| `Tiles.ExtensionJpgIffSatellite` | map/votetovid_local/votetovid.ru/tile_downloader.py:50 | the extension is `.jpg` if and only if the source is satellite; otherwise it is `.png` |
| `Tiles.SatelliteUrl` | map/votetovid_local/votetovid.ru/tile_downloader.py:22 | the satellite URL is the ArcGIS base followed by `z/y/x`: the row comes before the column, with no extension |
| `Tiles.ColumnFirstUrl` | map/votetovid_local/votetovid.ru/tile_downloader.py:21-23 | terrain and osm URLs are their base followed by `z/x/y.png` |
| `Tiles.TilePathShape` | map/votetovid_local/votetovid.ru/tile_downloader.py:46-51 | the tile path is the tile directory plus one file name, and the directory is the output directory plus three components |
| `Tiles.TilePathInjective` | map/votetovid_local/votetovid.ru/tile_downloader.py:46-51 | two tasks get the same store path if and only if they have the same source, z, x and y |
| `Tiles.SkipMarkerClassifies` | map/votetovid_local/votetovid.ru/tile_downloader.py:55-72 | the skip message contains "Пропущен" and the download message does not, so the counting loop tells them apart exactly |
| `Store.Disk.Has` | map/votetovid_local/votetovid.ru/tile_downloader.py:54 | the definition of `Path.exists()`: the path is a file or a directory |
| `Store.Ancestors` | map/votetovid_local/votetovid.ru/tile_downloader.py:47 | the definition of the directories `mkdir(parents=True)` ensure: every non-empty prefix of the path |
| `Store.Disk.WithDirs` | map/votetovid_local/votetovid.ru/tile_downloader.py:47 | the definition of `mkdir(parents=True, exist_ok=True)`: the path and all its ancestors become directories |
| `Store.Disk.WithDir` | map/votetovid_local/votetovid.ru/tile_downloader.py:28 | the definition of `mkdir(exist_ok=True)`: only the path itself becomes a directory |
| `Store.Disk.WithFile` | map/votetovid_local/votetovid.ru/tile_downloader.py:69-70 | the definition of writing the body to the path: that path now maps to the body |
| `Store.WithDirsKeepsLongerPaths` | map/votetovid_local/votetovid.ru/tile_downloader.py:47 | `mkdir(parents=True)` leaves every file alone and makes no longer path exist, so it cannot create the tile's own path |
| `Store.WithDirsWellFormed` | map/votetovid_local/votetovid.ru/tile_downloader.py:47 | on a real filesystem, where every proper prefix of a file or a directory is a directory, `mkdir(parents=True)` leaves a real filesystem |
| `Store.WithFileWellFormed` | map/votetovid_local/votetovid.ru/tile_downloader.py:69-70 | writing a file whose parent directories all exist leaves a real filesystem |
| `Store.WithDirsExisting` | map/votetovid_local/votetovid.ru/tile_downloader.py:47 | `mkdir(parents=True, exist_ok=True)` of a directory that already exists with all its ancestors changes nothing |
| `Store.FileStore.MakeDirs` | map/votetovid_local/votetovid.ru/tile_downloader.py:47 | afterwards the directory and all its ancestors exist; nothing else changes |
| `Store.FileStore.MakeDir` | map/votetovid_local/votetovid.ru/tile_downloader.py:28 | afterwards the directory exists; nothing else changes |
| `Store.FileStore.PathExists` | map/votetovid_local/votetovid.ru/tile_downloader.py:54 | the result is true exactly when the path is a file or a directory of the store; the store is unchanged |
| `Store.FileStore.WriteBytes` | map/votetovid_local/votetovid.ru/tile_downloader.py:69-70 | afterwards the path holds the body; every other path is unchanged |
| `Area.RangeAt` | map/votetovid_local/votetovid.ru/tile_downloader.py:106-107 | the definition of a zoom's tile bounds: the SW corner gives `x_min` and `y_max`, the NE corner gives `x_max` and `y_min` |
| `Area.Span` | map/votetovid_local/votetovid.ru/tile_downloader.py:109-110 | the definition of the length of `range(lo, hi + 1)`: zero when `hi < lo` |
| `Area.Column` | map/votetovid_local/votetovid.ru/tile_downloader.py:110-111 | the definition of the tasks of one column: y from `y_min` to `y_max` |
| `Area.Columns` | map/votetovid_local/votetovid.ru/tile_downloader.py:109-111 | the definition of the columns of one zoom: x from `x_min` to `x_max`, each column in turn |
| `Area.ZoomTasks` | map/votetovid_local/votetovid.ru/tile_downloader.py:105-111 | the definition of one zoom's tasks: its columns over its tile bounds |
| `Area.AreaTasks` | map/votetovid_local/votetovid.ru/tile_downloader.py:105-111 | the definition of the task list: zoom from `zoom_min` to `zoom_max`, each zoom's tasks in turn |
| `Area.EnumerateTasks` | map/votetovid_local/votetovid.ru/tile_downloader.py:101-112 | the three nested loops build exactly `AreaTasks`, and `total_tiles` equals the number of tasks |
| `Area.ZoomTaskCount` | map/votetovid_local/votetovid.ru/tile_downloader.py:105-111 | one zoom level yields `Span(xMin, xMax) * Span(yMin, yMax)` tasks, where the corners come from the SW and NE points |
| `Area.AreaTaskCount` | map/votetovid_local/votetovid.ru/tile_downloader.py:101-112 | the task count is the sum of the per-zoom products |
| `Area.AreaTasksMembers` | map/votetovid_local/votetovid.ru/tile_downloader.py:105-111 | a task is enumerated if and only if it has the given source and delay, its zoom in range, and x and y within that zoom's tile bounds |
| `Area.AreaTasksIncreasing` | map/votetovid_local/votetovid.ru/tile_downloader.py:105-111 | tasks are in strictly increasing order of (z, x, y) |
| `Area.AreaTasksDistinct` | map/votetovid_local/votetovid.ru/tile_downloader.py:105-111 | no tile is enumerated twice |
| `Downloader.TileStep` | map/votetovid_local/votetovid.ru/tile_downloader.py:42-75 | the definition of one `download_tile` call on a store snapshot: make the tile directory; if the path exists, skip it with no request; otherwise request the URL and write the body only on success |
| `Downloader.Fate` | map/votetovid_local/votetovid.ru/tile_downloader.py:53-75 | the definition of a task's outcome against a store: skipped if its path exists, downloaded if the provider serves it, failed otherwise |
| `Downloader.Tally` | map/votetovid_local/votetovid.ru/tile_downloader.py:134-140 | the definition of how one `(success, message)` is counted: skipped if the message contains "Пропущен", downloaded otherwise, failed when not a success |
| `Downloader.Progress` | map/votetovid_local/votetovid.ru/tile_downloader.py:144 | the definition of `progress = downloaded + failed + skipped` |
| `Downloader.ShouldReport` | map/votetovid_local/votetovid.ru/tile_downloader.py:145 | the definition of when a progress line is printed: `progress % 10 == 0 or progress == total_tiles` |
| `Downloader.Absorb` | map/votetovid_local/votetovid.ru/tile_downloader.py:131-147 | the definition of one completion of the loop: run the tile, count it, and append the counters when a progress line is printed |
| `Downloader.Run` | map/votetovid_local/votetovid.ru/tile_downloader.py:128-147 | the definition of the state after the tasks named by `order` have completed in that order |
| `Downloader.TileStepEffect` | map/votetovid_local/votetovid.ru/tile_downloader.py:42-75 | one call's full effect: it adds the tile directory and its ancestors, writes the tile's own path only when the tile was downloaded, requests the URL only when the path is absent, and is counted by its outcome |
| `Downloader.TileStepSkipsPresent` | map/votetovid_local/votetovid.ru/tile_downloader.py:53-55 | a present path gives success with the skip message, no request, and no file changed |
| `Downloader.TileStepFetchesMissing` | map/votetovid_local/votetovid.ru/tile_downloader.py:57-75 | an absent path is requested exactly once; on success only that path gets the body; on an exception it returns failure with the reason and changes no file |
| `Downloader.TileStepStoredUnchanged` | map/votetovid_local/votetovid.ru/tile_downloader.py:47-55 | on a real filesystem, a call for a tile already stored changes nothing, because its directories already exist |
| `Downloader.TileStepKeepsWellFormed` | map/votetovid_local/votetovid.ru/tile_downloader.py:46-70 | one `download_tile` call keeps the filesystem real |
| `Downloader.RunSnoc` | map/votetovid_local/votetovid.ru/tile_downloader.py:131-147 | one more completion of the `as_completed` loop is one more step of the run |
| `Downloader.RunConservation` | map/votetovid_local/votetovid.ru/tile_downloader.py:131-144 | after k completions, downloaded + failed + skipped equals k |
| `Downloader.RunKeepsWellFormed` | map/votetovid_local/votetovid.ru/tile_downloader.py:128-147 | a run that starts on a real filesystem ends on one |
| `Downloader.RunReportTotals` | map/votetovid_local/votetovid.ru/tile_downloader.py:143-147 | the totals of the printed lines are exactly the completion counts at which the rule holds |
| `Downloader.RunReportLines` | map/votetovid_local/votetovid.ru/tile_downloader.py:143-147 | line i holds the counters as they stood after the completion that printed it, and the number of lines equals the number of report points |
| `Downloader.RunReports` | map/votetovid_local/votetovid.ru/tile_downloader.py:143-147 | progress is printed exactly after the completions where the count is a multiple of 10 or equals the total, each line holding the downloaded, skipped and failed counts after that completion |
| `Downloader.RunReportsFinal` | map/votetovid_local/votetovid.ru/tile_downloader.py:145-147 | the last printed progress line holds the final counters |
| `Downloader.ReportPointsMembers` | map/votetovid_local/votetovid.ru/tile_downloader.py:145 | a completion count k is printed if and only if 1 <= k <= completed and the rule holds for k |
| `Downloader.ReportPointsCount` | map/votetovid_local/votetovid.ru/tile_downloader.py:145 | a run of n tiles prints ceil(n / 10) progress lines |
| `Downloader.RunReportCount` | map/votetovid_local/votetovid.ru/tile_downloader.py:143-147 | a finished run of n tiles prints exactly ceil(n / 10) progress lines |
| `Downloader.RunResumable` | map/votetovid_local/votetovid.ru/tile_downloader.py:53-55 | when every tile is already stored, every outcome is a skip, nothing is requested and no file changes; on a real filesystem the store is left exactly as it was |
| `Downloader.RunKeepsPending` | map/votetovid_local/votetovid.ru/tile_downloader.py:128-132 | a task not yet completed sees its path exactly as it was before the run |
| `Downloader.RunNextFate` | map/votetovid_local/votetovid.ru/tile_downloader.py:128-132 | the next completion has the outcome it would have had against the initial store |
| `Downloader.RunCounts` | map/votetovid_local/votetovid.ru/tile_downloader.py:131-140 | each counter is the number of completed tasks with that outcome against the initial store |
| `Downloader.RunFilesWritten` | map/votetovid_local/votetovid.ru/tile_downloader.py:69-70 | afterwards each downloaded tile's path holds the body the provider served |
| `Downloader.RunFilesElsewhere` | map/votetovid_local/votetovid.ru/tile_downloader.py:128-132 | afterwards every path that no completed task downloaded is as it was before the run |
| `Downloader.RunFiles` | map/votetovid_local/votetovid.ru/tile_downloader.py:128-132 | afterwards each downloaded tile's path holds its body; every other path is as before |
| `Downloader.RunDirs` | map/votetovid_local/votetovid.ru/tile_downloader.py:46-47 | afterwards the directories are the initial ones plus each completed tile directory with its ancestors |
| `Downloader.RunSummary` | map/votetovid_local/votetovid.ru/tile_downloader.py:124-140 | a finished run in any completion order counts the stored tiles as skipped, the missing tiles the provider served as downloaded, and the rest as failed |
| `Downloader.OrderIndependentCounters` | map/votetovid_local/votetovid.ru/tile_downloader.py:128-140 | two completion orders give the same counters |
| `Downloader.OrderIndependentStore` | map/votetovid_local/votetovid.ru/tile_downloader.py:128-132 | two completion orders give the same files and directories |
| `Downloader.SameFiles` | map/votetovid_local/votetovid.ru/tile_downloader.py:128-132 | two completion orders give the same keys, and the same body at each key |
| `Downloader.Accepts` | map/votetovid_local/votetovid.ru/tile_downloader.py:119 | the definition of an accepted reply: its lower-cased form is yes, y, да or д |
| `Downloader.Proceeds` | map/votetovid_local/votetovid.ru/tile_downloader.py:116-121 | the definition of when `download_area` goes on: at most 1000 tasks, or an accepted reply |
| `Downloader.AcceptedSpelling` | map/votetovid_local/votetovid.ru/tile_downloader.py:119 | every case variant of yes, y, да and д is accepted |
| `Downloader.AcceptedReplies` | map/votetovid_local/votetovid.ru/tile_downloader.py:119 | a reply is accepted if and only if it is one of those 16 spellings; no whitespace is trimmed |
| `Downloader.ConfirmationGate` | map/votetovid_local/votetovid.ru/tile_downloader.py:116-121 | up to 1000 tiles the run always proceeds; above 1000 it proceeds if and only if the reply is an accepted spelling |
| `Downloader.AreaPathsDistinct` | map/votetovid_local/votetovid.ru/tile_downloader.py:105-111 | no two enumerated tasks share a store path |
| `Downloader.AreaRunSummary` | map/votetovid_local/votetovid.ru/tile_downloader.py:101-147 | a finished area download's counters sum to `total_tiles`, and each counts the tiles with that outcome against the store before the run |
| `Downloader.AreaRerunSkipsAll` | map/votetovid_local/votetovid.ru/tile_downloader.py:101-147 | re-running an area whose tiles are all stored gives downloaded = 0, skipped = total and failed = 0, requests nothing and changes no file; on a real filesystem the whole store is unchanged |
| `Downloader.TileDownloader.constructor` | map/votetovid_local/votetovid.ru/tile_downloader.py:26-28 | the output directory exists afterwards, and no URL has been requested |
| `Downloader.TileDownloader.Get` | map/votetovid_local/votetovid.ru/tile_downloader.py:65-66 | appends the URL to the request log and returns the provider's answer |
| `Downloader.TileDownloader.DownloadTile` | map/votetovid_local/votetovid.ru/tile_downloader.py:42-75 | the new store, the requests made and the returned (success, message) are those of `TileStep` on the old store |
| `Downloader.TileDownloader.FetchAll` | map/votetovid_local/votetovid.ru/tile_downloader.py:124-147 | the counters, progress lines, new store and requests are those of `Run` on the old store in the given completion order |
| `Downloader.TileDownloader.DownloadArea` | map/votetovid_local/votetovid.ru/tile_downloader.py:101-147 | prompts exactly when there are more than 1000 tasks; a declined prompt cancels with no change to the store, no request and no progress; otherwise the result is `Run` over `AreaTasks` |

## Left out

- `lat_lon_to_tile` (lines 34-40) uses floating-point trigonometry. It is the parameter `toTile`, so the grid is proved for any tile function.
- The thread pool (`max_workers`, line 128) runs tasks concurrently. The model runs one tile at a time, in the completion order it is given. Two overlapping runs against the same store are not modelled.
- `time.sleep(delay)` (line 62), the session headers (lines 29-32) and the 10-second timeout (line 65) are not modelled. The delay is only carried in each task.
- Printed text is not modelled: the banners, the `❌` lines for failures and the text of the progress line. Progress is modelled as the list of counters printed at each report.
- A source name outside `TILE_SOURCES`, which raises `KeyError` at line 58, is not modelled: `Source` is a closed datatype of the three names.
- Errors other than `requests.RequestException` are not modelled. These include `mkdir` failing on an existing non-directory, and `open`/`write` raising `OSError`.
- `Text.LowerChar` lower-cases only ASCII and Cyrillic capitals. Python's `str.lower()` covers all of Unicode, and the accepted words are all made of letters whose capitals lie in these ranges.
- Downloader.RunResumable and Downloader.AreaRerunSkipsAll promise an unchanged store only when it starts as a real filesystem (`Store.WellFormed`). A store holding a file without its parent directories, which no real filesystem has, gains those directories.
- `net` is a fixed function of the URL within one run: a provider that answers the same URL differently over time is not modelled.
- `main()`, the command-line menu and the tile server are not part of this model.
