/** The downloader: one tile (download_tile), the counting of outcomes in
    completion order, the large-job confirmation, and the class whose methods
    drive the store and the network. */
module Downloader {
  import opened Text
  import opened Tiles
  import opened Store
  import opened Area

  /** What `session.get(url)` followed by `raise_for_status()` yields: the body,
      or the text of a RequestException. */
  datatype FetchResult = Ok(body: Bytes) | Err(reason: string)

  /** The tile providers, as seen by the downloader during one run. */
  type Network = Url -> FetchResult

  /** The `downloaded`, `skipped` and `failed` counters. */
  datatype Counters = Counters(downloaded: nat, skipped: nat, failed: nat)

  /** `progress = downloaded + failed + skipped`. */
  function Progress(c: Counters): nat {
    c.downloaded + c.failed + c.skipped
  }

  datatype Outcome = Downloaded | Skipped | Failed

  function Bump(c: Counters, o: Outcome): Counters {
    match o
    case Downloaded => c.(downloaded := c.downloaded + 1)
    case Skipped => c.(skipped := c.skipped + 1)
    case Failed => c.(failed := c.failed + 1)
  }

  /** How the aggregation loop counts one `(success, message)` result. */
  function Tally(c: Counters, success: bool, message: string): Counters {
    if success then
      if Contains(message, SkipMarker) then c.(skipped := c.skipped + 1)
      else c.(downloaded := c.downloaded + 1)
    else c.(failed := c.failed + 1)
  }

  /** The progress line is printed after this completion. */
  predicate ShouldReport(progress: nat, total: nat) {
    progress % 10 == 0 || progress == total
  }

  /** Above this many tasks the user is asked to confirm. */
  const LargeJob := 1000

  const AcceptWords: set<string> := {"yes", "y", "да", "д"}

  /** `response.lower() in ['yes', 'y', 'да', 'д']`. */
  predicate Accepts(reply: string) {
    Lower(reply) in AcceptWords
  }

  /** Whether download_area goes on to fetch after counting `total` tasks. */
  predicate Proceeds(total: nat, reply: string) {
    total <= LargeJob || Accepts(reply)
  }

  // ---------------------------------------------------------------------
  // One tile

  /** The store afterwards, the URLs requested, and the returned pair. */
  datatype TileResult = TileResult(disk: Disk, fetched: seq<Url>, success: bool, message: string)

  /** download_tile: make the tile directory, skip an existing path, otherwise
      fetch and write the body only on success. */
  function TileStep(root: Path, d: Disk, t: Task, net: Network): TileResult {
    var d1 := d.WithDirs(TileDir(root, t));
    var path := TilePath(root, t);
    if d1.Has(path) then TileResult(d1, [], true, SkippedMessage(t))
    else
      var url := TileUrl(t);
      match net(url)
      case Ok(body) => TileResult(d1.WithFile(path, body), [url], true, DownloadedMessage(t))
      case Err(reason) => TileResult(d1, [url], false, FailureMessage(t, reason))
  }

  /** The outcome a task has against a given store. */
  function Fate(root: Path, d: Disk, t: Task, net: Network): Outcome {
    if d.Has(TilePath(root, t)) then Skipped
    else if net(TileUrl(t)).Ok? then Downloaded
    else Failed
  }

  /** The whole effect of one download_tile call on the store, the network
      and the counters. */
  lemma TileStepEffect(root: Path, d: Disk, t: Task, net: Network, c: Counters)
    ensures var r := TileStep(root, d, t, net);
      && r.disk.dirs == d.dirs + Ancestors(TileDir(root, t))
      && r.disk.files == (if Fate(root, d, t, net) == Downloaded
                          then d.files[TilePath(root, t) := net(TileUrl(t)).body]
                          else d.files)
      && r.fetched == (if d.Has(TilePath(root, t)) then [] else [TileUrl(t)])
      && Tally(c, r.success, r.message) == Bump(c, Fate(root, d, t, net))
  {
    TilePathShape(root, t);
    WithDirsKeepsLongerPaths(d, TileDir(root, t), TilePath(root, t));
    SkipMarkerClassifies(t);
  }

  /** An existing path is reported as a skip, with no request and no file changed. */
  lemma TileStepSkipsPresent(root: Path, d: Disk, t: Task, net: Network)
    requires d.Has(TilePath(root, t))
    ensures var r := TileStep(root, d, t, net);
      r.success && r.message == SkippedMessage(t) && r.fetched == [] && r.disk.files == d.files
  {
  }

  /** A missing tile is requested once; on success exactly its path now holds
      the body and every other file is as before; on failure no file changes.
      Only the tile directory and its ancestors may be new. */
  lemma TileStepFetchesMissing(root: Path, d: Disk, t: Task, net: Network)
    requires !d.Has(TilePath(root, t))
    ensures var r := TileStep(root, d, t, net);
      && r.fetched == [TileUrl(t)]
      && r.disk.dirs == d.dirs + Ancestors(TileDir(root, t))
      && (net(TileUrl(t)).Ok? ==>
            r.success && r.message == DownloadedMessage(t)
            && r.disk.files == d.files[TilePath(root, t) := net(TileUrl(t)).body])
      && (net(TileUrl(t)).Err? ==>
            !r.success && r.message == FailureMessage(t, net(TileUrl(t)).reason)
            && r.disk.files == d.files)
  {
    TilePathShape(root, t);
    WithDirsKeepsLongerPaths(d, TileDir(root, t), TilePath(root, t));
  }

  /** On a real filesystem, a stored tile's directories are already there, so
      skipping it changes nothing at all. */
  lemma TileStepStoredUnchanged(root: Path, d: Disk, t: Task, net: Network)
    requires WellFormed(d) && d.Has(TilePath(root, t))
    ensures TileStep(root, d, t, net).disk == d
  {
    var dir, path := TileDir(root, t), TilePath(root, t);
    TilePathShape(root, t);
    forall m | 1 <= m <= |dir| ensures dir[..m] in d.dirs {
      assert dir[..m] == path[..m];
    }
    WithDirsExisting(d, dir);
  }

  /** One download_tile call keeps the filesystem real. */
  lemma TileStepKeepsWellFormed(root: Path, d: Disk, t: Task, net: Network)
    requires WellFormed(d)
    ensures WellFormed(TileStep(root, d, t, net).disk)
  {
    var dir, path := TileDir(root, t), TilePath(root, t);
    TilePathShape(root, t);
    var d1 := d.WithDirs(dir);
    WithDirsWellFormed(d, dir);
    forall m | 1 <= m < |path| ensures path[..m] in d1.dirs {
      assert path[..m] == dir[..m];
    }
    if !d1.Has(path) && net(TileUrl(t)).Ok? {
      WithFileWellFormed(d1, path, net(TileUrl(t)).body);
    }
  }

  // ---------------------------------------------------------------------
  // The run: outcomes counted in completion order

  datatype RunState = RunState(disk: Disk, fetched: seq<Url>, counters: Counters, reports: seq<Counters>)

  /** One completion: run the tile, count it, maybe print progress. */
  function Absorb(root: Path, st: RunState, t: Task, total: nat, net: Network): RunState {
    var r := TileStep(root, st.disk, t, net);
    var c := Tally(st.counters, r.success, r.message);
    RunState(r.disk, st.fetched + r.fetched, c,
             if ShouldReport(Progress(c), total) then st.reports + [c] else st.reports)
  }

  predicate IndicesIn(order: seq<nat>, n: nat) {
    forall i :: 0 <= i < |order| ==> order[i] < n
  }

  predicate Distinct(order: seq<nat>) {
    forall i, j :: 0 <= i < j < |order| ==> order[i] != order[j]
  }

  /** A completion order of n submitted tasks: each index exactly once. */
  predicate IsSchedule(order: seq<nat>, n: nat) {
    |order| == n && IndicesIn(order, n) && Distinct(order) && forall j :: 0 <= j < n ==> j in order
  }

  /** The state after the tasks `order` names have completed, in that order. */
  function Run(root: Path, d0: Disk, tasks: seq<Task>, order: seq<nat>, net: Network): RunState
    requires IndicesIn(order, |tasks|)
    decreases |order|
  {
    if order == [] then RunState(d0, [], Counters(0, 0, 0), [])
    else
      var k := |order| - 1;
      Absorb(root, Run(root, d0, tasks, order[..k], net), tasks[order[k]], |tasks|, net)
  }

  /** The loop's step: one more completion is one more Absorb. */
  lemma RunSnoc(root: Path, d0: Disk, tasks: seq<Task>, order: seq<nat>, i: nat, net: Network)
    requires IndicesIn(order, |tasks|) && i < |order|
    ensures Run(root, d0, tasks, order[..i + 1], net)
         == Absorb(root, Run(root, d0, tasks, order[..i], net), tasks[order[i]], |tasks|, net)
  {
    assert order[..i + 1][..i] == order[..i];
  }

  /** Each completion adds one to exactly one counter: after k outcomes the
      counters sum to k. */
  lemma {:induction false} RunConservation(root: Path, d0: Disk, tasks: seq<Task>, order: seq<nat>, net: Network)
    requires IndicesIn(order, |tasks|)
    ensures Progress(Run(root, d0, tasks, order, net).counters) == |order|
    decreases |order|
  {
    if order != [] {
      RunConservation(root, d0, tasks, order[..|order| - 1], net);
    }
  }

  /** A run that starts on a real filesystem ends on one. */
  lemma {:induction false} RunKeepsWellFormed(root: Path, d0: Disk, tasks: seq<Task>, order: seq<nat>, net: Network)
    requires IndicesIn(order, |tasks|) && WellFormed(d0)
    ensures WellFormed(Run(root, d0, tasks, order, net).disk)
    decreases |order|
  {
    if order != [] {
      var k := |order| - 1;
      RunKeepsWellFormed(root, d0, tasks, order[..k], net);
      TileStepKeepsWellFormed(root, Run(root, d0, tasks, order[..k], net).disk, tasks[order[k]], net);
    }
  }

  // ---------------------------------------------------------------------
  // Progress reports

  /** The completion counts 1..k at which a progress line is printed. */
  function ReportPoints(k: nat, total: nat): seq<nat> {
    if k == 0 then [] else ReportPoints(k - 1, total) + (if ShouldReport(k, total) then [k] else [])
  }

  function Sums(reports: seq<Counters>): seq<nat> {
    if reports == [] then [] else Sums(reports[..|reports| - 1]) + [Progress(reports[|reports| - 1])]
  }

  /** The report points lie between 1 and k. */
  lemma {:induction false} ReportPointsBounded(k: nat, total: nat)
    ensures forall i :: 0 <= i < |ReportPoints(k, total)| ==> 1 <= ReportPoints(k, total)[i] <= k
  {
    if k > 0 {
      ReportPointsBounded(k - 1, total);
      var pts, prev := ReportPoints(k, total), ReportPoints(k - 1, total);
      var tail: seq<nat> := if ShouldReport(k, total) then [k] else [];
      assert pts == prev + tail;
      forall i | 0 <= i < |pts| ensures 1 <= pts[i] <= k {
        if i < |prev| {
          assert 1 <= prev[i] <= k - 1;
          assert pts[i] == prev[i];
        } else {
          assert pts[i] == tail[i - |prev|];
        }
      }
    }
  }

  /** The i-th progress line holds the counters as they stood after the
      completion that printed it. */
  lemma {:induction false} RunReportLines(root: Path, d0: Disk, tasks: seq<Task>, order: seq<nat>, net: Network)
    requires IndicesIn(order, |tasks|)
    ensures var rs, pts := Run(root, d0, tasks, order, net).reports, ReportPoints(|order|, |tasks|);
      && |rs| == |pts|
      && forall i :: 0 <= i < |rs| ==> pts[i] <= |order| && rs[i] == Run(root, d0, tasks, order[..pts[i]], net).counters
    decreases |order|
  {
    if order != [] {
      var k := |order| - 1;
      RunReportLines(root, d0, tasks, order[..k], net);
      RunConservation(root, d0, tasks, order, net);
      ReportPointsBounded(k, |tasks|);
      var prev := Run(root, d0, tasks, order[..k], net).reports;
      var now := Run(root, d0, tasks, order, net);
      var pts := ReportPoints(|order|, |tasks|);
      var before := ReportPoints(k, |tasks|);
      forall i | 0 <= i < |prev| ensures order[..k][..before[i]] == order[..before[i]] { }
      if ShouldReport(|order|, |tasks|) {
        assert now.reports == prev + [now.counters];
        assert pts == before + [|order|];
        assert order[..|order|] == order;
      } else {
        assert now.reports == prev;
        assert pts == before;
      }
    }
  }

  /** Each progress line's total: the completion counts that print. */
  lemma {:induction false} RunReportTotals(root: Path, d0: Disk, tasks: seq<Task>, order: seq<nat>, net: Network)
    requires IndicesIn(order, |tasks|)
    ensures Sums(Run(root, d0, tasks, order, net).reports) == ReportPoints(|order|, |tasks|)
    decreases |order|
  {
    if order != [] {
      var k := |order| - 1;
      RunReportTotals(root, d0, tasks, order[..k], net);
      RunConservation(root, d0, tasks, order, net);
      var prev := Run(root, d0, tasks, order[..k], net).reports;
      var now := Run(root, d0, tasks, order, net);
      if ShouldReport(|order|, |tasks|) {
        assert now.reports == prev + [now.counters];
        assert (prev + [now.counters])[..|prev|] == prev;
      }
    }
  }

  /** Progress is printed exactly after the completions where the count is a
      multiple of 10 or equals the total, each time with the counters as they
      stood after that completion. */
  lemma RunReports(root: Path, d0: Disk, tasks: seq<Task>, order: seq<nat>, net: Network)
    requires IndicesIn(order, |tasks|)
    ensures Sums(Run(root, d0, tasks, order, net).reports) == ReportPoints(|order|, |tasks|)
    ensures |Run(root, d0, tasks, order, net).reports| == |ReportPoints(|order|, |tasks|)|
    ensures forall i :: 0 <= i < |Run(root, d0, tasks, order, net).reports| ==>
      ReportPoints(|order|, |tasks|)[i] <= |order|
      && Run(root, d0, tasks, order, net).reports[i]
         == Run(root, d0, tasks, order[..ReportPoints(|order|, |tasks|)[i]], net).counters
  {
    RunReportTotals(root, d0, tasks, order, net);
    RunReportLines(root, d0, tasks, order, net);
  }

  /** The last completion always prints the final counters. */
  lemma RunReportsFinal(root: Path, d0: Disk, tasks: seq<Task>, order: seq<nat>, net: Network)
    requires IndicesIn(order, |tasks|) && |order| == |tasks| > 0
    ensures var st := Run(root, d0, tasks, order, net);
      |st.reports| > 0 && st.reports[|st.reports| - 1] == st.counters
  {
    RunConservation(root, d0, tasks, order, net);
  }

  lemma {:induction false} ReportPointsMembers(k: nat, total: nat, p: nat)
    ensures p in ReportPoints(k, total) <==> 1 <= p <= k && ShouldReport(p, total)
  {
    if k > 0 {
      ReportPointsMembers(k - 1, total, p);
    }
  }

  lemma {:induction false} ReportPointsBeforeEnd(k: nat, total: nat)
    requires k < total
    ensures |ReportPoints(k, total)| == k / 10
  {
    if k > 0 {
      ReportPointsBeforeEnd(k - 1, total);
    }
  }

  /** A run of n tasks prints ceil(n / 10) progress lines. */
  lemma ReportPointsCount(n: nat)
    ensures |ReportPoints(n, n)| == (n + 9) / 10
  {
    if n > 0 {
      ReportPointsBeforeEnd(n - 1, n);
    }
  }

  /** A completed run of n tiles prints ceil(n / 10) progress lines. */
  lemma RunReportCount(root: Path, d0: Disk, tasks: seq<Task>, order: seq<nat>, net: Network)
    requires IndicesIn(order, |tasks|) && |order| == |tasks|
    ensures |Run(root, d0, tasks, order, net).reports| == (|tasks| + 9) / 10
  {
    RunReportLines(root, d0, tasks, order, net);
    ReportPointsCount(|tasks|);
  }

  // ---------------------------------------------------------------------
  // Resuming a finished download

  /** Every tile already stored: all outcomes are skips, nothing is requested
      and no file changes; on a real filesystem the store is left exactly as
      it was. */
  lemma {:induction false} RunResumable(root: Path, d0: Disk, tasks: seq<Task>, order: seq<nat>, net: Network)
    requires IndicesIn(order, |tasks|)
    requires forall i :: 0 <= i < |tasks| ==> d0.Has(TilePath(root, tasks[i]))
    ensures var st := Run(root, d0, tasks, order, net);
      && st.counters == Counters(0, |order|, 0)
      && st.disk.files == d0.files
      && d0.dirs <= st.disk.dirs
      && st.fetched == []
      && (WellFormed(d0) ==> st.disk == d0)
    decreases |order|
  {
    if order != [] {
      var k := |order| - 1;
      var prev := Run(root, d0, tasks, order[..k], net);
      RunResumable(root, d0, tasks, order[..k], net);
      var t := tasks[order[k]];
      assert prev.disk.Has(TilePath(root, t));
      TileStepEffect(root, prev.disk, t, net, prev.counters);
      if WellFormed(d0) {
        TileStepStoredUnchanged(root, prev.disk, t, net);
      }
    }
  }

  // ---------------------------------------------------------------------
  // Completion order does not matter

  /** No two tasks share a store path. */
  predicate DistinctPaths(root: Path, tasks: seq<Task>) {
    forall i, j :: 0 <= i < j < |tasks| ==> TilePath(root, tasks[i]) != TilePath(root, tasks[j])
  }

  /** The completed tasks whose outcome against the initial store is `o`. */
  function FateSet(root: Path, d0: Disk, tasks: seq<Task>, order: seq<nat>, net: Network, o: Outcome): set<nat> {
    set j | j in order && j < |tasks| && Fate(root, d0, tasks[j], net) == o
  }

  /** The paths written by the completed tasks. */
  function WrittenPaths(root: Path, d0: Disk, tasks: seq<Task>, order: seq<nat>, net: Network): set<Path> {
    set j | j in order && j < |tasks| && Fate(root, d0, tasks[j], net) == Downloaded :: TilePath(root, tasks[j])
  }

  /** The directories created by the completed tasks. */
  function CreatedDirs(root: Path, tasks: seq<Task>, order: seq<nat>): set<Path> {
    set j, q | j in order && j < |tasks| && q in Ancestors(TileDir(root, tasks[j])) :: q
  }

  lemma OrderSplit(order: seq<nat>, j: nat)
    requires order != []
    ensures j in order <==> j in order[..|order| - 1] || j == order[|order| - 1]
  {
    assert order == order[..|order| - 1] + [order[|order| - 1]];
  }

  /** A task still waiting sees its path exactly as it was at the start. */
  lemma {:induction false} RunKeepsPending(root: Path, d0: Disk, tasks: seq<Task>, order: seq<nat>, net: Network, i: nat)
    requires IndicesIn(order, |tasks|) && DistinctPaths(root, tasks)
    requires i < |tasks| && i !in order
    ensures Run(root, d0, tasks, order, net).disk.Has(TilePath(root, tasks[i])) == d0.Has(TilePath(root, tasks[i]))
    decreases |order|
  {
    if order != [] {
      var k := |order| - 1;
      var j := order[k];
      OrderSplit(order, i);
      RunKeepsPending(root, d0, tasks, order[..k], net, i);
      var prev := Run(root, d0, tasks, order[..k], net);
      var p := TilePath(root, tasks[i]);
      assert p != TilePath(root, tasks[j]);
      TilePathShape(root, tasks[i]);
      TilePathShape(root, tasks[j]);
      WithDirsKeepsLongerPaths(prev.disk, TileDir(root, tasks[j]), p);
      TileStepEffect(root, prev.disk, tasks[j], net, prev.counters);
    }
  }

  /** The task completing next has the outcome it would have had against the
      initial store. */
  lemma RunNextFate(root: Path, d0: Disk, tasks: seq<Task>, order: seq<nat>, net: Network)
    requires IndicesIn(order, |tasks|) && DistinctPaths(root, tasks) && Distinct(order)
    requires order != []
    ensures var k := |order| - 1;
      Fate(root, Run(root, d0, tasks, order[..k], net).disk, tasks[order[k]], net)
      == Fate(root, d0, tasks[order[k]], net)
  {
    var k := |order| - 1;
    assert order[k] !in order[..k];
    RunKeepsPending(root, d0, tasks, order[..k], net, order[k]);
  }

  lemma FateSetStep(root: Path, d0: Disk, tasks: seq<Task>, order: seq<nat>, net: Network, o: Outcome)
    requires IndicesIn(order, |tasks|) && Distinct(order) && order != []
    ensures var k := |order| - 1;
      |FateSet(root, d0, tasks, order, net, o)|
      == |FateSet(root, d0, tasks, order[..k], net, o)| + (if Fate(root, d0, tasks[order[k]], net) == o then 1 else 0)
  {
    var k := |order| - 1;
    var j := order[k];
    var prefix := order[..k];
    var extra: set<nat> := if Fate(root, d0, tasks[j], net) == o then {j} else {};
    forall m ensures m in FateSet(root, d0, tasks, order, net, o) <==> m in FateSet(root, d0, tasks, prefix, net, o) + extra {
      OrderSplit(order, m);
    }
    assert FateSet(root, d0, tasks, order, net, o) == FateSet(root, d0, tasks, prefix, net, o) + extra;
    assert j !in prefix;
  }

  /** Every counter counts the completed tasks with that outcome against the
      initial store. */
  lemma {:induction false} RunCounts(root: Path, d0: Disk, tasks: seq<Task>, order: seq<nat>, net: Network)
    requires IndicesIn(order, |tasks|) && DistinctPaths(root, tasks) && Distinct(order)
    ensures Run(root, d0, tasks, order, net).counters
         == Counters(|FateSet(root, d0, tasks, order, net, Downloaded)|,
                     |FateSet(root, d0, tasks, order, net, Skipped)|,
                     |FateSet(root, d0, tasks, order, net, Failed)|)
    decreases |order|
  {
    if order != [] {
      var k := |order| - 1;
      var j := order[k];
      var prefix := order[..k];
      assert Distinct(prefix);
      RunCounts(root, d0, tasks, prefix, net);
      RunNextFate(root, d0, tasks, order, net);
      var prev := Run(root, d0, tasks, prefix, net);
      TileStepEffect(root, prev.disk, tasks[j], net, prev.counters);
      FateSetStep(root, d0, tasks, order, net, Downloaded);
      FateSetStep(root, d0, tasks, order, net, Skipped);
      FateSetStep(root, d0, tasks, order, net, Failed);
    }
  }

  /** Each downloaded tile's path holds the body the provider served. */
  lemma {:induction false} RunFilesWritten(root: Path, d0: Disk, tasks: seq<Task>, order: seq<nat>, net: Network)
    requires IndicesIn(order, |tasks|) && DistinctPaths(root, tasks) && Distinct(order)
    ensures var files := Run(root, d0, tasks, order, net).disk.files;
      forall j :: j in order && j < |tasks| && Fate(root, d0, tasks[j], net) == Downloaded ==>
        TilePath(root, tasks[j]) in files && files[TilePath(root, tasks[j])] == net(TileUrl(tasks[j])).body
    decreases |order|
  {
    if order != [] {
      var k := |order| - 1;
      var j := order[k];
      var prefix := order[..k];
      assert Distinct(prefix);
      RunFilesWritten(root, d0, tasks, prefix, net);
      RunNextFate(root, d0, tasks, order, net);
      var prev := Run(root, d0, tasks, prefix, net);
      TileStepEffect(root, prev.disk, tasks[j], net, prev.counters);
      var files := Run(root, d0, tasks, order, net).disk.files;
      forall m | m in order && m < |tasks| && Fate(root, d0, tasks[m], net) == Downloaded
        ensures TilePath(root, tasks[m]) in files && files[TilePath(root, tasks[m])] == net(TileUrl(tasks[m])).body
      {
        OrderSplit(order, m);
        if m != j {
          assert TilePath(root, tasks[m]) != TilePath(root, tasks[j]);
        }
      }
    }
  }

  /** Every path no completed task downloaded is as it was at the start. */
  lemma {:induction false} RunFilesElsewhere(root: Path, d0: Disk, tasks: seq<Task>, order: seq<nat>, net: Network)
    requires IndicesIn(order, |tasks|) && DistinctPaths(root, tasks) && Distinct(order)
    ensures var files := Run(root, d0, tasks, order, net).disk.files;
      forall p :: p !in WrittenPaths(root, d0, tasks, order, net) ==>
        (p in files <==> p in d0.files) && (p in files ==> files[p] == d0.files[p])
    decreases |order|
  {
    if order != [] {
      var k := |order| - 1;
      var j := order[k];
      var prefix := order[..k];
      assert Distinct(prefix);
      RunFilesElsewhere(root, d0, tasks, prefix, net);
      RunNextFate(root, d0, tasks, order, net);
      var prev := Run(root, d0, tasks, prefix, net);
      TileStepEffect(root, prev.disk, tasks[j], net, prev.counters);
      var files := Run(root, d0, tasks, order, net).disk.files;
      forall p | p !in WrittenPaths(root, d0, tasks, order, net)
        ensures (p in files <==> p in d0.files) && (p in files ==> files[p] == d0.files[p])
      {
        assert p !in WrittenPaths(root, d0, tasks, prefix, net) by {
          forall m | m in prefix ensures m in order {
            OrderSplit(order, m);
          }
        }
        if Fate(root, d0, tasks[j], net) == Downloaded {
          assert j in order;
          assert p != TilePath(root, tasks[j]);
        }
      }
    }
  }

  /** What the store holds after the completed tasks: each downloaded tile's
      body at its path, and the initial contents everywhere else. */
  lemma RunFiles(root: Path, d0: Disk, tasks: seq<Task>, order: seq<nat>, net: Network)
    requires IndicesIn(order, |tasks|) && DistinctPaths(root, tasks) && Distinct(order)
    ensures var files := Run(root, d0, tasks, order, net).disk.files;
      && (forall j :: j in order && j < |tasks| && Fate(root, d0, tasks[j], net) == Downloaded ==>
            TilePath(root, tasks[j]) in files && files[TilePath(root, tasks[j])] == net(TileUrl(tasks[j])).body)
      && (forall p :: p !in WrittenPaths(root, d0, tasks, order, net) ==>
            (p in files <==> p in d0.files) && (p in files ==> files[p] == d0.files[p]))
  {
    RunFilesWritten(root, d0, tasks, order, net);
    RunFilesElsewhere(root, d0, tasks, order, net);
  }

  /** The directories afterwards: the initial ones and every tile directory
      with its ancestors. */
  lemma {:induction false} RunDirs(root: Path, d0: Disk, tasks: seq<Task>, order: seq<nat>, net: Network)
    requires IndicesIn(order, |tasks|)
    ensures Run(root, d0, tasks, order, net).disk.dirs == d0.dirs + CreatedDirs(root, tasks, order)
    decreases |order|
  {
    if order != [] {
      var k := |order| - 1;
      var j := order[k];
      var prefix := order[..k];
      RunDirs(root, d0, tasks, prefix, net);
      var prev := Run(root, d0, tasks, prefix, net);
      TileStepEffect(root, prev.disk, tasks[j], net, prev.counters);
      forall q ensures q in CreatedDirs(root, tasks, order) <==>
          q in CreatedDirs(root, tasks, prefix) || q in Ancestors(TileDir(root, tasks[j]))
      {
        if q in CreatedDirs(root, tasks, order) {
          var m :| m in order && m < |tasks| && q in Ancestors(TileDir(root, tasks[m]));
          OrderSplit(order, m);
        }
        if q in CreatedDirs(root, tasks, prefix) {
          var m :| m in prefix && m < |tasks| && q in Ancestors(TileDir(root, tasks[m]));
          OrderSplit(order, m);
        }
        assert j in order;
      }
    }
  }

  /** The number of tasks whose outcome against the initial store is `o`. */
  function FateCount(root: Path, d0: Disk, tasks: seq<Task>, net: Network, o: Outcome): nat {
    |set j | 0 <= j < |tasks| && Fate(root, d0, tasks[j], net) == o|
  }

  /** Whatever the completion order, a finished run counts every task by its
      outcome against the initial store: skipped the tiles already there,
      downloaded the missing ones the provider served, failed the rest. */
  lemma RunSummary(root: Path, d0: Disk, tasks: seq<Task>, order: seq<nat>, net: Network)
    requires IsSchedule(order, |tasks|) && DistinctPaths(root, tasks)
    ensures Run(root, d0, tasks, order, net).counters
         == Counters(FateCount(root, d0, tasks, net, Downloaded),
                     FateCount(root, d0, tasks, net, Skipped),
                     FateCount(root, d0, tasks, net, Failed))
  {
    RunCounts(root, d0, tasks, order, net);
    forall o: Outcome
      ensures FateSet(root, d0, tasks, order, net, o) == set j | 0 <= j < |tasks| && Fate(root, d0, tasks[j], net) == o
    {
    }
  }

  /** Two completion orders of the same tasks leave the same counters. */
  lemma OrderIndependentCounters(root: Path, d0: Disk, tasks: seq<Task>, o1: seq<nat>, o2: seq<nat>, net: Network)
    requires IsSchedule(o1, |tasks|) && IsSchedule(o2, |tasks|) && DistinctPaths(root, tasks)
    ensures Run(root, d0, tasks, o1, net).counters == Run(root, d0, tasks, o2, net).counters
  {
    RunSummary(root, d0, tasks, o1, net);
    RunSummary(root, d0, tasks, o2, net);
  }

  /** Two completion orders of the same tasks leave the same store. */
  lemma OrderIndependentStore(root: Path, d0: Disk, tasks: seq<Task>, o1: seq<nat>, o2: seq<nat>, net: Network)
    requires IsSchedule(o1, |tasks|) && IsSchedule(o2, |tasks|) && DistinctPaths(root, tasks)
    ensures Run(root, d0, tasks, o1, net).disk == Run(root, d0, tasks, o2, net).disk
  {
    var f1, f2 := Run(root, d0, tasks, o1, net).disk.files, Run(root, d0, tasks, o2, net).disk.files;
    SameFiles(root, d0, tasks, o1, o2, net);
    assert f1 == f2;
    RunDirs(root, d0, tasks, o1, net);
    RunDirs(root, d0, tasks, o2, net);
    assert CreatedDirs(root, tasks, o1) == CreatedDirs(root, tasks, o2) by {
      assert forall j :: j in o1 <==> j in o2;
    }
  }

  lemma SameFiles(root: Path, d0: Disk, tasks: seq<Task>, o1: seq<nat>, o2: seq<nat>, net: Network)
    requires IsSchedule(o1, |tasks|) && IsSchedule(o2, |tasks|) && DistinctPaths(root, tasks)
    ensures var f1, f2 := Run(root, d0, tasks, o1, net).disk.files, Run(root, d0, tasks, o2, net).disk.files;
      f1.Keys == f2.Keys && forall p :: p in f1 ==> f1[p] == f2[p]
  {
    RunFiles(root, d0, tasks, o1, net);
    RunFiles(root, d0, tasks, o2, net);
    var w1, w2 := WrittenPaths(root, d0, tasks, o1, net), WrittenPaths(root, d0, tasks, o2, net);
    assert w1 == w2 by {
      assert forall j :: j in o1 <==> j in o2;
    }
    var f1, f2 := Run(root, d0, tasks, o1, net).disk.files, Run(root, d0, tasks, o2, net).disk.files;
    forall p ensures (p in f1 <==> p in f2) && (p in f1 ==> f1[p] == f2[p]) {
      if p in w1 {
        var m :| m in o1 && m < |tasks| && Fate(root, d0, tasks[m], net) == Downloaded && p == TilePath(root, tasks[m]);
        assert m in o2;
      }
    }
  }

  // ---------------------------------------------------------------------
  // The large-job confirmation

  /** Every way of typing an accepted answer. */
  const AcceptedSpellings: set<string> := {
    "yes", "yeS", "yEs", "yES", "Yes", "YeS", "YEs", "YES", "y", "Y",
    "да", "дА", "Да", "ДА", "д", "Д"
  }

  lemma LowerCharTo(c: char)
    ensures LowerChar(c) == 'y' ==> c == 'y' || c == 'Y'
    ensures LowerChar(c) == 'e' ==> c == 'e' || c == 'E'
    ensures LowerChar(c) == 's' ==> c == 's' || c == 'S'
    ensures LowerChar(c) == 'д' ==> c == 'д' || c == 'Д'
    ensures LowerChar(c) == 'а' ==> c == 'а' || c == 'А'
  {
  }

  lemma AcceptedSpelling(reply: string)
    requires reply in AcceptedSpellings
    ensures Accepts(reply)
  {
    var low := Lower(reply);
    if |reply| == 3 {
      assert low == [LowerChar(reply[0]), LowerChar(reply[1]), LowerChar(reply[2])];
    } else if |reply| == 2 {
      assert low == [LowerChar(reply[0]), LowerChar(reply[1])];
    } else {
      assert low == [LowerChar(reply[0])];
    }
  }

  /** The reply is accepted exactly when it is yes, y, да or д in any mix of
      cases, with nothing around it: no trimming is done. */
  lemma AcceptedReplies(reply: string)
    ensures Accepts(reply) <==> reply in AcceptedSpellings
  {
    var low := Lower(reply);
    if Accepts(reply) {
      assert |low| == |reply|;
      forall i | 0 <= i < |reply| ensures low[i] == LowerChar(reply[i]) { }
      if low == "yes" {
        LowerCharTo(reply[0]); LowerCharTo(reply[1]); LowerCharTo(reply[2]);
        assert reply == [reply[0], reply[1], reply[2]];
      } else if low == "да" {
        LowerCharTo(reply[0]); LowerCharTo(reply[1]);
        assert reply == [reply[0], reply[1]];
      } else {
        LowerCharTo(reply[0]);
        assert reply == [reply[0]];
      }
    } else if reply in AcceptedSpellings {
      AcceptedSpelling(reply);
    }
  }

  /** Up to the threshold nobody is asked; above it, only an accepted reply
      lets the run go on. */
  lemma ConfirmationGate(total: nat, reply: string)
    ensures total <= LargeJob ==> Proceeds(total, reply)
    ensures total > LargeJob ==> (Proceeds(total, reply) <==> reply in AcceptedSpellings)
  {
    AcceptedReplies(reply);
  }

  // ---------------------------------------------------------------------
  // Runs over an enumerated area

  /** The enumerated tasks never share a store path. */
  lemma AreaPathsDistinct(root: Path, s: Source, delay: real, toTile: TileOf, b: Bounds, zLo: int, zHi: int)
    ensures DistinctPaths(root, AreaTasks(s, delay, toTile, b, zLo, zHi))
  {
    var ts := AreaTasks(s, delay, toTile, b, zLo, zHi);
    AreaTasksDistinct(s, delay, toTile, b, zLo, zHi);
    forall i, j | 0 <= i < j < |ts| ensures TilePath(root, ts[i]) != TilePath(root, ts[j]) {
      TilePathInjective(root, ts[i], ts[j]);
    }
  }

  /** A finished download of an area, in any completion order: the counters
      sum to total_tiles, and each counts the tiles with that outcome against
      the store as it was before the run. */
  lemma AreaRunSummary(root: Path, d0: Disk, s: Source, delay: real, toTile: TileOf, b: Bounds,
                       zLo: int, zHi: int, order: seq<nat>, net: Network)
    requires IsSchedule(order, |AreaTasks(s, delay, toTile, b, zLo, zHi)|)
    ensures var tasks := AreaTasks(s, delay, toTile, b, zLo, zHi);
      var c := Run(root, d0, tasks, order, net).counters;
      && Progress(c) == |tasks| == AreaCount(toTile, b, zLo, zHi)
      && c == Counters(FateCount(root, d0, tasks, net, Downloaded),
                       FateCount(root, d0, tasks, net, Skipped),
                       FateCount(root, d0, tasks, net, Failed))
  {
    var tasks := AreaTasks(s, delay, toTile, b, zLo, zHi);
    AreaTaskCount(s, delay, toTile, b, zLo, zHi);
    RunConservation(root, d0, tasks, order, net);
    AreaPathsDistinct(root, s, delay, toTile, b, zLo, zHi);
    RunSummary(root, d0, tasks, order, net);
  }

  /** Re-running an area whose tiles are all stored downloads nothing, fails
      nothing, skips every tile and leaves every file as it was; on a real
      filesystem the whole store is unchanged. */
  lemma AreaRerunSkipsAll(root: Path, d0: Disk, s: Source, delay: real, toTile: TileOf, b: Bounds,
                          zLo: int, zHi: int, order: seq<nat>, net: Network)
    requires IsSchedule(order, |AreaTasks(s, delay, toTile, b, zLo, zHi)|)
    requires forall t :: InArea(s, delay, toTile, b, zLo, zHi, t) ==> d0.Has(TilePath(root, t))
    ensures var tasks := AreaTasks(s, delay, toTile, b, zLo, zHi);
      var st := Run(root, d0, tasks, order, net);
      && st.counters == Counters(0, |tasks|, 0) && st.disk.files == d0.files && st.fetched == []
      && (WellFormed(d0) ==> st.disk == d0)
  {
    var tasks := AreaTasks(s, delay, toTile, b, zLo, zHi);
    forall i | 0 <= i < |tasks| ensures d0.Has(TilePath(root, tasks[i])) {
      AreaTasksMembers(s, delay, toTile, b, zLo, zHi, tasks[i]);
    }
    RunResumable(root, d0, tasks, order, net);
  }

  // ---------------------------------------------------------------------
  // The downloader object

  /** How download_area ends: cancelled at the prompt, or with its counters. */
  datatype Summary = Cancelled | Finished(counters: Counters)

  class TileDownloader {
    const outputDir: Path
    const store: FileStore
    /** Every URL requested through the session, in order. */
    var requested: seq<Url>

    /** `__init__`: `output_dir.mkdir(exist_ok=True)`. */
    constructor (outputDir: Path, store: FileStore)
      modifies store
      ensures this.outputDir == outputDir && this.store == store && requested == []
      ensures store.Snapshot() == old(store.Snapshot()).WithDir(outputDir)
    {
      this.outputDir := outputDir;
      this.store := store;
      requested := [];
      new;
      store.MakeDir(outputDir);
    }

    /** `session.get(url)` with `raise_for_status()`. */
    method Get(url: Url, net: Network) returns (response: FetchResult)
      modifies this
      ensures requested == old(requested) + [url] && response == net(url)
    {
      requested := requested + [url];
      response := net(url);
    }

    method DownloadTile(source: Source, z: int, x: int, y: int, delay: real, net: Network)
      returns (success: bool, message: string)
      modifies this, store
      ensures var r := TileStep(outputDir, old(store.Snapshot()), Task(source, z, x, y, delay), net);
        && store.Snapshot() == r.disk
        && requested == old(requested) + r.fetched
        && success == r.success && message == r.message
    {
      var t := Task(source, z, x, y, delay);
      var tileDir := TileDir(outputDir, t);
      store.MakeDirs(tileDir);
      var ext := Extension(source);
      var tilePath := tileDir + [IntToDecimal(y) + ext];
      var present := store.PathExists(tilePath);
      if present {
        return true, SkippedMessage(t);
      }
      var url := TileUrl(t);
      var response := Get(url, net);
      match response {
        case Ok(body) =>
          store.WriteBytes(tilePath, body);
          success, message := true, DownloadedMessage(t);
        case Err(reason) =>
          success, message := false, FailureMessage(t, reason);
      }
    }

    /** download_area. The reply to the prompt and the completion order are
        inputs; the reply is read only when the prompt is shown. */
    method DownloadArea(b: Bounds, zoomMin: int, zoomMax: int, source: Source, delay: real,
                        toTile: TileOf, reply: string, order: seq<nat>, net: Network)
      returns (prompted: bool, summary: Summary, reports: seq<Counters>)
      requires IsSchedule(order, |AreaTasks(source, delay, toTile, b, zoomMin, zoomMax)|)
      modifies this, store
      ensures prompted == (|AreaTasks(source, delay, toTile, b, zoomMin, zoomMax)| > LargeJob)
      ensures prompted && !Accepts(reply) ==>
        && summary == Cancelled && reports == []
        && store.Snapshot() == old(store.Snapshot()) && requested == old(requested)
      ensures !prompted || Accepts(reply) ==>
        var st := Run(outputDir, old(store.Snapshot()), AreaTasks(source, delay, toTile, b, zoomMin, zoomMax), order, net);
        && summary == Finished(st.counters) && reports == st.reports
        && store.Snapshot() == st.disk && requested == old(requested) + st.fetched
    {
      var tasks, totalTiles := EnumerateTasks(source, b, zoomMin, zoomMax, delay, toTile);
      prompted := totalTiles > LargeJob;
      if prompted && !Accepts(reply) {
        return prompted, Cancelled, [];
      }
      var counters;
      counters, reports := FetchAll(tasks, totalTiles, order, net);
      summary := Finished(counters);
    }

    /** The pool and its `as_completed` loop, run one completion at a time in
        the order `order`: fetch, count, maybe print progress. */
    method FetchAll(tasks: seq<Task>, totalTiles: nat, order: seq<nat>, net: Network)
      returns (counters: Counters, reports: seq<Counters>)
      requires totalTiles == |tasks| && IndicesIn(order, |tasks|)
      modifies this, store
      ensures var st := Run(outputDir, old(store.Snapshot()), tasks, order, net);
        && counters == st.counters && reports == st.reports
        && store.Snapshot() == st.disk && requested == old(requested) + st.fetched
    {
      var downloaded, failed, skipped := 0, 0, 0;
      reports := [];
      ghost var start := store.Snapshot();
      ghost var log := requested;
      ghost var st := Run(outputDir, start, tasks, [], net);
      for i := 0 to |order|
        invariant st == Run(outputDir, start, tasks, order[..i], net)
        invariant Counters(downloaded, skipped, failed) == st.counters
        invariant reports == st.reports
        invariant store.Snapshot() == st.disk
        invariant requested == log + st.fetched
      {
        var t := tasks[order[i]];
        RunSnoc(outputDir, start, tasks, order, i, net);
        assert t == Task(t.source, t.z, t.x, t.y, t.delay);
        ghost var r := TileStep(outputDir, st.disk, t, net);
        var success, message := DownloadTile(t.source, t.z, t.x, t.y, t.delay, net);
        assert success == r.success && message == r.message;
        if success {
          if Contains(message, SkipMarker) {
            skipped := skipped + 1;
          } else {
            downloaded := downloaded + 1;
          }
        } else {
          failed := failed + 1;
        }
        ghost var c := Tally(st.counters, success, message);
        assert Counters(downloaded, skipped, failed) == c;
        var progress := downloaded + failed + skipped;
        assert progress == Progress(c);
        ghost var reportsBefore := reports;
        if progress % 10 == 0 || progress == totalTiles {
          reports := reports + [Counters(downloaded, skipped, failed)];
        }
        assert reports == if ShouldReport(Progress(c), |tasks|) then reportsBefore + [c] else reportsBefore;
        st := Absorb(outputDir, st, t, |tasks|, net);
      }
      assert order[..|order|] == order;
      counters := Counters(downloaded, skipped, failed);
    }
  }
}
