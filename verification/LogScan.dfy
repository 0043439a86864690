/** Searching the chain's log backwards in windows, and forwards from a checkpoint (lib/ghostwire-operator.ts). */
module LogScan {
  import opened Common
  import Sorting

  const LOG_SCAN_BLOCK_RANGE: nat := 9_000
  const ARTIFACT_RECOVERY_MAX_BLOCK_SCAN: nat := 2_000

  datatype JobState = Open | Funded | Submitted | Completed | Rejected | Expired

  type Hash = string

  /** One event of a job in the log of the chain. */
  datatype Log = Log(state: JobState, tx: Hash, block: nat, logIndex: nat)

  predicate Terminal(s: JobState) {
    s == Completed || s == Rejected || s == Expired
  }

  /** The four event types the scan asks for. */
  predicate Lifecycle(s: JobState) {
    s == Submitted || Terminal(s)
  }

  predicate LogLeq(a: Log, b: Log) {
    if a.block == b.block then a.logIndex <= b.logIndex else a.block < b.block
  }

  /** No two logs share a position in the chain. */
  ghost predicate DistinctPositions(logs: seq<Log>) {
    forall i, j :: 0 <= i < j < |logs| ==> logs[i].block != logs[j].block || logs[i].logIndex != logs[j].logIndex
  }

  /** The newest lifecycle event up to block `head`: what a scan of the whole log would return. */
  ghost predicate IsLatest(logs: seq<Log>, head: nat, e: Log) {
    && e in logs && Lifecycle(e.state) && e.block <= head
    && forall f :: f in logs && Lifecycle(f.state) && f.block <= head ==> LogLeq(f, e)
  }

  ghost predicate NoneUpTo(logs: seq<Log>, head: nat) {
    forall f :: f in logs && Lifecycle(f.state) ==> f.block > head
  }

  /** eth_getLogs for one event type and an inclusive range of blocks. */
  function GetLogs(logs: seq<Log>, state: JobState, from: nat, last: nat): seq<Log> {
    if logs == [] then []
    else
      var log := logs[|logs| - 1];
      GetLogs(logs[..|logs| - 1], state, from, last)
        + (if log.state == state && from <= log.block <= last then [log] else [])
  }

  lemma {:induction false} GetLogsFacts(logs: seq<Log>, state: JobState, from: nat, last: nat)
    ensures forall f :: f in GetLogs(logs, state, from, last) <==>
        f in logs && f.state == state && from <= f.block <= last
  {
    if logs != [] {
      GetLogsFacts(logs[..|logs| - 1], state, from, last);
      assert logs == logs[..|logs| - 1] + [logs[|logs| - 1]];
    }
  }

  function Window(logs: seq<Log>, from: nat, last: nat): seq<Log> {
    GetLogs(logs, Submitted, from, last) + GetLogs(logs, Completed, from, last)
      + GetLogs(logs, Rejected, from, last) + GetLogs(logs, Expired, from, last)
  }

  lemma WindowFacts(logs: seq<Log>, from: nat, last: nat)
    ensures forall f :: f in Window(logs, from, last) <==> f in logs && Lifecycle(f.state) && from <= f.block <= last
  {
    GetLogsFacts(logs, Submitted, from, last);
    GetLogsFacts(logs, Completed, from, last);
    GetLogsFacts(logs, Rejected, from, last);
    GetLogsFacts(logs, Expired, from, last);
  }

  lemma LogOrder()
    ensures Sorting.Preorder(LogLeq)
  {
  }

  lemma LastOfSorted(events: seq<Log>)
    requires events != []
    ensures var sorted := Sorting.Sort(LogLeq, events);
      && |sorted| == |events| && sorted[|sorted| - 1] in events
      && forall f :: f in events ==> LogLeq(f, sorted[|sorted| - 1])
  {
    hide Sorting.Sort, LogLeq;
    var sorted := Sorting.Sort(LogLeq, events);
    LogOrder();
    Sorting.SortFacts(LogLeq, events);
    forall f | f in events ensures LogLeq(f, sorted[|sorted| - 1]) {
      assert f in sorted;
      var i :| 0 <= i < |sorted| && sorted[i] == f;
    }
  }

  datatype Range = Range(from: nat, last: nat)

  /** Windows listed from the newest block down: each starts right below the one before it. */
  ghost predicate Descending(windows: seq<Range>, head: nat) {
    && (forall k :: 0 <= k < |windows| ==> windows[k].from <= windows[k].last)
    && (windows != [] ==> windows[0].last == head)
    && (forall k :: 0 < k < |windows| ==> windows[k].last + 1 == windows[k - 1].from)
  }

  lemma NextWindow(windows: seq<Range>, head: nat, r: Range)
    requires Descending(windows, head) && r.from <= r.last
    requires if windows == [] then r.last == head else r.last + 1 == windows[|windows| - 1].from
    ensures Descending(windows + [r], head)
  {
  }

  /** Nothing lies in the blocks above `last`. */
  ghost predicate NothingAbove(logs: seq<Log>, head: nat, last: int) {
    forall f :: f in logs && Lifecycle(f.state) && f.block <= head ==> f.block <= last
  }

  lemma WindowEmpty(logs: seq<Log>, head: nat, from: nat, last: nat)
    requires NothingAbove(logs, head, last) && Window(logs, from, last) == []
    ensures NothingAbove(logs, head, from - 1)
    ensures from == 0 ==> NoneUpTo(logs, head)
  {
    WindowFacts(logs, from, last);
    forall f | f in logs && Lifecycle(f.state) && f.block <= head ensures f.block <= from - 1 {
      assert f !in Window(logs, from, last);
    }
  }

  lemma WindowHolds(logs: seq<Log>, head: nat, from: nat, last: nat)
    requires NothingAbove(logs, head, last) && last <= head && Window(logs, from, last) != []
    ensures var sorted := Sorting.Sort(LogLeq, Window(logs, from, last));
      && sorted != [] && IsLatest(logs, head, sorted[|sorted| - 1])
      && from <= sorted[|sorted| - 1].block <= last
  {
    WindowFacts(logs, from, last);
    LastOfSorted(Window(logs, from, last));
  }

  /**
   The windowed search finds the newest lifecycle event of the whole log, or nothing exactly when there is
   none. Its windows follow each other without gap or overlap from `head` down to where it stops, which is
   block 0 when it found nothing; it stops because `last` falls.
   */
  method GetLatestLifecycleEvent(logs: seq<Log>, head: nat) returns (found: Option<Log>, ghost windows: seq<Range>)
    ensures found.Some? ==> IsLatest(logs, head, found.value)
    ensures found.Some? ==> forall f :: f in logs && Lifecycle(f.state) && f.block <= head ==>
      f.block < found.value.block || (f.block == found.value.block && f.logIndex <= found.value.logIndex)
    ensures found.None? <==> NoneUpTo(logs, head)
    ensures windows != [] && Descending(windows, head)
    ensures forall k :: 0 <= k < |windows| ==> windows[k].last - windows[k].from <= 9_000
    ensures forall k :: 0 <= k < |windows| - 1 ==> windows[k].last - windows[k].from == 9_000
    ensures found.None? ==> windows[|windows| - 1].from == 0
    ensures found.Some? ==> windows[|windows| - 1].from <= found.value.block <= windows[|windows| - 1].last
  {
    hide Sorting.Sort, Window;
    var last: nat := head;
    windows := [];
    while true
      invariant last <= head
      invariant Descending(windows, head)
      invariant forall k :: 0 <= k < |windows| ==> windows[k].last - windows[k].from == 9_000
      invariant if windows == [] then last == head else last + 1 == windows[|windows| - 1].from
      invariant NothingAbove(logs, head, last)
      decreases last
    {
      var from: nat := if last > LOG_SCAN_BLOCK_RANGE then last - LOG_SCAN_BLOCK_RANGE else 0;
      var events := Window(logs, from, last);
      NextWindow(windows, head, Range(from, last));
      windows := windows + [Range(from, last)];
      if |events| > 0 {
        WindowHolds(logs, head, from, last);
        var sorted := Sorting.Sort(LogLeq, events);
        return Some(sorted[|sorted| - 1]), windows;
      }
      WindowEmpty(logs, head, from, last);
      if from == 0 {
        return None, windows;
      }
      last := from - 1;
    }
  }

  /** With distinct positions there is at most one newest event. */
  lemma LatestIsUnique(logs: seq<Log>, head: nat, a: Log, b: Log)
    requires DistinctPositions(logs) && IsLatest(logs, head, a) && IsLatest(logs, head, b)
    ensures a == b
  {
    var i :| 0 <= i < |logs| && logs[i] == a;
    var j :| 0 <= j < |logs| && logs[j] == b;
    assert LogLeq(a, b) && LogLeq(b, a);
    assert a.block == b.block && a.logIndex == b.logIndex;
  }

  // ---------- forward discovery from a checkpoint ----------

  function InitialFrom(latest: nat): nat {
    if latest > ARTIFACT_RECOVERY_MAX_BLOCK_SCAN then latest - ARTIFACT_RECOVERY_MAX_BLOCK_SCAN + 1 else 0
  }

  /** buildArtifactDiscoveryRange. */
  function DiscoveryRange(lastChecked: Option<nat>, latest: nat): Option<Range> {
    var from := if lastChecked.None? then InitialFrom(latest) else lastChecked.value + 1;
    if from > latest then None else Some(Range(from, latest))
  }

  datatype Progress = Progress(checkpoint: Option<nat>, scanned: seq<Range>)

  /** Successive recovery passes that find nothing; each leaves the head it saw as the new checkpoint. */
  function Passes(heads: seq<nat>): Progress {
    if heads == [] then Progress(None, [])
    else
      var before := Passes(heads[..|heads| - 1]);
      var head := heads[|heads| - 1];
      match DiscoveryRange(before.checkpoint, head)
      case None => Progress(Some(head), before.scanned)
      case Some(r) => Progress(Some(head), before.scanned + [r])
  }

  ghost predicate Scanned(ranges: seq<Range>, block: nat) {
    exists k :: 0 <= k < |ranges| && ranges[k].from <= block <= ranges[k].last
  }

  lemma ScannedMore(ranges: seq<Range>, r: Range, block: nat)
    requires Scanned(ranges, block) || r.from <= block <= r.last
    ensures Scanned(ranges + [r], block)
  {
    if Scanned(ranges, block) {
      var k :| 0 <= k < |ranges| && ranges[k].from <= block <= ranges[k].last;
      assert (ranges + [r])[k] == ranges[k];
    } else {
      assert (ranges + [r])[|ranges|] == r;
    }
  }

  /**
   Recovery never skips a block: whatever heads the passes see, even falling ones, every block from the
   start of the first window up to the checkpoint has been scanned.
   */
  lemma {:induction false} RecoveryCovers(heads: seq<nat>, block: nat)
    requires heads != []
    requires InitialFrom(heads[0]) <= block <= heads[|heads| - 1]
    ensures Passes(heads).checkpoint == Some(heads[|heads| - 1])
    ensures Scanned(Passes(heads).scanned, block)
  {
    var n := |heads| - 1;
    var before, head := Passes(heads[..n]), heads[n];
    if n > 0 {
      if block <= heads[n - 1] {
        RecoveryCovers(heads[..n], block);
      } else {
        assert before.checkpoint == Some(heads[n - 1]);
      }
    }
    var r := DiscoveryRange(before.checkpoint, head);
    if r.Some? {
      ScannedMore(before.scanned, r.value, block);
    }
  }

  /** The first pass looks at the last 2,000 blocks, or at all there are. */
  lemma FirstPassIs(latest: nat)
    ensures var r := DiscoveryRange(None, latest);
      && r.Some? && r.value.last == latest
      && r.value.last - r.value.from + 1 == if latest > 2_000 then 2_000 else latest + 1
  {
  }

  function TimesScanned(ranges: seq<Range>, block: nat): nat {
    if ranges == [] then 0
    else
      var r := ranges[|ranges| - 1];
      TimesScanned(ranges[..|ranges| - 1], block) + (if r.from <= block <= r.last then 1 else 0)
  }

  /** And as long as the head does not fall, no block is scanned twice, and none before the first window. */
  lemma {:induction false} RecoveryScansOnce(heads: seq<nat>, block: nat)
    requires heads != [] && forall i, j :: 0 <= i < j < |heads| ==> heads[i] <= heads[j]
    ensures TimesScanned(Passes(heads).scanned, block)
         == if InitialFrom(heads[0]) <= block <= heads[|heads| - 1] then 1 else 0
  {
    var n := |heads| - 1;
    var before, head := Passes(heads[..n]), heads[n];
    if n > 0 {
      RecoveryScansOnce(heads[..n], block);
      assert heads[n - 1] <= head;
      RecoveryCovers(heads[..n], heads[n - 1]);
    } else {
      assert heads[..0] == [];
    }
    var r := DiscoveryRange(before.checkpoint, head);
    if r.Some? {
      assert (before.scanned + [r.value])[..|before.scanned|] == before.scanned;
    }
  }
}
