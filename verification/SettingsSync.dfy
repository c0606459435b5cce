/** Settings snapshots: an unbounded revision log, and the two stores that keep its newest entries. */
module SettingsSync {
  import opened Wrappers

  const MAX_HISTORY := 20

  datatype Snapshot = Snapshot(revision: int, updatedAt: int, installationID: string, appVersion: string,
                               contentHash: string, payload: string)

  datatype Upload = Upload(installationID: string, baseRevision: int, force: bool, appVersion: string,
                           contentHash: string, payload: string, now: int)

  datatype Error = Conflict(current: Option<Snapshot>) | RevisionNotFound | InvalidPayload

  type Outcome = Result<Snapshot, Error>

  // ---------------------------------------------------------------- the log

  /** Everything ever accepted for a user, oldest first. */
  type Log = seq<Snapshot>

  function Newest(log: Log): Option<Snapshot> {
    if log == [] then None else Some(log[|log| - 1])
  }

  function RevisionOf(current: Option<Snapshot>): int {
    if current.Some? then current.value.revision else 0
  }

  function NextSnapshot(current: Option<Snapshot>, upload: Upload): Snapshot {
    Snapshot(RevisionOf(current) + 1, upload.now, upload.installationID, upload.appVersion, upload.contentHash,
             upload.payload)
  }

  predicate Refused(current: Option<Snapshot>, upload: Upload) {
    !upload.force && upload.baseRevision != RevisionOf(current)
  }

  predicate SameContent(current: Option<Snapshot>, contentHash: string) {
    current.Some? && current.value.contentHash == contentHash
  }

  /** Optimistic concurrency: a stale base revision is refused, known content is not stored again. */
  function LogPut(log: Log, upload: Upload): (Log, Outcome) {
    var current := Newest(log);
    if Refused(current, upload) then (log, Err(Conflict(current)))
    else if SameContent(current, upload.contentHash) then (log, Ok(current.value))
    else (log + [NextSnapshot(current, upload)], Ok(NextSnapshot(current, upload)))
  }

  /** Revisions count from one without gaps. */
  predicate Contiguous(log: Log) {
    forall i | 0 <= i < |log| :: log[i].revision == i + 1
  }

  /** The newest entries, at most twenty-one of them, newest first. */
  function Window(log: Log): (window: seq<Snapshot>)
    ensures |window| == if |log| <= MAX_HISTORY then |log| else MAX_HISTORY + 1
    ensures forall i | 0 <= i < |window| :: window[i] == log[|log| - 1 - i]
  {
    seq(if |log| <= MAX_HISTORY then |log| else MAX_HISTORY + 1, i requires 0 <= i < |log| => log[|log| - 1 - i])
  }

  // ---------------------------------------------------------------- the memory store

  datatype UserState = UserState(current: Option<Snapshot>, history: seq<Snapshot>)

  const NO_STATE := UserState(None, [])

  /** What the memory store holds when the log is `log`. */
  function MemoryOf(log: Log): UserState {
    if log == [] then NO_STATE else UserState(Newest(log), Window(log)[1..])
  }

  function Shorten(history: seq<Snapshot>): seq<Snapshot> {
    if |history| > MAX_HISTORY then history[..MAX_HISTORY] else history
  }

  function MemoryPut(state: UserState, upload: Upload): (UserState, Outcome) {
    if Refused(state.current, upload) then (state, Err(Conflict(state.current)))
    else if SameContent(state.current, upload.contentHash) then (state, Ok(state.current.value))
    else
      var next := NextSnapshot(state.current, upload);
      (UserState(Some(next), if state.current.Some? then Shorten([state.current.value] + state.history)
                             else state.history), Ok(next))
  }

  function Find(snapshots: seq<Snapshot>, revision: int): (found: Option<Snapshot>)
    ensures found.None? <==> forall s | s in snapshots :: s.revision != revision
    ensures found.Some? ==> found.value in snapshots && found.value.revision == revision
  {
    if snapshots == [] then None
    else if snapshots[0].revision == revision then Some(snapshots[0])
    else
      assert forall s :: s in snapshots <==> s == snapshots[0] || s in snapshots[1..];
      Find(snapshots[1..], revision)
  }

  function AllSnapshots(state: UserState): seq<Snapshot> {
    (if state.current.Some? then [state.current.value] else []) + state.history
  }

  function RestoredUpload(source: Snapshot, installationID: string, currentRevision: int, now: int): Upload {
    Upload(installationID, currentRevision, true, source.appVersion, source.contentHash, source.payload, now)
  }

  function MemoryRestore(state: UserState, installationID: string, revision: int, now: int): (UserState, Outcome) {
    var source := Find(AllSnapshots(state), revision);
    if source.None? then (state, Err(RevisionNotFound))
    else MemoryPut(state, RestoredUpload(source.value, installationID, RevisionOf(state.current), now))
  }

  class SettingsSyncStore {
    var users: map<string, UserState>

    constructor ()
      ensures users == map[]
    {
      users := map[];
    }

    ghost function StateOf(userID: string): UserState
      reads this
    {
      if userID in users then users[userID] else NO_STATE
    }

    method Put(userID: string, upload: Upload) returns (outcome: Outcome)
      modifies this
      ensures (StateOf(userID), outcome) == MemoryPut(old(StateOf(userID)), upload)
      ensures users - {userID} == old(users) - {userID}
    {
      var state := if userID in users then users[userID] else NO_STATE;
      var currentRevision := 0;
      if state.current.Some? {
        currentRevision := state.current.value.revision;
      }
      if !upload.force && upload.baseRevision != currentRevision {
        return Err(Conflict(state.current));
      }
      if state.current.Some? && state.current.value.contentHash == upload.contentHash {
        return Ok(state.current.value);
      }
      var next := Snapshot(currentRevision + 1, upload.now, upload.installationID, upload.appVersion,
                           upload.contentHash, upload.payload);
      if state.current.Some? {
        state := state.(history := [state.current.value] + state.history);
        if |state.history| > MAX_HISTORY {
          state := state.(history := state.history[..MAX_HISTORY]);
        }
      }
      state := state.(current := Some(next));
      users := users[userID := state];
      outcome := Ok(next);
    }

    method Restore(userID: string, installationID: string, revision: int, now: int) returns (outcome: Outcome)
      modifies this
      ensures (StateOf(userID), outcome) == MemoryRestore(old(StateOf(userID)), installationID, revision, now)
      ensures users - {userID} == old(users) - {userID}
    {
      if userID !in users {
        return Err(RevisionNotFound);
      }
      var state := users[userID];
      var source: Option<Snapshot> := None;
      if state.current.Some? && state.current.value.revision == revision {
        source := state.current;
      } else {
        source := Search(state.history, revision);
      }
      assert source == Find(AllSnapshots(state), revision) by {
        assert state.current.Some? ==> AllSnapshots(state)[1..] == state.history;
        assert state.current.None? ==> AllSnapshots(state) == state.history;
      }
      if source.None? {
        return Err(RevisionNotFound);
      }
      var currentRevision := if state.current.Some? then state.current.value.revision else 0;
      outcome := Put(userID, RestoredUpload(source.value, installationID, currentRevision, now));
    }

    method History(userID: string) returns (result: seq<Snapshot>)
      ensures result == SortDescending(AllSnapshots(StateOf(userID)))
    {
      var state := if userID in users then users[userID] else NO_STATE;
      result := [];
      if state.current.Some? {
        result := [state.current.value];
      }
      ghost var start := result;
      for i := 0 to |state.history|
        invariant result == start + state.history[..i]
      {
        result := result + [state.history[i]];
      }
      assert state.history[..|state.history|] == state.history;
      result := SortDescending(result);
    }
  }

  method Search(history: seq<Snapshot>, revision: int) returns (source: Option<Snapshot>)
    ensures source == Find(history, revision)
  {
    source := None;
    for i := 0 to |history|
      invariant Find(history, revision) == Find(history[i..], revision)
    {
      if history[i].revision == revision {
        return Some(history[i]);
      }
    }
  }

  /** `sort.Slice` by falling revision. */
  function SortDescending(snapshots: seq<Snapshot>): seq<Snapshot> {
    if snapshots == [] then [] else InsertDescending(snapshots[0], SortDescending(snapshots[1..]))
  }

  function InsertDescending(s: Snapshot, sorted: seq<Snapshot>): seq<Snapshot> {
    if sorted == [] || s.revision >= sorted[0].revision then [s] + sorted
    else [sorted[0]] + InsertDescending(s, sorted[1..])
  }

  // ---------------------------------------------------------------- the Postgres table

  /** The rows of one user, by revision. */
  type Table = map<int, Snapshot>

  predicate IsTop(rows: set<int>, top: int) {
    top in rows && forall other | other in rows :: other <= top
  }

  /** `ORDER BY revision DESC LIMIT 1`. */
  ghost function NewestRow(table: Table): Option<Snapshot> {
    if top :| IsTop(table.Keys, top) then Some(table[top]) else None
  }

  function RowsAbove(table: Table, revision: int): set<int> {
    set other | other in table && other > revision
  }

  /** The trim statement: every row with at least twenty-one newer ones goes. */
  function Trim(table: Table): Table {
    map revision | revision in table && |RowsAbove(table, revision)| < MAX_HISTORY + 1 :: table[revision]
  }

  ghost function TablePut(table: Table, upload: Upload, isJson: string -> bool): (Table, Outcome) {
    var current := NewestRow(table);
    if Refused(current, upload) then (table, Err(Conflict(current)))
    else if SameContent(current, upload.contentHash) then (table, Ok(current.value))
    else if !isJson(upload.payload) then (table, Err(InvalidPayload))
    else
      var next := NextSnapshot(current, upload);
      (Trim(table[next.revision := next]), Ok(next))
  }

  ghost function TableRestore(table: Table, installationID: string, revision: int, now: int): (Table, Outcome) {
    if revision !in table then (table, Err(RevisionNotFound))
    else
      var current := NewestRow(table);
      var next := NextSnapshot(current, RestoredUpload(table[revision], installationID, RevisionOf(current), now));
      (Trim(table[next.revision := next]), Ok(next))
  }

  /** The revisions above `lo` up to `hi`. */
  function Revisions(lo: int, hi: int): (s: set<int>)
    requires lo <= hi
    ensures forall r :: r in s <==> lo < r <= hi
    ensures |s| == hi - lo
    decreases hi - lo
  {
    if lo == hi then {} else {hi} + Revisions(lo, hi - 1)
  }

  /** What the table holds when the log is `log`. */
  function TableOf(log: Log): Table {
    var kept := Revisions(|log| - |Window(log)|, |log|);
    map r | r in kept :: log[r - 1]
  }

  // ---------------------------------------------------------------- both stores keep the newest entries

  lemma MemoryPutFollowsLog(log: Log, upload: Upload)
    ensures MemoryPut(MemoryOf(log), upload) == (MemoryOf(LogPut(log, upload).0), LogPut(log, upload).1)
  {
    var next := LogPut(log, upload).0;
    if next != log && log != [] {
      assert [log[|log| - 1]] + Window(log)[1..] == Window(log);
      assert Shorten(Window(log)) == Window(next)[1..];
    }
  }

  lemma MemoryHoldsWindow(log: Log)
    ensures AllSnapshots(MemoryOf(log)) == Window(log)
  {
  }

  lemma TableRows(log: Log)
    ensures forall r :: r in TableOf(log) <==> |log| - |Window(log)| < r <= |log|
    ensures forall r | r in TableOf(log) :: TableOf(log)[r] == log[r - 1]
  {
  }

  lemma NewestRowOfLog(log: Log)
    requires Contiguous(log)
    ensures NewestRow(TableOf(log)) == Newest(log)
  {
    hide TableOf;
    TableRows(log);
    var rows := TableOf(log).Keys;
    if log != [] {
      assert IsTop(rows, |log|);
    }
  }

  lemma CountAbove(table: Table, start: int, top: int, revision: int)
    requires forall r :: r in table <==> start < r <= top
    requires revision in table
    ensures |RowsAbove(table, revision)| == top - revision
  {
    assert RowsAbove(table, revision) == Revisions(revision, top);
  }

  /** Inserting the next revision and trimming leaves the window of the longer log. */
  lemma InsertAndTrim(log: Log, next: Snapshot)
    requires next.revision == |log| + 1
    ensures Trim(TableOf(log)[next.revision := next]) == TableOf(log + [next])
  {
    hide TableOf;
    var longer, table := log + [next], TableOf(log)[next.revision := next];
    var start := |log| - |Window(log)|;
    TableRows(log);
    TableRows(longer);
    forall r | r in table ensures |RowsAbove(table, r)| == |longer| - r {
      CountAbove(table, start, |longer|, r);
    }
  }

  /** The put gets as far as storing its payload. */
  predicate Stores(log: Log, upload: Upload) {
    !Refused(Newest(log), upload) && !SameContent(Newest(log), upload.contentHash)
  }

  /** The table follows the log on a put exactly if what it has to store is JSON, which the memory store does not ask
      for. */
  lemma TablePutFollowsLogIff(log: Log, upload: Upload, isJson: string -> bool)
    requires Contiguous(log)
    ensures TablePut(TableOf(log), upload, isJson) == (TableOf(LogPut(log, upload).0), LogPut(log, upload).1)
      <==> (Stores(log, upload) ==> isJson(upload.payload))
  {
    NewestRowOfLog(log);
    var next := NextSnapshot(Newest(log), upload);
    InsertAndTrim(log, next);
  }

  // ---------------------------------------------------------------- restoring

  function LogRestore(log: Log, installationID: string, revision: int, now: int): (Log, Outcome) {
    var source := Find(Window(log), revision);
    if source.None? then (log, Err(RevisionNotFound))
    else LogPut(log, RestoredUpload(source.value, installationID, RevisionOf(Newest(log)), now))
  }

  lemma MemoryRestoreFollowsLog(log: Log, installationID: string, revision: int, now: int)
    ensures MemoryRestore(MemoryOf(log), installationID, revision, now)
      == (MemoryOf(LogRestore(log, installationID, revision, now).0), LogRestore(log, installationID, revision, now).1)
  {
    MemoryHoldsWindow(log);
    var source := Find(Window(log), revision);
    if source.Some? {
      MemoryPutFollowsLog(log, RestoredUpload(source.value, installationID, RevisionOf(Newest(log)), now));
    }
  }

  lemma FindInWindow(log: Log, revision: int)
    requires Contiguous(log)
    ensures Find(Window(log), revision) == if revision in TableOf(log) then Some(TableOf(log)[revision]) else None
  {
    hide Find;
    var window := Window(log);
    var found := Find(window, revision);
    if found.Some? {
      var i :| 0 <= i < |window| && window[i] == found.value;
      assert window[i].revision == |log| - i;
    }
    if revision in TableOf(log) {
      assert window[|log| - revision] in window;
    }
  }

  /** The source of a restore has the content that is current already. */
  predicate RestoresCurrentContent(log: Log, revision: int) {
    var source := Find(Window(log), revision);
    source.Some? && SameContent(Newest(log), source.value.contentHash)
  }

  /** The two stores agree on a restore exactly when it does not bring back the current content:
      then the memory store does nothing, while the table gets a new revision. */
  lemma RestoreAgreesIff(log: Log, installationID: string, revision: int, now: int)
    requires Contiguous(log)
    ensures TableRestore(TableOf(log), installationID, revision, now)
        == (TableOf(LogRestore(log, installationID, revision, now).0), LogRestore(log, installationID, revision, now).1)
      <==> !RestoresCurrentContent(log, revision)
  {
    NewestRowOfLog(log);
    FindInWindow(log, revision);
    if revision in TableOf(log) {
      var next := NextSnapshot(Newest(log),
                               RestoredUpload(TableOf(log)[revision], installationID, RevisionOf(Newest(log)), now));
      InsertAndTrim(log, next);
      assert next.revision in TableOf(log + [next]) && next.revision !in TableOf(log);
    }
  }

  lemma {:induction false} SortedStays(snapshots: seq<Snapshot>)
    requires forall i, j | 0 <= i < j < |snapshots| :: snapshots[i].revision >= snapshots[j].revision
    ensures SortDescending(snapshots) == snapshots
  {
    if snapshots != [] {
      SortedStays(snapshots[1..]);
    }
  }

  /** The history shown to a user is the window: gapless, newest first. */
  lemma HistoryIsWindow(log: Log)
    requires Contiguous(log)
    ensures SortDescending(AllSnapshots(MemoryOf(log))) == Window(log)
    ensures forall i | 0 <= i < |Window(log)| :: Window(log)[i].revision == |log| - i
  {
    MemoryHoldsWindow(log);
    SortedStays(Window(log));
  }

  // ---------------------------------------------------------------- whole runs

  datatype Operation = Put(upload: Upload) | Restore(installationID: string, revision: int, now: int)

  function LogStep(log: Log, operation: Operation): (Log, Outcome) {
    match operation
    case Put(upload) => LogPut(log, upload)
    case Restore(installationID, revision, now) => LogRestore(log, installationID, revision, now)
  }

  function MemoryStep(state: UserState, operation: Operation): (UserState, Outcome) {
    match operation
    case Put(upload) => MemoryPut(state, upload)
    case Restore(installationID, revision, now) => MemoryRestore(state, installationID, revision, now)
  }

  ghost function TableStep(table: Table, operation: Operation, isJson: string -> bool): (Table, Outcome) {
    match operation
    case Put(upload) => TablePut(table, upload, isJson)
    case Restore(installationID, revision, now) => TableRestore(table, installationID, revision, now)
  }

  function LogAfter(operations: seq<Operation>): Log {
    if operations == [] then [] else LogStep(LogAfter(operations[..|operations| - 1]), operations[|operations| - 1]).0
  }

  function MemoryAfter(operations: seq<Operation>): UserState {
    if operations == [] then NO_STATE
    else MemoryStep(MemoryAfter(operations[..|operations| - 1]), operations[|operations| - 1]).0
  }

  ghost function TableAfter(operations: seq<Operation>, isJson: string -> bool): Table {
    if operations == [] then map[]
    else TableStep(TableAfter(operations[..|operations| - 1], isJson), operations[|operations| - 1], isJson).0
  }

  lemma {:induction false} LogAfterIsContiguous(operations: seq<Operation>)
    ensures Contiguous(LogAfter(operations))
  {
    if operations != [] {
      LogAfterIsContiguous(operations[..|operations| - 1]);
    }
  }

  /** After any operations the memory store holds the newest entries of the log, and answers as the log does. */
  lemma {:induction false} MemoryIsWindowOfLog(operations: seq<Operation>)
    ensures MemoryAfter(operations) == MemoryOf(LogAfter(operations))
    ensures operations != [] ==>
      var before, last := operations[..|operations| - 1], operations[|operations| - 1];
      MemoryStep(MemoryAfter(before), last).1 == LogStep(LogAfter(before), last).1
  {
    if operations != [] {
      var before, last := operations[..|operations| - 1], operations[|operations| - 1];
      MemoryIsWindowOfLog(before);
      match last {
        case Put(upload) => MemoryPutFollowsLog(LogAfter(before), upload);
        case Restore(installationID, revision, now) =>
          MemoryRestoreFollowsLog(LogAfter(before), installationID, revision, now);
      }
    }
  }

  /** The table follows the log on an operation unless it restores what is current, or stores something other than
      JSON. */
  predicate Comparable(log: Log, operation: Operation, isJson: string -> bool) {
    match operation
    case Put(upload) => Stores(log, upload) ==> isJson(upload.payload)
    case Restore(_, revision, _) => !RestoresCurrentContent(log, revision)
  }

  lemma StepsAgree(log: Log, operation: Operation, isJson: string -> bool)
    requires Contiguous(log) && Comparable(log, operation, isJson)
    ensures TableStep(TableOf(log), operation, isJson) == (TableOf(LogStep(log, operation).0),
                                                           LogStep(log, operation).1)
  {
    hide TablePut, TableRestore, LogPut, LogRestore, TableOf;
    match operation {
      case Put(upload) => TablePutFollowsLogIff(log, upload, isJson);
      case Restore(installationID, revision, now) => RestoreAgreesIff(log, installationID, revision, now);
    }
  }

  predicate StoresComparable(operations: seq<Operation>, isJson: string -> bool) {
    forall n | 0 <= n < |operations| :: Comparable(LogAfter(operations[..n]), operations[n], isJson)
  }

  lemma {:induction false} TableIsWindowOfLog(operations: seq<Operation>, isJson: string -> bool)
    requires StoresComparable(operations, isJson)
    ensures TableAfter(operations, isJson) == TableOf(LogAfter(operations))
    ensures operations != [] ==>
      var before, last := operations[..|operations| - 1], operations[|operations| - 1];
      TableStep(TableAfter(before, isJson), last, isJson).1 == MemoryStep(MemoryAfter(before), last).1
  {
    hide TableStep, LogStep, MemoryStep, MemoryAfter, Contiguous, Comparable;
    if operations == [] {
      assert TableOf([]) == map[];
    } else {
      var n := |operations| - 1;
      var before, last := operations[..n], operations[n];
      forall m | 0 <= m < n ensures before[..m] == operations[..m] {
      }
      TableIsWindowOfLog(before, isJson);
      LogAfterIsContiguous(before);
      MemoryIsWindowOfLog(operations);
      StepsAgree(LogAfter(before), last, isJson);
    }
  }

  /** A put that was not forced and did create the next revision. */
  predicate Creates(operations: seq<Operation>, n: nat, baseRevision: int)
    requires n < |operations|
  {
    && operations[n].Put? && !operations[n].upload.force && operations[n].upload.baseRevision == baseRevision
    && |LogAfter(operations[..n + 1])| > |LogAfter(operations[..n])|
  }

  lemma StepGrows(log: Log, operation: Operation)
    ensures |log| <= |LogStep(log, operation).0|
  {
    hide Find, Window, Newest, Refused, SameContent, NextSnapshot, RestoredUpload;
  }

  lemma {:induction false} LogGrows(operations: seq<Operation>, m: nat, n: nat)
    requires m <= n <= |operations|
    ensures |LogAfter(operations[..m])| <= |LogAfter(operations[..n])|
    decreases n
  {
    hide LogStep;
    if m < n {
      LogGrows(operations, m, n - 1);
      assert operations[..n][..n - 1] == operations[..n - 1];
      StepGrows(LogAfter(operations[..n - 1]), operations[n - 1]);
    }
  }

  /** Who creates the next revision has named the current one. */
  lemma WinnerKnowsCurrent(operations: seq<Operation>, n: nat, baseRevision: int)
    requires n < |operations| && Creates(operations, n, baseRevision)
    ensures |LogAfter(operations[..n])| == baseRevision
  {
    LogAfterIsContiguous(operations[..n]);
    assert operations[..n + 1][..n] == operations[..n];
  }

  /** At most one put per base revision creates the next revision. */
  lemma OneWinnerPerBase(operations: seq<Operation>, m: nat, n: nat, baseRevision: int)
    requires m < n < |operations|
    requires Creates(operations, m, baseRevision)
    ensures !Creates(operations, n, baseRevision)
  {
    hide LogAfter;
    WinnerKnowsCurrent(operations, m, baseRevision);
    LogGrows(operations, m + 1, n);
    if Creates(operations, n, baseRevision) {
      WinnerKnowsCurrent(operations, n, baseRevision);
    }
  }

  // ---------------------------------------------------------------- where the stores part

  const FIRST := Upload("i", 0, false, "1", "h", "{}", 1)
  const BROKEN := FIRST.(payload := "{")
  const STORED := Snapshot(1, 1, "i", "1", "h", "{}")

  lemma FirstStored(upload: Upload)
    requires upload.baseRevision == 0
    ensures LogAfter([Put(upload)]) == [NextSnapshot(None, upload)]
    ensures LogPut([], upload) == ([NextSnapshot(None, upload)], Ok(NextSnapshot(None, upload)))
  {
    assert [Put(upload)][..0] == [];
    assert [] + [NextSnapshot(None, upload)] == [NextSnapshot(None, upload)];
  }

  lemma BothStored(isJson: string -> bool)
    requires isJson("{}")
    ensures LogAfter([Put(FIRST)]) == [STORED] && TableAfter([Put(FIRST)], isJson) == TableOf([STORED])
  {
    FirstStored(FIRST);
    assert [Put(FIRST)][..0] == [];
    hide TableAfter, TableOf;
    TableIsWindowOfLog([Put(FIRST)], isJson);
  }

  /** First settings, then restored: the memory store answers with revision one, the table with revision two. */
  lemma RestoredAsNew(isJson: string -> bool)
    requires isJson("{}")
    ensures MemoryStep(MemoryAfter([Put(FIRST)]), Restore("i", 1, 2)).1 == Ok(STORED)
    ensures TableStep(TableAfter([Put(FIRST)], isJson), Restore("i", 1, 2), isJson).1
      == Ok(STORED.(revision := 2, updatedAt := 2))
  {
    BothStored(isJson);
    MemoryIsWindowOfLog([Put(FIRST)]);
    MemoryRestoreFollowsLog([STORED], "i", 1, 2);
    NewestRowOfLog([STORED]);
    FindInWindow([STORED], 1);
    hide LogAfter, MemoryAfter, TableAfter, MemoryRestore, MemoryOf;
  }

  /** First settings that are not JSON: the memory store keeps them, the table refuses them. */
  lemma NotJsonIsKept(isJson: string -> bool)
    requires !isJson("{")
    ensures MemoryStep(MemoryAfter([]), Put(BROKEN)).1 == Ok(STORED.(payload := "{"))
    ensures TableStep(TableAfter([], isJson), Put(BROKEN), isJson) == (map[], Err(InvalidPayload))
  {
    FirstStored(BROKEN);
    MemoryIsWindowOfLog([]);
    MemoryPutFollowsLog([], BROKEN);
    assert TableOf([]) == map[];
    NewestRowOfLog([]);
  }
}
