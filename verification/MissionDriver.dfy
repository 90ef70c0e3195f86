/**
 The mission driver: the task table, bounded retries, restart reconciliation, and the
 loop that evaluates the mission again after every task and runs the first ready one.
 */
module MissionDriver {
  import opened Prelude
  import MissionSpec

  datatype Status = Pending | Running | Completed | Failed | Blocked | Cancelled | Interrupted

  /** A row of the task table, in rowid order; `verified` says that it has verification commands. */
  datatype Row = Row(
    id: string, dependsOn: seq<string>, status: Status,
    attemptCount: nat, maxAttempts: int, verified: bool)

  datatype SchedulerState = Runnable | InProgress | Complete | Stuck

  /** Exit codes of executor and verifier for a task id and an attempt number. */
  type World = (string, nat) -> (int, int)

  // ---------------------------------------------------------------- readiness

  predicate IsCompleted(rows: seq<Row>, id: string) {
    exists i :: 0 <= i < |rows| && rows[i].id == id && rows[i].status == Completed
  }

  predicate DepsCompleted(rows: seq<Row>, row: Row) {
    forall d <- row.dependsOn :: IsCompleted(rows, d)
  }

  predicate Startable(s: Status) {
    s == Pending || s == Interrupted
  }

  /** `is_task_ready`. */
  predicate Ready(rows: seq<Row>, i: nat)
    requires i < |rows|
  {
    Startable(rows[i].status) && DepsCompleted(rows, rows[i])
  }

  function Ids(rows: seq<Row>): (r: seq<string>)
    ensures |r| == |rows| && forall i :: 0 <= i < |r| ==> r[i] == rows[i].id
  {
    seq(|rows|, i requires 0 <= i < |rows| => rows[i].id)
  }

  function Specs(rows: seq<Row>): (r: seq<MissionSpec.Task>)
    ensures |r| == |rows| && forall i :: 0 <= i < |r| ==> r[i] == MissionSpec.Task(rows[i].id, rows[i].dependsOn)
  {
    seq(|rows|, i requires 0 <= i < |rows| => MissionSpec.Task(rows[i].id, rows[i].dependsOn))
  }

  /** The table read back differs from the saved one in nothing but statuses and attempt counts. */
  ghost predicate SameTasks(a: seq<Row>, b: seq<Row>) {
    |a| == |b| && forall i :: 0 <= i < |a| ==>
      a[i].(status := Pending, attemptCount := 0) == b[i].(status := Pending, attemptCount := 0)
  }

  // ---------------------------------------------------------------- attempts

  predicate Succeeds(world: World, row: Row, attempt: nat) {
    world(row.id, attempt).0 == 0 && (row.verified ==> world(row.id, attempt).1 == 0)
  }

  /** The last attempt number a call may reach: one more launch even when the count is used up. */
  function Limit(row: Row): nat {
    if row.maxAttempts <= 0 then row.attemptCount
    else if row.attemptCount < row.maxAttempts then row.maxAttempts
    else row.attemptCount + 1
  }

  /** Some allowed attempt succeeds. */
  predicate Works(world: World, row: Row) {
    exists a :: row.attemptCount < a <= Limit(row) && Succeeds(world, row, a)
  }

  /** The status that one turn of the driver's loop leaves. */
  function Ended(world: World, row: Row): Status {
    if Works(world, row) then Completed else Blocked
  }

  /** A failing attempt leaves one record, one that reached a verifier leaves two. */
  function RecordsOf(world: World, row: Row, attempt: nat): nat {
    if world(row.id, attempt).0 == 0 && row.verified then 2 else 1
  }

  function RecordsUpTo(world: World, row: Row, from: nat, to: nat): nat
    requires from <= to
  {
    if from == to then 0 else RecordsUpTo(world, row, from, to - 1) + RecordsOf(world, row, to)
  }

  function LaunchesUpTo(id: string, from: nat, to: nat): (r: seq<(string, nat)>)
    requires from <= to
    ensures |r| == to - from
    ensures forall k :: 0 <= k < |r| ==> r[k] == (id, from + 1 + k)
  {
    seq(to - from, k requires 0 <= k < to - from => (id, from + 1 + k))
  }

  /** Every attempt up to `last` failed, and `exitCode` is what the last one left. */
  ghost predicate AllFailed(world: World, row: Row, last: nat, exitCode: int) {
    && row.attemptCount <= last <= Limit(row)
    && (forall a :: row.attemptCount < a <= last ==> !Succeeds(world, row, a))
    && (if last == row.attemptCount then exitCode == 1
        else exitCode != 0 && exitCode in {world(row.id, last).0, world(row.id, last).1})
  }

  lemma NothingYet(world: World, row: Row)
    ensures LaunchesUpTo(row.id, row.attemptCount, row.attemptCount) == []
    ensures RecordsUpTo(world, row, row.attemptCount, row.attemptCount) == 0
  {
  }

  lemma OneMore(world: World, row: Row, last: nat)
    requires row.attemptCount <= last
    ensures LaunchesUpTo(row.id, row.attemptCount, last + 1)
      == LaunchesUpTo(row.id, row.attemptCount, last) + [(row.id, last + 1)]
    ensures RecordsUpTo(world, row, row.attemptCount, last + 1)
      == RecordsUpTo(world, row, row.attemptCount, last) + RecordsOf(world, row, last + 1)
  {
  }

  lemma WorksAt(world: World, row: Row, a: nat)
    requires row.attemptCount < a <= Limit(row) && Succeeds(world, row, a)
    ensures Works(world, row)
  {
  }

  lemma NeverWorks(world: World, row: Row, exitCode: int)
    requires AllFailed(world, row, Limit(row), exitCode)
    ensures !Works(world, row)
  {
  }

  // ---------------------------------------------------------------- reconciliation

  /** What a restart makes of a row that a dead process left RUNNING. */
  function Reconciled(row: Row, records: nat): Row {
    if row.status != Running then row
    else if records < row.maxAttempts then row.(status := Interrupted)
    else row.(status := Failed)
  }

  /** Two verified attempts out of three allowed already count as exhausted. */
  lemma ReconcileGivesUpEarly()
    ensures
      var row := Row("build", [], Running, 2, 3, true);
      var world := (id: string, attempt: nat) => (0, 1);
      Reconciled(row, RecordsUpTo(world, row, 0, 2)).status == Failed && row.attemptCount < row.maxAttempts
  {
    var row := Row("build", [], Running, 2, 3, true);
    var world := (id: string, attempt: nat) => (0, 1);
    assert RecordsUpTo(world, row, 0, 0) == 0;
    assert RecordsUpTo(world, row, 0, 1) == 2;
    assert RecordsUpTo(world, row, 0, 2) == 4;
  }

  // ---------------------------------------------------------------- the whole run, declaratively

  /**
   `final` settles `start`: a startable task whose dependencies all completed was run and
   shows its outcome; every other task kept its status.
   */
  ghost predicate Settled(world: World, start: seq<Row>, final: seq<Row>) {
    && SameTasks(start, final)
    && forall i :: 0 <= i < |start| ==> SettledAt(world, start, final, i)
  }

  ghost predicate SettledAt(world: World, start: seq<Row>, final: seq<Row>, i: nat)
    requires i < |start| == |final|
  {
    final[i].status ==
      if Startable(start[i].status) && DepsCompleted(final, start[i])
      then Ended(world, start[i])
      else start[i].status
  }

  /** The statuses a single left-to-right pass over the first n tasks gives. */
  ghost function Pass(world: World, start: seq<Row>, n: nat): (r: seq<Status>)
    requires n <= |start|
    ensures |r| == n
  {
    if n == 0 then []
    else
      var before := Pass(world, start, n - 1);
      var row := start[n - 1];
      var ready := Startable(row.status) && forall d <- row.dependsOn :: DoneEarlier(start, before, d);
      before + [if !ready then row.status else Ended(world, row)]
  }

  ghost predicate DoneEarlier(start: seq<Row>, before: seq<Status>, id: string)
    requires |before| <= |start|
  {
    exists j :: 0 <= j < |before| && start[j].id == id && before[j] == Completed
  }

  /** On tasks in dependency order a settled table is the one the left-to-right pass gives. */
  lemma {:induction false} SettledIsPass(world: World, start: seq<Row>, final: seq<Row>, n: nat)
    requires Settled(world, start, final) && MissionSpec.Ordered(Specs(start)) && n <= |start|
    ensures forall i :: 0 <= i < n ==> final[i].status == Pass(world, start, n)[i]
  {
    hide *;
    if n > 0 {
      SettledIsPass(world, start, final, n - 1);
      PassStep(world, start, final, n - 1);
    }
  }

  lemma PassStep(world: World, start: seq<Row>, final: seq<Row>, n: nat)
    requires Settled(world, start, final) && MissionSpec.Ordered(Specs(start)) && n < |start|
    requires forall i :: 0 <= i < n ==> final[i].status == Pass(world, start, n)[i]
    ensures final[n].status == Pass(world, start, n + 1)[n]
    ensures Pass(world, start, n + 1)[..n] == Pass(world, start, n)
  {
    hide Specs, IsCompleted, DoneEarlier, Works;
    var before := Pass(world, start, n);
    forall d <- start[n].dependsOn ensures IsCompleted(final, d) <==> DoneEarlier(start, before, d) {
      DependencyBefore(start, final, before, d);
    }
    assert SettledAt(world, start, final, n);
  }

  /** A dependency of an ordered task is one particular earlier row. */
  lemma DependencyBefore(start: seq<Row>, final: seq<Row>, before: seq<Status>, d: string)
    requires SameTasks(start, final) && MissionSpec.Ordered(Specs(start))
    requires |before| < |start| && d in start[|before|].dependsOn
    requires forall i :: 0 <= i < |before| ==> final[i].status == before[i]
    ensures IsCompleted(final, d) <==> DoneEarlier(start, before, d)
  {
    hide MissionSpec.Ordered;
    var specs, i := Specs(start), |before|;
    MissionSpec.EarlierIndex(specs, i, d);
    var k := IndexOf(MissionSpec.Ids(specs), d);
    assert start[k].id == d && final[k].id == d && k < i;
    UniqueRow(start, final, d, k);
  }

  lemma UniqueRow(start: seq<Row>, final: seq<Row>, d: string, k: nat)
    requires SameTasks(start, final) && MissionSpec.Ordered(Specs(start)) && k < |start| && start[k].id == d
    ensures forall j :: 0 <= j < |start| && start[j].id == d ==> j == k
    ensures forall j :: 0 <= j < |final| && final[j].id == d ==> j == k
  {
    var ids := MissionSpec.Ids(Specs(start));
    assert forall j :: 0 <= j < |start| ==> ids[j] == start[j].id && final[j].id == start[j].id;
  }

  // ---------------------------------------------------------------- the loop's progress

  /** After running the tasks listed in `order`: those show their outcome, the rest is untouched. */
  ghost predicate Progress(world: World, start: seq<Row>, now: seq<Row>, order: seq<nat>) {
    && |now| == |start|
    && (forall i <- order :: i < |start|)
    && (forall i :: 0 <= i < |start| ==> if i in order then Ran(world, start, now, i) else now[i] == start[i])
  }

  ghost predicate Ran(world: World, start: seq<Row>, now: seq<Row>, i: nat)
    requires i < |start| == |now|
  {
    && Startable(start[i].status) && DepsCompleted(now, start[i])
    && now[i].status == Ended(world, start[i])
    && now[i] == start[i].(status := now[i].status, attemptCount := now[i].attemptCount)
  }

  /** Running one more ready task. */
  lemma ProgressStep(world: World, start: seq<Row>, now: seq<Row>, order: seq<nat>, i: nat, last: nat)
    requires Progress(world, start, now, order) && i < |now| && Ready(now, i)
    ensures i !in order && now[i] == start[i]
    ensures
      var next := now[i := now[i].(status := Ended(world, start[i]), attemptCount := last)];
      && Progress(world, start, next, order + [i])
      && !Startable(next[i].status)
  {
    hide Works, DepsCompleted;
    assert forall j <- order :: Ran(world, start, now, j);
    var next := now[i := now[i].(status := Ended(world, start[i]), attemptCount := last)];
    forall row: Row | DepsCompleted(now, row) ensures DepsCompleted(next, row) {
      DepsStay(now, i, next[i], row);
    }
    assert Ran(world, start, next, i);
    forall j | j in order && j != i ensures Ran(world, start, next, j) {
      assert Ran(world, start, now, j);
    }
  }

  lemma DepsStay(rows: seq<Row>, i: nat, row': Row, row: Row)
    requires i < |rows| && rows[i].status != Completed && row'.id == rows[i].id && DepsCompleted(rows, row)
    ensures DepsCompleted(rows[i := row'], row)
  {
    forall d <- row.dependsOn ensures IsCompleted(rows[i := row'], d) {
      var k :| 0 <= k < |rows| && rows[k].id == d && rows[k].status == Completed;
      assert rows[i := row'][k] == rows[k];
    }
  }

  /** When nothing is ready any more the table is settled. */
  lemma ProgressSettles(world: World, start: seq<Row>, now: seq<Row>, order: seq<nat>)
    requires Progress(world, start, now, order) && forall i :: 0 <= i < |now| ==> !Ready(now, i)
    ensures Settled(world, start, now)
    ensures forall i :: 0 <= i < |start| ==>
      (i in order <==> Startable(start[i].status) && DepsCompleted(now, start[i]))
  {
    hide Works, DepsCompleted;
    forall i | 0 <= i < |start|
      ensures SettledAt(world, start, now, i)
      ensures i in order <==> Startable(start[i].status) && DepsCompleted(now, start[i])
    {
      if i in order {
        assert Ran(world, start, now, i);
      } else {
        assert !Ready(now, i);
      }
    }
  }

  /** In dependency order, running task i makes no earlier task ready. */
  lemma EarlierStaysIdle(start: seq<Row>, now: seq<Row>, next: seq<Row>, i: nat, j: nat)
    requires SameTasks(start, now) && SameTasks(start, next) && MissionSpec.Ordered(Specs(start))
    requires j < i < |start|
    requires forall k :: 0 <= k < i ==> next[k] == now[k]
    ensures Ready(next, j) ==> Ready(now, j)
  {
    if Ready(next, j) {
      forall d <- now[j].dependsOn ensures IsCompleted(now, d) {
        assert start[j].dependsOn == now[j].dependsOn == next[j].dependsOn;
        EarlierRow(start, next, j, d);
        var k :| 0 <= k < j && next[k].id == d && next[k].status == Completed;
        assert now[k].status == Completed;
      }
    }
  }

  lemma EarlierRow(start: seq<Row>, rows: seq<Row>, j: nat, d: string)
    requires SameTasks(start, rows) && MissionSpec.Ordered(Specs(start)) && j < |start|
    requires d in start[j].dependsOn && IsCompleted(rows, d)
    ensures exists k :: 0 <= k < j && rows[k].id == d && rows[k].status == Completed
  {
    hide MissionSpec.Ordered;
    var specs := Specs(start);
    MissionSpec.EarlierIndex(specs, j, d);
    var k := IndexOf(MissionSpec.Ids(specs), d);
    assert start[k].id == d && rows[k].id == d;
    UniqueRow(start, rows, d, k);
  }

  // ---------------------------------------------------------------- the driver

  datatype RunResult = RunResult(finalStatus: SchedulerState, tasksCompleted: nat, tasksFailed: nat, tasksBlocked: nat)

  function SetStatus(rows: seq<Row>, id: string, status: Status): (r: seq<Row>)
    ensures |r| == |rows|
  {
    seq(|rows|, i requires 0 <= i < |rows| => if rows[i].id == id then rows[i].(status := status) else rows[i])
  }

  lemma SetStatusAt(rows: seq<Row>, i: nat, status: Status)
    requires i < |rows| && Distinct(Ids(rows))
    ensures SetStatus(rows, rows[i].id, status) == rows[i := rows[i].(status := status)]
  {
    assert forall j :: 0 <= j < |rows| ==> Ids(rows)[j] == rows[j].id;
  }

  function RecordCount(records: map<string, nat>, id: string): nat {
    if id in records then records[id] else 0
  }

  /** Fewer records than the maximum, where a task that is not listed has none. */
  predicate FewRecords(records: map<string, nat>, row: Row) {
    (row.id !in records && 0 < row.maxAttempts) || (row.id in records && records[row.id] < row.maxAttempts)
  }

  function ReconciledAll(rows: seq<Row>, records: map<string, nat>): (r: seq<Row>)
    ensures |r| == |rows|
  {
    seq(|rows|, i requires 0 <= i < |rows| => Reconciled(rows[i], RecordCount(records, rows[i].id)))
  }

  // ---------------------------------------------------------------- saving a specification

  /** What `save_task` writes: the definition of a task, and the attempt count its metadata may carry. */
  datatype Definition = Definition(task: MissionSpec.Task, maxAttempts: int, verified: bool, attemptCount: nat)

  function NewRow(d: Definition): Row {
    Row(d.task.id, d.task.dependsOn, Pending, d.attemptCount, d.maxAttempts, d.verified)
  }

  /** An existing row takes the new definition and keeps its progress. */
  function Redefined(row: Row, d: Definition): Row {
    row.(dependsOn := d.task.dependsOn, maxAttempts := d.maxAttempts, verified := d.verified)
  }

  /** The table after saving one task: its row redefined in place, or a new row at the end. */
  function Upserted(rows: seq<Row>, d: Definition): seq<Row> {
    if d.task.id in Ids(rows) then
      seq(|rows|, i requires 0 <= i < |rows| => if rows[i].id == d.task.id then Redefined(rows[i], d) else rows[i])
    else rows + [NewRow(d)]
  }

  function UpsertedAll(rows: seq<Row>, ds: seq<Definition>): seq<Row> {
    if ds == [] then rows else Upserted(UpsertedAll(rows, ds[..|ds| - 1]), ds[|ds| - 1])
  }

  /** Saving loses no progress and no row: status and attempts of every earlier row stay, in place. */
  lemma {:induction false} SavingKeepsProgress(rows: seq<Row>, ds: seq<Definition>)
    requires Distinct(Ids(rows))
    ensures var saved := UpsertedAll(rows, ds);
      && Distinct(Ids(saved)) && |rows| <= |saved|
      && forall i :: 0 <= i < |rows| ==>
           saved[i].id == rows[i].id && saved[i].status == rows[i].status
           && saved[i].attemptCount == rows[i].attemptCount
  {
    if ds != [] {
      SavingKeepsProgress(rows, ds[..|ds| - 1]);
      SaveOne(UpsertedAll(rows, ds[..|ds| - 1]), ds[|ds| - 1]);
    }
  }

  lemma SaveOne(rows: seq<Row>, d: Definition)
    requires Distinct(Ids(rows))
    ensures var saved := Upserted(rows, d);
      && Distinct(Ids(saved)) && |rows| <= |saved|
      && forall i :: 0 <= i < |rows| ==>
           saved[i].id == rows[i].id && saved[i].status == rows[i].status
           && saved[i].attemptCount == rows[i].attemptCount
  {
    var saved := Upserted(rows, d);
    if d.task.id in Ids(rows) {
      assert Ids(saved) == Ids(rows);
    } else {
      assert Ids(saved) == Ids(rows) + [d.task.id];
    }
  }

  /** Definition `k` is the last one saved under its id. */
  ghost predicate LastSaved(ds: seq<Definition>, k: nat) {
    k < |ds| && forall j :: k < j < |ds| ==> ds[j].task.id != ds[k].task.id
  }

  /** The row carries this definition. */
  predicate Carries(row: Row, d: Definition) {
    row.id == d.task.id && row.dependsOn == d.task.dependsOn
    && row.maxAttempts == d.maxAttempts && row.verified == d.verified
  }

  ghost predicate Carried(rows: seq<Row>, d: Definition) {
    exists i :: 0 <= i < |rows| && Carries(rows[i], d)
  }

  /** Saving takes the definition that was saved last, wherever the row came from. */
  lemma {:induction false} SavingDefines(rows: seq<Row>, ds: seq<Definition>, k: nat)
    requires Distinct(Ids(rows)) && LastSaved(ds, k)
    ensures Carried(UpsertedAll(rows, ds), ds[k])
  {
    hide UpsertedAll, Upserted, Carried;
    var n := |ds| - 1;
    var before := UpsertedAll(rows, ds[..n]);
    SavedLast(rows, ds);
    if k == n {
      SaveCarries(before, ds[n]);
    } else {
      SavingDefines(rows, ds[..n], k);
      SaveKeeps(before, ds[n], ds[k]);
    }
  }

  lemma SaveCarries(rows: seq<Row>, d: Definition)
    ensures Carried(Upserted(rows, d), d)
  {
    var saved := Upserted(rows, d);
    if d.task.id in Ids(rows) {
      var i := IndexOf(Ids(rows), d.task.id);
      assert Carries(saved[i], d);
    } else {
      assert Carries(saved[|rows|], d);
    }
  }

  lemma SaveKeeps(rows: seq<Row>, d: Definition, e: Definition)
    requires Carried(rows, e) && d.task.id != e.task.id
    ensures Carried(Upserted(rows, d), e)
  {
    var i :| 0 <= i < |rows| && Carries(rows[i], e);
    assert Carries(Upserted(rows, d)[i], e);
  }

  lemma SavedLast(rows: seq<Row>, ds: seq<Definition>)
    requires ds != []
    ensures UpsertedAll(rows, ds) == Upserted(UpsertedAll(rows, ds[..|ds| - 1]), ds[|ds| - 1])
  {
  }

  function Tasks(ds: seq<Definition>): (r: seq<MissionSpec.Task>)
    ensures |r| == |ds| && forall i :: 0 <= i < |r| ==> r[i] == ds[i].task
  {
    seq(|ds|, i requires 0 <= i < |ds| => ds[i].task)
  }

  /** On an empty table tasks with distinct ids become pending rows in list order. */
  lemma {:induction false} SavedFresh(ds: seq<Definition>)
    requires Distinct(MissionSpec.Ids(Tasks(ds)))
    ensures |UpsertedAll([], ds)| == |ds| && Specs(UpsertedAll([], ds)) == Tasks(ds)
    ensures forall i :: 0 <= i < |ds| ==>
              UpsertedAll([], ds)[i] == Row(ds[i].task.id, ds[i].task.dependsOn, Pending, ds[i].attemptCount,
                                            ds[i].maxAttempts, ds[i].verified)
  {
    hide Distinct, MissionSpec.Ids, Upserted;
    if ds != [] {
      var n := |ds| - 1;
      PrefixDistinct(Tasks(ds));
      assert Tasks(ds[..n]) == Tasks(ds)[..n];
      SavedFresh(ds[..n]);
      hide UpsertedAll;
      SaveNew(UpsertedAll([], ds[..n]), ds);
      assert UpsertedAll([], ds) == Upserted(UpsertedAll([], ds[..n]), ds[n]) by { UpsertedLast(ds); }
    }
  }

  lemma UpsertedLast(ds: seq<Definition>)
    requires ds != []
    ensures UpsertedAll([], ds) == Upserted(UpsertedAll([], ds[..|ds| - 1]), ds[|ds| - 1])
  {
  }

  lemma PrefixDistinct(tasks: seq<MissionSpec.Task>)
    requires tasks != [] && Distinct(MissionSpec.Ids(tasks))
    ensures Distinct(MissionSpec.Ids(tasks[..|tasks| - 1]))
  {
    hide MissionSpec.Ids;
    var ids, front := MissionSpec.Ids(tasks), MissionSpec.Ids(tasks[..|tasks| - 1]);
    forall i, j | 0 <= i < j < |front| ensures front[i] != front[j] {
      assert front[i] == tasks[i].id == ids[i] && front[j] == tasks[j].id == ids[j];
    }
  }

  lemma SaveNew(before: seq<Row>, ds: seq<Definition>)
    requires ds != [] && |before| == |ds| - 1 && Distinct(MissionSpec.Ids(Tasks(ds)))
    requires forall i :: 0 <= i < |before| ==> before[i] == NewRow(ds[i])
    ensures Upserted(before, ds[|before|]) == before + [NewRow(ds[|before|])]
  {
    var ids := MissionSpec.Ids(Tasks(ds));
    forall i | 0 <= i < |before| ensures Ids(before)[i] != ds[|before|].task.id {
      assert ids[i] == ds[i].task.id && ids[|before|] == ds[|before|].task.id;
    }
  }

  // ---------------------------------------------------------------- the loop of `run`

  ghost predicate Idle(rows: seq<Row>, p: nat) {
    p <= |rows| && forall i :: 0 <= i < p ==> !Ready(rows, i)
  }

  ghost predicate Increasing(order: seq<nat>) {
    forall i, j :: 0 <= i < j < |order| ==> order[i] < order[j]
  }

  predicate AllCompleted(rows: seq<Row>) {
    rows != [] && forall i :: 0 <= i < |rows| ==> rows[i].status == Completed
  }

  ghost predicate NoneRunning(rows: seq<Row>) {
    forall i :: 0 <= i < |rows| ==> rows[i].status != Running
  }

  /** The executed rows that now have this status. */
  ghost function Having(rows: seq<Row>, order: seq<nat>, status: Status): set<nat> {
    set i | i in order && i < |rows| && rows[i].status == status
  }

  /** Every executed row is counted once, as completed or as failed. */
  ghost predicate Counted(rows: seq<Row>, order: seq<nat>, done: nat, failed: nat) {
    Distinct(order) && done == |Having(rows, order, Completed)| && failed == |Having(rows, order, Blocked)|
  }

  lemma CountStep(rows: seq<Row>, order: seq<nat>, done: nat, failed: nat, i: nat, row: Row, ok: bool)
    requires Counted(rows, order, done, failed) && i !in order && i < |rows|
    requires row.status == if ok then Completed else Blocked
    ensures Counted(rows[i := row], order + [i], done + (if ok then 1 else 0), failed + (if ok then 0 else 1))
  {
    hide Having, Distinct;
    HavingStep(rows, order, i, row, Completed);
    HavingStep(rows, order, i, row, Blocked);
    OrderStep(order, i);
  }

  lemma HavingStep(rows: seq<Row>, order: seq<nat>, i: nat, row: Row, status: Status)
    requires i !in order && i < |rows|
    ensures var more := Having(rows[i := row], order + [i], status);
            && more == Having(rows, order, status) + (if row.status == status then {i} else {})
            && |more| == |Having(rows, order, status)| + (if row.status == status then 1 else 0)
  {
    assert i !in Having(rows, order, status);
  }

  lemma OrderStep(order: seq<nat>, i: nat)
    requires Distinct(order) && i !in order
    ensures Distinct(order + [i])
  {
  }

  /** Between two tasks: progress so far, and in dependency order nothing before p can run again. */
  ghost predicate Looping(world: World, start: seq<Row>, now: seq<Row>, order: seq<nat>, p: nat) {
    && Distinct(Ids(now)) && SameTasks(start, now) && NoneRunning(now)
    && Progress(world, start, now, order)
    && p <= |now|
    && (MissionSpec.Ordered(Specs(start)) ==> Idle(now, p) && Increasing(order) && forall i <- order :: i < p)
  }

  lemma LoopStart(world: World, start: seq<Row>)
    requires Distinct(Ids(start)) && NoneRunning(start)
    ensures Looping(world, start, start, [], 0)
  {
  }

  lemma LoopStep(world: World, start: seq<Row>, now: seq<Row>, order: seq<nat>, p: nat, i: nat, last: nat)
    requires Looping(world, start, now, order, p)
    requires i < |now| && Ready(now, i) && Idle(now, i)
    ensures now[i] == start[i] && Startable(now[i].status) && i !in order
    ensures
      var next := now[i := now[i].(status := Ended(world, start[i]), attemptCount := last)];
      Looping(world, start, next, order + [i], i + 1)
  {
    hide Progress, Works, MissionSpec.Ordered;
    ProgressStep(world, start, now, order, i, last);
    var next := now[i := now[i].(status := Ended(world, start[i]), attemptCount := last)];
    assert Ids(next) == Ids(now);
    if MissionSpec.Ordered(Specs(start)) {
      forall j | 0 <= j < i ensures !Ready(next, j) {
        EarlierStaysIdle(start, now, next, i, j);
      }
      assert i >= p;
      assert forall k :: 0 <= k < |order| ==> order[k] in order && order[k] < i;
      assert Increasing(order + [i]);
    }
  }

  lemma NothingCounted(rows: seq<Row>)
    ensures Counted(rows, [], 0, 0)
  {
    assert Having(rows, [], Completed) == {} && Having(rows, [], Blocked) == {};
  }

  ghost function Open(rows: seq<Row>): set<nat> {
    set i: nat | 0 <= i < |rows| && Startable(rows[i].status)
  }

  lemma OpenShrinks(rows: seq<Row>, i: nat, row: Row)
    requires i < |rows| && Startable(rows[i].status) && !Startable(row.status)
    ensures Open(rows[i := row]) < Open(rows)
  {
    assert i in Open(rows) && i !in Open(rows[i := row]);
  }

  lemma SameTasksChain(a: seq<Row>, b: seq<Row>, c: seq<Row>)
    requires SameTasks(a, b) && SameTasks(b, c)
    ensures SameTasks(a, c)
  {
  }

  lemma LoopEnd(world: World, start: seq<Row>, now: seq<Row>, order: seq<nat>, p: nat)
    requires Looping(world, start, now, order, p) && (Idle(now, |now|) || AllCompleted(now))
    ensures SameTasks(start, now) && Settled(world, start, now)
    ensures forall i :: 0 <= i < |start| ==>
      (i in order <==> Startable(start[i].status) && DepsCompleted(now, start[i]))
    ensures MissionSpec.Ordered(Specs(start)) ==> Increasing(order)
  {
    ProgressSettles(world, start, now, order);
  }

  class Driver {
    const world: World
    var rows: seq<Row>
    var records: map<string, nat>
    var launches: seq<(string, nat)>

    ghost predicate Valid()
      reads this
    {
      Distinct(Ids(rows))
    }

    constructor (world: World, rows: seq<Row>, records: map<string, nat>)
      requires Distinct(Ids(rows))
      ensures Valid() && this.world == world && this.rows == rows && this.records == records && launches == []
    {
      this.world, this.rows, this.records, this.launches := world, rows, records, [];
    }

    function AttemptRecords(id: string): nat
      reads this
    {
      RecordCount(records, id)
    }

    /** `update_task_status`. */
    method UpdateTaskStatus(id: string, status: Status)
      modifies this`rows
      ensures rows == SetStatus(old(rows), id, status)
    {
      rows := SetStatus(rows, id, status);
    }

    /** `increment_attempt_count`: the new count of row i. */
    method IncrementAttemptCount(i: nat) returns (count: nat)
      requires Valid() && i < |rows|
      modifies this`rows
      ensures count == old(rows)[i].attemptCount + 1
      ensures rows == old(rows)[i := old(rows)[i].(attemptCount := count)]
    {
      count := rows[i].attemptCount + 1;
      rows := rows[i := rows[i].(attemptCount := count)];
    }

    method RecordAttempt(id: string)
      modifies this`records
      ensures records == old(records)[id := old(AttemptRecords(id)) + 1]
    {
      records := records[id := AttemptRecords(id) + 1];
    }

    /** `save_task`: insert, or update the definition and keep the progress. */
    method SaveTask(d: Definition)
      modifies this`rows
      ensures rows == Upserted(old(rows), d)
    {
      rows := Upserted(rows, d);
    }

    /** `save_mission` saves the tasks one by one. */
    method SaveMission(ds: seq<Definition>)
      modifies this`rows
      ensures rows == UpsertedAll(old(rows), ds)
    {
      hide Upserted;
      for i := 0 to |ds|
        invariant rows == UpsertedAll(old(rows), ds[..i])
      {
        assert ds[..i + 1][..i] == ds[..i];
        SaveTask(ds[i]);
      }
      assert ds[..|ds|] == ds;
    }

    /** `_reconcile_stale_tasks`: no row is left RUNNING. */
    method ReconcileStaleTasks()
      requires Valid()
      modifies this`rows
      ensures rows == ReconciledAll(old(rows), records)
      ensures Valid() && SameTasks(old(rows), rows) && NoneRunning(rows)
      ensures forall i :: 0 <= i < |rows| ==>
                var was := old(rows)[i];
                rows[i] == if was.status != Running then was
                           else was.(status := if FewRecords(records, was) then Interrupted else Failed)
    {
      var tasks := rows;
      for i := 0 to |tasks|
        invariant |rows| == |tasks|
        invariant forall j :: 0 <= j < i ==> rows[j] == Reconciled(tasks[j], AttemptRecords(tasks[j].id))
        invariant forall j :: i <= j < |tasks| ==> rows[j] == tasks[j]
      {
        var t := tasks[i];
        if t.status == Running {
          assert Ids(rows) == Ids(tasks);
          SetStatusAt(rows, i, Interrupted);
          SetStatusAt(rows, i, Failed);
          if AttemptRecords(t.id) < t.maxAttempts {
            UpdateTaskStatus(t.id, Interrupted);
          } else {
            UpdateTaskStatus(t.id, Failed);
          }
        }
      }
      assert Ids(rows) == Ids(tasks);
    }

    /** The durable beginning of an attempt: a new count, and RUNNING. */
    method StartAttempt(i: nat) returns (attempt: nat)
      requires Valid() && i < |rows|
      modifies this`rows
      ensures attempt == old(rows)[i].attemptCount + 1
      ensures rows == old(rows)[i := old(rows)[i].(attemptCount := attempt, status := Running)]
      ensures Valid()
    {
      attempt := IncrementAttemptCount(i);
      assert Ids(rows) == Ids(old(rows));
      SetStatusAt(rows, i, Running);
      UpdateTaskStatus(rows[i].id, Running);
      assert Ids(rows) == Ids(old(rows));
    }

    /** Executes and verifies one attempt; the answer is the exit code of the stage that failed. */
    method RunAttempt(task: Row, attempt: nat) returns (failure: Option<int>)
      modifies this`records, this`launches
      ensures launches == old(launches) + [(task.id, attempt)]
      ensures AttemptRecords(task.id) == old(AttemptRecords(task.id)) + RecordsOf(world, task, attempt)
      ensures failure.None? <==> Succeeds(world, task, attempt)
      ensures failure.Some? ==>
        failure.value != 0 && failure.value in {world(task.id, attempt).0, world(task.id, attempt).1}
    {
      launches := launches + [(task.id, attempt)];
      var (execExit, verifyExit) := world(task.id, attempt);
      RecordAttempt(task.id);
      if execExit != 0 {
        return Some(execExit);
      }
      if task.verified {
        RecordAttempt(task.id);
        if verifyExit != 0 {
          return Some(verifyExit);
        }
      }
      return None;
    }

    /** `_execute_task_with_retry` on row i. */
    method ExecuteTaskWithRetry(i: nat) returns (ok: bool, exitCode: int, ghost last: nat)
      requires Valid() && i < |rows|
      modifies this
      ensures var task := old(rows)[i];
        && task.attemptCount <= last <= Limit(task)
        && (forall a :: task.attemptCount < a < last ==> !Succeeds(world, task, a))
        && (ok <==> Works(world, task))
        && (ok ==> task.attemptCount < last && Succeeds(world, task, last) && exitCode == 0)
        && (!ok ==> last == Limit(task))
        && (!ok && task.attemptCount < last ==>
              !Succeeds(world, task, last) && exitCode != 0
              && exitCode in {world(task.id, last).0, world(task.id, last).1})
        && (!ok && task.attemptCount == last ==> exitCode == 1)
        && rows == old(rows)[i := task.(status := if ok then Running else Failed, attemptCount := last)]
        && launches == old(launches) + LaunchesUpTo(task.id, task.attemptCount, last)
        && AttemptRecords(task.id) == old(AttemptRecords(task.id)) + RecordsUpTo(world, task, task.attemptCount, last)
      ensures Valid()
    {
      hide LaunchesUpTo, RecordsUpTo, Distinct, Works;
      var task := rows[i];
      NothingYet(world, task);
      var attempt: nat := 0;
      exitCode := 1;
      last := task.attemptCount;
      while attempt < task.maxAttempts
        invariant Valid() && |rows| == |old(rows)|
        invariant rows == old(rows)[i := rows[i]]
        invariant rows[i] == task.(status := rows[i].status, attemptCount := last)
        invariant last > task.attemptCount ==> rows[i].status == Running
        invariant attempt == (if last == task.attemptCount then 0 else last)
        invariant AllFailed(world, task, last, exitCode)
        invariant launches == old(launches) + LaunchesUpTo(task.id, task.attemptCount, last)
        invariant AttemptRecords(task.id)
          == old(AttemptRecords(task.id)) + RecordsUpTo(world, task, task.attemptCount, last)
        decreases task.maxAttempts - attempt
      {
        OneMore(world, task, last);
        attempt := StartAttempt(i);
        last := attempt;
        var failure := RunAttempt(task, attempt);
        if failure.None? {
          WorksAt(world, task, last);
          return true, 0, last;
        }
        exitCode := failure.value;
      }
      SetStatusAt(rows, i, Failed);
      UpdateTaskStatus(task.id, Failed);
      assert Ids(rows) == Ids(old(rows));
      NeverWorks(world, task, exitCode);
      ok := false;
    }

    /** One turn of the driver's loop: execute, then complete or block the task. */
    method RunTask(i: nat) returns (ok: bool, ghost last: nat)
      requires Valid() && i < |rows|
      modifies this
      ensures Valid() && ok == Works(world, old(rows)[i])
      ensures rows == old(rows)[i := old(rows)[i].(status := if ok then Completed else Blocked, attemptCount := last)]
    {
      hide LaunchesUpTo, RecordsUpTo, Works, Limit;
      var exitCode;
      ok, exitCode, last := ExecuteTaskWithRetry(i);
      var id := rows[i].id;
      if ok {
        SetStatusAt(rows, i, Completed);
        UpdateTaskStatus(id, Completed);
      } else {
        SetStatusAt(rows, i, Failed);
        UpdateTaskStatus(id, Failed);
        assert Ids(rows) == Ids(old(rows));
        SetStatusAt(rows, i, Blocked);
        UpdateTaskStatus(id, Blocked);
      }
      assert Ids(rows) == Ids(old(rows));
    }

    /** `get_runnable_tasks` picks the ready rows in table order; the driver takes the first. */
    method GetNextTask() returns (next: Option<nat>)
      ensures next.None? ==> Idle(rows, |rows|)
      ensures next.Some? ==> next.value < |rows| && Ready(rows, next.value) && Idle(rows, next.value)
    {
      for i := 0 to |rows|
        invariant forall j :: 0 <= j < i ==> !Ready(rows, j)
      {
        if Ready(rows, i) {
          return Some(i);
        }
      }
      next := None;
    }

    /** `evaluate_mission`. */
    method Evaluate() returns (state: SchedulerState)
      ensures state == Complete <==> AllCompleted(rows)
      ensures state == InProgress <==> exists i :: 0 <= i < |rows| && rows[i].status == Running
      ensures state == Runnable ==> !Idle(rows, |rows|)
      ensures state == Stuck ==> Idle(rows, |rows|)
    {
      var completed, running := 0, false;
      for i := 0 to |rows|
        invariant completed <= i && (completed == i <==> forall j :: 0 <= j < i ==> rows[j].status == Completed)
        invariant running <==> exists j :: 0 <= j < i && rows[j].status == Running
      {
        if rows[i].status == Completed {
          completed := completed + 1;
        }
        if rows[i].status == Running {
          running := true;
        }
      }
      if completed == |rows| && |rows| > 0 {
        return Complete;
      }
      if running {
        return InProgress;
      }
      var next := GetNextTask();
      state := if next.Some? then Runnable else Stuck;
    }

    /** `run`, from the reconciliation on. `order` lists the rows that were executed, in time order. */
    method Run() returns (result: RunResult, ghost order: seq<nat>)
      requires Valid()
      modifies this
      ensures Valid() && SameTasks(old(rows), rows)
      ensures var start := ReconciledAll(old(rows), old(records));
        && Settled(world, start, rows)
        && (forall i :: 0 <= i < |start| ==>
              (i in order <==> Startable(start[i].status) && DepsCompleted(rows, start[i])))
        && (MissionSpec.Ordered(Specs(start)) ==> Increasing(order))
      ensures result.finalStatus == if AllCompleted(rows) then Complete else Stuck
      ensures Counted(rows, order, result.tasksCompleted, result.tasksFailed)
      ensures result.tasksCompleted + result.tasksFailed == |order| && result.tasksBlocked == result.tasksFailed
    {
      hide Counted, Progress, SameTasks, MissionSpec.Ordered, Works, DepsCompleted, RecordsUpTo, LaunchesUpTo, Open;
      ReconcileStaleTasks();
      ghost var start := rows;
      assert start == ReconciledAll(old(rows), records);
      LoopStart(world, start);
      var done, failed := 0, 0;
      order := [];
      assert Counted(rows, order, 0, 0) by { NothingCounted(rows); }
      ghost var p := 0;
      var state := Evaluate();
      while state == Runnable || state == InProgress
        invariant Looping(world, start, rows, order, p)
        invariant state == Complete <==> AllCompleted(rows)
        invariant state == InProgress <==> exists i :: 0 <= i < |rows| && rows[i].status == Running
        invariant state == Stuck ==> Idle(rows, |rows|)
        invariant state == Runnable ==> !Idle(rows, |rows|)
        invariant done + failed == |order| && Counted(rows, order, done, failed)
        decreases Open(rows)
      {
        var task := GetNextTask();
        if task.None? {
          break;
        }
        var i := task.value;
        ghost var before := rows;
        LoopStep(world, start, before, order, p, i, 0);
        var ok, last := RunTask(i);
        LoopStep(world, start, before, order, p, i, last);
        OpenShrinks(before, i, rows[i]);
        CountStep(before, order, done, failed, i, rows[i], ok);
        done, failed := done + (if ok then 1 else 0), failed + (if ok then 0 else 1);
        order := order + [i];
        p := i + 1;
        state := Evaluate();
      }
      LoopEnd(world, start, rows, order, p);
      SameTasksChain(old(rows), start, rows);
      result := RunResult(state, done, failed, failed);
    }
  }

  function Define(task: MissionSpec.Task, details: string -> (int, bool, nat)): Definition {
    Definition(task, details(task.id).0, details(task.id).1, details(task.id).2)
  }

  /** Some allowed attempt passes the executor and, if there is one, the verifier. */
  ghost predicate TaskWorks(world: World, id: string, maxAttempts: int, verified: bool, used: nat) {
    exists a :: Allowed(maxAttempts, used, a) && world(id, a).0 == 0 && (verified ==> world(id, a).1 == 0)
  }

  /** The attempts one call may make: up to the maximum, and one more when the count is used up. */
  predicate Allowed(maxAttempts: int, used: nat, attempt: nat) {
    maxAttempts > 0 && used < attempt && (attempt <= maxAttempts || attempt == used + 1)
  }

  lemma WorksMeans(world: World, row: Row)
    ensures Works(world, row) <==> TaskWorks(world, row.id, row.maxAttempts, row.verified, row.attemptCount)
  {
    hide Limit;
    if a :| row.attemptCount < a <= Limit(row) && Succeeds(world, row, a) {
      AllowedLimit(row, a);
    }
    if a :| Allowed(row.maxAttempts, row.attemptCount, a) && world(row.id, a).0 == 0
            && (row.verified ==> world(row.id, a).1 == 0) {
      AllowedLimit(row, a);
      assert Succeeds(world, row, a);
    }
  }

  lemma AllowedLimit(row: Row, a: nat)
    ensures Allowed(row.maxAttempts, row.attemptCount, a) <==> row.attemptCount < a <= Limit(row)
  {
  }

  /**
   Row `i` once the mission is over: it carries the task and its details, was executed exactly when all its
   dependencies completed, and is then COMPLETED exactly when an allowed attempt works, otherwise BLOCKED.
   */
  ghost predicate Outcome(world: World, rows: seq<Row>, task: MissionSpec.Task, details: (int, bool, nat), ran: bool,
                          i: nat)
    requires i < |rows|
  {
    var row := rows[i];
    && row.id == task.id && row.dependsOn == task.dependsOn
    && row.maxAttempts == details.0 && row.verified == details.1
    && (ran <==> forall d <- task.dependsOn :: IsCompleted(rows, d))
    && row.status ==
         if !ran then Pending
         else if TaskWorks(world, task.id, details.0, details.1, details.2) then Completed
         else Blocked
  }

  ghost function WithStatus(rows: seq<Row>, status: Status): set<nat> {
    set i: nat | i < |rows| && rows[i].status == status
  }

  /**
   A specification is parsed, saved into an empty table and run. Accepted tasks are executed in
   strictly increasing list order, each exactly when all its dependencies completed, and the rest
   stays pending; the mission is COMPLETE exactly when it has a task and every task completed,
   otherwise BLOCKED; the reported counts are those of the completed and of the blocked tasks.
   */
  method ParseSaveRun(world: World, data: MissionSpec.RawSpec, details: string -> (int, bool, nat))
    returns (r: Result<(seq<Row>, RunResult), MissionSpec.SpecError>, ghost order: seq<nat>)
    ensures r.Ok? ==>
      var (rows, result) := r.value;
      && MissionSpec.SpecFault(data).None? && |rows| == |data.tasks.entries|
      && (forall i :: 0 <= i < |rows| ==>
            && MissionSpec.EntryFault(data.tasks.entries, i).None?
            && var e := data.tasks.entries[i];
               Outcome(world, rows, MissionSpec.Task(e.id.value, e.dependsOn.ids), details(e.id.value), i in order, i))
      && Increasing(order)
      && result.finalStatus == (if AllCompleted(rows) then Complete else Stuck)
      && result.tasksCompleted == |WithStatus(rows, Completed)|
      && result.tasksFailed == result.tasksBlocked == |WithStatus(rows, Blocked)|
    ensures r.Err? ==> MissionSpec.SpecFault(data).Some?
                       || exists i ::
                          0 <= i < |data.tasks.entries| && MissionSpec.EntryFault(data.tasks.entries, i).Some?
  {
    hide Works, TaskWorks, DepsCompleted, AllCompleted, MissionSpec.EntryFault, Counted;
    hide MissionSpec.Ordered, UpsertedAll, Increasing, Settled, WithStatus, Outcome;
    order := [];
    var parsed := MissionSpec.ParseDict(data);
    if parsed.Err? {
      return Err(parsed.error), [];
    }
    var tasks := parsed.value;
    MissionSpec.AcceptedOrdered(data.tasks.entries, tasks);
    var ds := seq(|tasks|, i requires 0 <= i < |tasks| => Define(tasks[i], details));
    assert Tasks(ds) == tasks;
    assert Distinct(MissionSpec.Ids(tasks)) by { OrderedDistinct(tasks); }
    SavedFresh(ds);
    var driver := new Driver(world, [], map[]);
    driver.SaveMission(ds);
    ghost var start := driver.rows;
    FreshDistinct(ds);
    FreshReconciled(ds);
    var result;
    result, order := driver.Run();
    assert SameTasks(start, driver.rows) && Settled(world, start, driver.rows);
    forall i | 0 <= i < |start| ensures Outcome(world, driver.rows, tasks[i], details(tasks[i].id), i in order, i) {
      FreshOutcome(world, ds, driver.rows, order, i);
      DefinedAs(tasks[i], details);
    }
    FreshCounts(world, start, driver.rows, order, result.tasksCompleted, result.tasksFailed);
    r := Ok((driver.rows, result));
  }

  lemma DefinedAs(task: MissionSpec.Task, details: string -> (int, bool, nat))
    ensures var d := Define(task, details); var e := details(task.id);
            d.task == task && d.maxAttempts == e.0 && d.verified == e.1 && d.attemptCount == e.2
            && (d.maxAttempts, d.verified, d.attemptCount) == e
  {
  }

  /** On a fresh table only executed rows are completed or blocked. */
  lemma FreshCounts(world: World, start: seq<Row>, rows: seq<Row>, order: seq<nat>, done: nat, failed: nat)
    requires Settled(world, start, rows) && |rows| == |start| && Counted(rows, order, done, failed)
    requires forall i :: 0 <= i < |start| ==> start[i].status == Pending
    requires forall i :: 0 <= i < |start| ==>
               (i in order <==> Startable(start[i].status) && DepsCompleted(rows, start[i]))
    ensures done == |WithStatus(rows, Completed)| && failed == |WithStatus(rows, Blocked)|
  {
    hide Works, DepsCompleted, Settled, Startable;
    forall i: nat | i < |rows| ensures rows[i].status in {Completed, Blocked} ==> i in order {
      SettledStatus(world, start, rows, i);
    }
    assert Having(rows, order, Completed) == WithStatus(rows, Completed);
    assert Having(rows, order, Blocked) == WithStatus(rows, Blocked);
  }

  lemma OrderedDistinct(tasks: seq<MissionSpec.Task>)
    requires MissionSpec.Ordered(tasks)
    ensures Distinct(MissionSpec.Ids(tasks))
  {
  }

  lemma FreshDistinct(ds: seq<Definition>)
    requires Distinct(MissionSpec.Ids(Tasks(ds)))
    ensures Distinct(Ids(UpsertedAll([], ds)))
  {
    SavingKeepsProgress([], ds);
  }

  lemma FreshReconciled(ds: seq<Definition>)
    requires Distinct(MissionSpec.Ids(Tasks(ds)))
    ensures ReconciledAll(UpsertedAll([], ds), map[]) == UpsertedAll([], ds)
  {
    hide UpsertedAll;
    SavedFresh(ds);
  }

  lemma FreshOutcome(world: World, ds: seq<Definition>, rows: seq<Row>, order: seq<nat>, i: nat)
    requires Distinct(MissionSpec.Ids(Tasks(ds))) && i < |ds| && SameTasks(UpsertedAll([], ds), rows)
    requires Settled(world, UpsertedAll([], ds), rows) && |rows| == |UpsertedAll([], ds)| == |ds|
    requires i in order <==> Startable(UpsertedAll([], ds)[i].status) && DepsCompleted(rows, UpsertedAll([], ds)[i])
    ensures Outcome(world, rows, ds[i].task, (ds[i].maxAttempts, ds[i].verified, ds[i].attemptCount), i in order, i)
  {
    hide Works, TaskWorks, Settled, SameTasks, UpsertedAll;
    var start := UpsertedAll([], ds);
    SavedFresh(ds);
    SettledStatus(world, start, rows, i);
    SameDefinition(start, rows, i);
    WorksMeans(world, start[i]);
  }

  lemma SettledStatus(world: World, start: seq<Row>, final: seq<Row>, i: nat)
    requires Settled(world, start, final) && i < |start|
    ensures |final| == |start| && SameTasks(start, final)
    ensures final[i].status ==
      if Startable(start[i].status) && DepsCompleted(final, start[i])
      then Ended(world, start[i])
      else start[i].status
  {
    hide Works, DepsCompleted;
    assert SettledAt(world, start, final, i);
  }

  lemma SameDefinition(a: seq<Row>, b: seq<Row>, i: nat)
    requires SameTasks(a, b) && i < |a|
    ensures i < |b| && b[i].id == a[i].id && b[i].dependsOn == a[i].dependsOn
    ensures b[i].maxAttempts == a[i].maxAttempts && b[i].verified == a[i].verified
  {
    assert a[i].(status := Pending, attemptCount := 0) == b[i].(status := Pending, attemptCount := 0);
  }
}
