/**
 One task of the driver across process deaths and restarts: which attempt counts and records a death
 can leave behind, and what the restart makes of them.
 */
module MissionRestart {
  import opened Prelude
  import opened MissionDriver

  /** Where the driver is with the task; a death may follow any of these points. */
  datatype Stage =
    | Away                     // not executing the task
    | Trying(attempt: nat)     // about to compare the loop's attempt number with the maximum
    | Counted                  // count raised, RUNNING not yet written
    | Launched                 // RUNNING written, the executor is under way
    | Executed                 // the executor's record is written
    | Verified                 // the verifier's record is written
    | Passed                   // the attempt succeeded, COMPLETED not yet written
    | Exhausted                // FAILED written, BLOCKED not yet
    | Dead

  /** `deaths` and `lost` are auxiliary: deaths so far, and the records that attempts cut short still owed. */
  datatype Life = Life(row: Row, records: nat, stage: Stage, deaths: nat, lost: nat)

  datatype Event = Call | Step | Die | Restart

  function Born(task: Row): Life {
    Life(task, 0, Away, 0, 0)
  }

  function WithStatus(l: Life, s: Status, stage: Stage): Life {
    l.(row := l.row.(status := s), stage := stage)
  }

  /** The next durable write of the retry loop. */
  function Advance(world: World, l: Life): Life {
    match l.stage
    case Trying(attempt) =>
      if attempt < l.row.maxAttempts then l.(row := l.row.(attemptCount := l.row.attemptCount + 1), stage := Counted)
      else WithStatus(l, Failed, Exhausted)
    case Counted => WithStatus(l, Running, Launched)
    case Launched => l.(records := l.records + 1, stage := Executed)
    case Executed =>
      if world(l.row.id, l.row.attemptCount).0 != 0 then l.(stage := Trying(l.row.attemptCount))
      else if l.row.verified then l.(records := l.records + 1, stage := Verified)
      else l.(stage := Passed)
    case Verified =>
      if world(l.row.id, l.row.attemptCount).1 == 0 then l.(stage := Passed)
      else l.(stage := Trying(l.row.attemptCount))
    case Passed => WithStatus(l, Completed, Away)
    case Exhausted => WithStatus(l, Blocked, Away)
    case _ => l
  }

  /** The records that the attempt under way still owes. */
  function Owed(world: World, l: Life): nat {
    match l.stage
    case Counted => RecordsOf(world, l.row, l.row.attemptCount)
    case Launched => RecordsOf(world, l.row, l.row.attemptCount)
    case Executed => RecordsOf(world, l.row, l.row.attemptCount) - 1
    case _ => 0
  }

  function Next(world: World, l: Life, e: Event): Life {
    match e
    case Call => if l.stage.Away? && Startable(l.row.status) then l.(stage := Trying(0)) else l
    case Step => Advance(world, l)
    case Die => if l.stage.Dead? then l else l.(stage := Dead, deaths := l.deaths + 1, lost := l.lost + Owed(world, l))
    case Restart => if l.stage.Dead? then l.(row := Reconciled(l.row, l.records), stage := Away) else l
  }

  function Live(world: World, l: Life, events: seq<Event>): Life {
    if events == [] then l else Next(world, Live(world, l, events[..|events| - 1]), events[|events| - 1])
  }

  lemma LiveSnoc(world: World, l: Life, events: seq<Event>, e: Event)
    ensures Live(world, l, events + [e]) == Next(world, Live(world, l, events), e)
  {
    assert (events + [e])[..|events|] == events;
  }

  // ---------------------------------------------------------------- the ledger of records

  /** The definition of the task never changes. */
  predicate SameTask(task: Row, row: Row) {
    row.(status := task.status, attemptCount := task.attemptCount) == task && row.attemptCount >= task.attemptCount
  }

  /** Written, lost and still owed records add up to what every attempt begun leaves if it is not cut short. */
  ghost predicate Balanced(world: World, task: Row, l: Life) {
    && SameTask(task, l.row)
    && l.records + l.lost + Owed(world, l) == RecordsUpTo(world, task, task.attemptCount, l.row.attemptCount)
    && (l.deaths == 0 ==> l.lost == 0)
    && (l.stage.Counted? || l.stage.Launched? || l.stage.Executed? || l.stage.Verified? || l.stage.Passed? ==>
          l.row.attemptCount > task.attemptCount)
    && (l.stage.Verified? ==> l.row.verified && world(l.row.id, l.row.attemptCount).0 == 0)
    && (l.stage.Trying? ==> l.stage.attempt == 0 || l.stage.attempt == l.row.attemptCount)
  }

  lemma RecordsSame(world: World, a: Row, b: Row, n: nat)
    requires SameTask(a, b)
    ensures RecordsOf(world, a, n) == RecordsOf(world, b, n)
  {
  }

  lemma NextBalanced(world: World, task: Row, l: Life, e: Event)
    requires Balanced(world, task, l)
    ensures Balanced(world, task, Next(world, l, e))
  {
    hide RecordsUpTo;
    RecordsSame(world, task, l.row, l.row.attemptCount);
    RecordsSame(world, task, l.row, l.row.attemptCount + 1);
    OneMore(world, task, l.row.attemptCount);
  }

  lemma {:induction false} EveryLifeBalanced(world: World, task: Row, events: seq<Event>)
    ensures Balanced(world, task, Live(world, Born(task), events))
  {
    hide Balanced, Next;
    if events == [] {
      BornBalanced(world, task);
    } else {
      EveryLifeBalanced(world, task, events[..|events| - 1]);
      NextBalanced(world, task, Live(world, Born(task), events[..|events| - 1]), events[|events| - 1]);
    }
  }

  lemma BornBalanced(world: World, task: Row)
    ensures Balanced(world, task, Born(task))
  {
  }

  // ---------------------------------------------------------------- what the first death leaves

  ghost predicate FailedBelow(world: World, task: Row, n: nat) {
    forall a :: task.attemptCount < a < n ==> !Succeeds(world, task, a)
  }

  /**
   The deaths a first run of the retry loop can meet: during attempt `c`, after `j` of its records, all
   earlier attempts having failed.
   */
  ghost predicate DeathAt(world: World, task: Row, c: nat, j: nat) {
    task.attemptCount < c <= Limit(task) && FailedBelow(world, task, c) && j <= RecordsOf(world, task, c)
  }

  /** The records in the table after such a death. */
  ghost function RecordsLeft(world: World, task: Row, c: nat, j: nat): nat
    requires task.attemptCount < c
  {
    RecordsUpTo(world, task, task.attemptCount, c - 1) + j
  }

  /** The first run of the loop, before any death. */
  ghost predicate FirstTry(world: World, task: Row, l: Life) {
    var c := l.row.attemptCount;
    match l.stage
    case Away => l.row == task || (!Startable(l.row.status) && l.row.status != Running)
    case Trying(attempt) =>
      if attempt == 0 then l.row == task
      else c > task.attemptCount && l.row.status == Running && c <= Limit(task) && FailedBelow(world, task, c + 1)
    case Counted =>
      c <= Limit(task) && FailedBelow(world, task, c)
      && (l.row.status == Running || (l.row.status == task.status && c == task.attemptCount + 1))
    case Exhausted => l.row.status == Failed
    case Dead => false
    case _ => l.row.status == Running && c <= Limit(task) && FailedBelow(world, task, c)
  }

  ghost predicate FirstDeath(world: World, task: Row, l: Life) {
    && (l.row.status == Running ==>
          exists j :: DeathAt(world, task, l.row.attemptCount, j)
                      && l.records == RecordsLeft(world, task, l.row.attemptCount, j))
    && (Startable(l.row.status) && l.row != task ==> l.row.attemptCount == task.attemptCount + 1 <= Limit(task))
  }

  ghost predicate FirstLife(world: World, task: Row, l: Life) {
    && (l.deaths == 0 ==> FirstTry(world, task, l))
    && (l.deaths == 1 && l.stage.Dead? ==> FirstDeath(world, task, l))
  }

  lemma NextFirstTry(world: World, task: Row, l: Life, e: Event)
    requires Startable(task.status) && Balanced(world, task, l) && l.deaths == 0 && FirstTry(world, task, l) && !e.Die?
    ensures FirstTry(world, task, Next(world, l, e))
  {
    hide RecordsUpTo, RecordsOf;
    assert world(l.row.id, l.row.attemptCount) == world(task.id, l.row.attemptCount);
    assert l.row.verified == task.verified;
  }

  lemma DieFirst(world: World, task: Row, l: Life)
    requires Startable(task.status) && Balanced(world, task, l) && l.deaths == 0 && FirstTry(world, task, l)
    ensures FirstDeath(world, task, Next(world, l, Die))
  {
    hide RecordsUpTo, Succeeds;
    var c := l.row.attemptCount;
    if l.row.status == Running {
      assert c > task.attemptCount;
      RecordsSame(world, task, l.row, c);
      OneMore(world, task, c - 1);
      var j := RecordsOf(world, task, c) - Owed(world, l);
      assert DeathAt(world, task, c, j);
      assert l.records == RecordsLeft(world, task, c, j);
    }
  }

  lemma NextFirstLife(world: World, task: Row, l: Life, e: Event)
    requires Startable(task.status) && Balanced(world, task, l) && FirstLife(world, task, l)
    ensures FirstLife(world, task, Next(world, l, e))
  {
    hide Balanced, FirstTry, FirstDeath;
    if l.deaths == 0 {
      if e.Die? {
        NotDead(world, task, l);
        DieFirst(world, task, l);
      } else {
        NextFirstTry(world, task, l, e);
      }
    }
  }

  lemma NotDead(world: World, task: Row, l: Life)
    requires FirstTry(world, task, l)
    ensures !l.stage.Dead?
  {
  }

  lemma {:induction false} EveryFirstLife(world: World, task: Row, events: seq<Event>)
    requires Startable(task.status)
    ensures FirstLife(world, task, Live(world, Born(task), events))
  {
    hide Balanced, Next, FirstTry, FirstDeath;
    if events == [] {
      BornFirst(world, task);
    } else {
      EveryFirstLife(world, task, events[..|events| - 1]);
      EveryLifeBalanced(world, task, events[..|events| - 1]);
      NextFirstLife(world, task, Live(world, Born(task), events[..|events| - 1]), events[|events| - 1]);
    }
  }

  lemma BornFirst(world: World, task: Row)
    ensures FirstTry(world, task, Born(task))
  {
  }

  // ---------------------------------------------------------------- every such death happens

  /** `n` attempts have failed in full and the loop is about to compare. */
  ghost function AfterAttempts(world: World, task: Row, n: nat): Life
    requires n >= task.attemptCount
  {
    var first := n == task.attemptCount;
    Life(task.(status := if first then task.status else Running, attemptCount := n),
         RecordsUpTo(world, task, task.attemptCount, n), Trying(if first then 0 else n), 0, 0)
  }

  /** The attempt under way once RUNNING is written. */
  ghost function UnderWay(world: World, task: Row, n: nat): Life
    requires n > task.attemptCount
  {
    Life(task.(status := Running, attemptCount := n), RecordsUpTo(world, task, task.attemptCount, n - 1),
         Launched, 0, 0)
  }

  lemma Begins(world: World, task: Row, n: nat)
    requires task.attemptCount <= n < Limit(task)
    ensures Next(world, Next(world, AfterAttempts(world, task, n), Step), Step) == UnderWay(world, task, n + 1)
  {
    hide RecordsUpTo;
  }

  /** A failing attempt leaves all its records and returns to the comparison. */
  lemma Fails(world: World, task: Row, n: nat)
    requires n > task.attemptCount && !Succeeds(world, task, n)
    ensures var l := Next(world, Next(world, UnderWay(world, task, n), Step), Step);
            if RecordsOf(world, task, n) == 1 then l == AfterAttempts(world, task, n)
            else Next(world, l, Step) == AfterAttempts(world, task, n)
  {
    OneMore(world, task, n - 1);
    hide RecordsUpTo;
  }

  /** Two more events. */
  lemma LiveTwice(world: World, l: Life, events: seq<Event>, e: Event, f: Event)
    ensures Live(world, l, events + [e] + [f]) == Next(world, Next(world, Live(world, l, events), e), f)
  {
    hide Next;
    LiveSnoc(world, l, events, e);
    LiveSnoc(world, l, events + [e], f);
  }

  lemma {:induction false} ReachAttempts(world: World, task: Row, n: nat) returns (events: seq<Event>)
    requires Startable(task.status) && task.attemptCount <= n <= Limit(task) && FailedBelow(world, task, n + 1)
    ensures Live(world, Born(task), events) == AfterAttempts(world, task, n)
    decreases n
  {
    hide Live, Next, AfterAttempts, UnderWay, Limit, RecordsOf, Succeeds;
    if n == task.attemptCount {
      events := [Call];
      FirstCall(world, task);
    } else {
      events := ReachAttempts(world, task, n - 1);
      Begins(world, task, n - 1);
      LiveTwice(world, Born(task), events, Step, Step);
      events := events + [Step] + [Step];
      Fails(world, task, n);
      LiveTwice(world, Born(task), events, Step, Step);
      events := events + [Step] + [Step];
      if RecordsOf(world, task, n) != 1 {
        LiveSnoc(world, Born(task), events, Step);
        events := events + [Step];
      }
    }
  }

  lemma FirstCall(world: World, task: Row)
    requires Startable(task.status)
    ensures Live(world, Born(task), [Call]) == AfterAttempts(world, task, task.attemptCount)
  {
    assert [Call][..0] == [];
    assert Live(world, Born(task), []) == Born(task);
  }

  // ---------------------------------------------------------------- the undisturbed life

  /** Where `Driver.RunTask` leaves a task: its first success, or all allowed attempts. */
  ghost predicate Outcome(world: World, task: Row, l: Life) {
    var last := l.row.attemptCount;
    && task.attemptCount <= last <= Limit(task)
    && (forall a :: task.attemptCount < a < last ==> !Succeeds(world, task, a))
    && (if Works(world, task) then task.attemptCount < last && Succeeds(world, task, last) else last == Limit(task))
    && l == Life(task.(status := if Works(world, task) then Completed else Blocked, attemptCount := last),
                 RecordsUpTo(world, task, task.attemptCount, last), Away, 0, 0)
  }

  /** A succeeding attempt leaves all its records and completes the task. */
  lemma Completes(world: World, task: Row, n: nat)
    requires task.attemptCount < n <= Limit(task) && Succeeds(world, task, n) && FailedBelow(world, task, n)
    ensures var l := Next(world, Next(world, Next(world, UnderWay(world, task, n), Step), Step), Step);
            Outcome(world, task, if task.verified then Next(world, l, Step) else l)
  {
    OneMore(world, task, n - 1);
    WorksAt(world, task, n);
    hide RecordsUpTo, Works, Limit;
  }

  lemma Exhausts(world: World, task: Row)
    requires FailedBelow(world, task, Limit(task) + 1)
    ensures Outcome(world, task, Next(world, Next(world, AfterAttempts(world, task, Limit(task)), Step), Step))
  {
    hide RecordsUpTo;
  }

  /**
   Without a death the protocol of durable writes ends where `Driver.RunTask` ends: same status, same
   count, same number of records.
   */
  lemma UndisturbedLife(world: World, task: Row) returns (events: seq<Event>)
    requires Startable(task.status)
    ensures Outcome(world, task, Live(world, Born(task), events))
  {
    events := FinishFrom(world, task, task.attemptCount);
  }

  lemma {:induction false} FinishFrom(world: World, task: Row, n: nat) returns (events: seq<Event>)
    requires Startable(task.status) && task.attemptCount <= n <= Limit(task) && FailedBelow(world, task, n + 1)
    ensures Outcome(world, task, Live(world, Born(task), events))
    decreases Limit(task) - n
  {
    hide Live, Next, AfterAttempts, UnderWay, Limit, Succeeds, Outcome;
    if n < Limit(task) && !Succeeds(world, task, n + 1) {
      events := FinishFrom(world, task, n + 1);
    } else {
      events := ReachAttempts(world, task, n);
      LiveTwice(world, Born(task), events, Step, Step);
      events := events + [Step] + [Step];
      if n == Limit(task) {
        Exhausts(world, task);
      } else {
        Begins(world, task, n);
        Completes(world, task, n + 1);
        LiveTwice(world, Born(task), events, Step, Step);
        LiveSnoc(world, Born(task), events + [Step] + [Step], Step);
        events := events + [Step] + [Step] + [Step];
        if task.verified {
          LiveSnoc(world, Born(task), events, Step);
          events := events + [Step];
        }
      }
    }
  }

  /** The life that a death leaves. */
  ghost function DeadAt(world: World, task: Row, c: nat, j: nat): Life
    requires task.attemptCount < c && j <= RecordsOf(world, task, c)
  {
    Life(task.(status := Running, attemptCount := c), RecordsLeft(world, task, c, j), Dead, 1,
         RecordsOf(world, task, c) - j)
  }

  lemma Dies(world: World, task: Row, c: nat, j: nat)
    requires task.attemptCount < c && j <= RecordsOf(world, task, c)
    ensures var l := UnderWay(world, task, c);
            DeadAt(world, task, c, j) ==
            match j
            case 0 => Next(world, l, Die)
            case 1 => Next(world, Next(world, l, Step), Die)
            case _ => Next(world, Next(world, Next(world, l, Step), Step), Die)
  {
    hide RecordsUpTo;
  }

  lemma ReachDeath(world: World, task: Row, c: nat, j: nat) returns (events: seq<Event>)
    requires Startable(task.status) && DeathAt(world, task, c, j)
    ensures Live(world, Born(task), events) == DeadAt(world, task, c, j)
  {
    hide Live, Next, AfterAttempts, UnderWay, DeadAt, Limit, Succeeds;
    assert FailedBelow(world, task, c - 1 + 1);
    events := ReachAttempts(world, task, c - 1);
    Begins(world, task, c - 1);
    LiveTwice(world, Born(task), events, Step, Step);
    events := events + [Step] + [Step];
    Dies(world, task, c, j);
    if j == 1 {
      LiveSnoc(world, Born(task), events, Step);
      events := events + [Step];
    } else if j != 0 {
      LiveTwice(world, Born(task), events, Step, Step);
      events := events + [Step] + [Step];
    }
    LiveSnoc(world, Born(task), events, Die);
    events := events + [Die];
  }

  /** Some run ends in a first death that leaves the row RUNNING with this count and these records. */
  ghost predicate CanDie(world: World, task: Row, c: nat, records: nat) {
    exists events ::
      var l := Live(world, Born(task), events);
      l.deaths == 1 && l.stage.Dead? && l.row.status == Running && l.row.attemptCount == c && l.records == records
  }

  /**
   A first death leaves a RUNNING row with count `c` exactly with the records of all attempts before `c`,
   which failed, and any initial part of the records of attempt `c`.
   */
  lemma DeathsExactly(world: World, task: Row, c: nat, records: nat)
    requires Startable(task.status)
    ensures CanDie(world, task, c, records) <==>
            exists j :: DeathAt(world, task, c, j) && records == RecordsLeft(world, task, c, j)
  {
    hide Live, RecordsLeft, FailedBelow, RecordsOf, Limit;
    if CanDie(world, task, c, records) {
      var events :| var l := Live(world, Born(task), events);
        l.deaths == 1 && l.stage.Dead? && l.row.status == Running && l.row.attemptCount == c && l.records == records;
      EveryFirstLife(world, task, events);
    }
    if j :| DeathAt(world, task, c, j) && records == RecordsLeft(world, task, c, j) {
      var events := ReachDeath(world, task, c, j);
      DeathMeans(world, task, c, j);
    }
  }

  lemma DeathMeans(world: World, task: Row, c: nat, j: nat)
    requires DeathAt(world, task, c, j)
    ensures var l := DeadAt(world, task, c, j);
            l.deaths == 1 && l.stage.Dead? && l.row.status == Running && l.row.attemptCount == c
            && l.records == RecordsLeft(world, task, c, j)
  {
  }

  // ---------------------------------------------------------------- what the restart makes of it

  /** The restart gives up although the attempt count has not reached the maximum. */
  predicate GivesUpEarly(l: Life) {
    l.row.attemptCount < l.row.maxAttempts && Reconciled(l.row, l.records).status == Failed
  }

  /** The restart makes the task startable although the attempt count has reached the maximum. */
  predicate GoesOnLate(l: Life) {
    l.row.attemptCount >= l.row.maxAttempts && Reconciled(l.row, l.records).status == Interrupted
  }

  /**
   After any number of deaths, on a row left RUNNING with count `c`: the records are those that all
   attempts begun would leave, less those cut off by deaths; the restart gives up too early exactly when
   `c < max <=` that number, and goes on too late exactly when that number `< max <= c`.
   */
  lemma ReconcileExact(world: World, task: Row, events: seq<Event>)
    requires var l := Live(world, Born(task), events); l.stage.Dead? && l.row.status == Running
    ensures var l := Live(world, Born(task), events);
            && l.row.attemptCount >= task.attemptCount
            && var left := RecordsUpTo(world, task, task.attemptCount, l.row.attemptCount) - l.lost;
               && l.records == left
               && (GivesUpEarly(l) <==> l.row.attemptCount < task.maxAttempts <= left)
               && (GoesOnLate(l) <==> left < task.maxAttempts <= l.row.attemptCount)
  {
    hide Live, RecordsUpTo;
    EveryLifeBalanced(world, task, events);
  }

  /** After a first death the part cut off is known: it is the rest of the last attempt. */
  lemma FirstRestartExactly(world: World, task: Row, events: seq<Event>) returns (j: nat)
    requires Startable(task.status)
    requires var l := Live(world, Born(task), events); l.deaths == 1 && l.stage.Dead? && l.row.status == Running
    ensures var l := Live(world, Born(task), events); var c := l.row.attemptCount;
            && DeathAt(world, task, c, j)
            && (GivesUpEarly(l) <==> c < task.maxAttempts <= RecordsLeft(world, task, c, j))
            && (GoesOnLate(l) <==> RecordsLeft(world, task, c, j) < task.maxAttempts <= c)
  {
    hide Live, RecordsUpTo, RecordsLeft, FailedBelow, RecordsOf, Limit;
    EveryFirstLife(world, task, events);
    EveryLifeBalanced(world, task, events);
    var l := Live(world, Born(task), events);
    j :| DeathAt(world, task, l.row.attemptCount, j) && l.records == RecordsLeft(world, task, l.row.attemptCount, j);
  }

  // ---------------------------------------------------------------- launches beyond the maximum

  /**
   From a death to the next attempt: it is numbered beyond the maximum exactly when the count had reached
   it and the row is startable again, which for a RUNNING row means fewer records than the maximum.
   */
  lemma OverrunExactly(world: World, l: Life)
    requires l.stage.Dead?
    ensures var t := Next(world, Next(world, Next(world, l, Restart), Call), Step); var max := l.row.maxAttempts;
            t.row.attemptCount == l.row.attemptCount + 1 && t.row.attemptCount > max <==>
            1 <= max <= l.row.attemptCount
            && if l.row.status == Running then l.records < max else Startable(l.row.status)
  {
  }

  function Max(a: int, b: int): int {
    if a > b then a else b
  }

  /** Room for one more attempt where a call may begin one. */
  ghost predicate Bounded(task: Row, l: Life) {
    var bound := Max(task.maxAttempts, task.attemptCount + 1) + l.deaths;
    && SameTask(task, l.row)
    && (task.maxAttempts <= 0 ==> l.row.attemptCount == task.attemptCount)
    && l.row.attemptCount <= bound
    && (l.stage.Dead? || l.stage == Trying(0) || (l.stage.Away? && Startable(l.row.status)) ==>
        l.row.attemptCount < bound)
    && (l.stage.Trying? ==> l.stage.attempt == 0 || l.stage.attempt == l.row.attemptCount)
  }

  lemma NextBounded(world: World, task: Row, l: Life, e: Event)
    requires Bounded(task, l)
    ensures Bounded(task, Next(world, l, e))
  {
    hide RecordsOf;
  }

  /**
   Each death buys at most one attempt beyond the maximum (or beyond the one attempt that a used-up count
   still gets); without a death there is none, and with a maximum of zero none at all.
   */
  lemma {:induction false} AttemptsBounded(world: World, task: Row, events: seq<Event>)
    ensures Bounded(task, Live(world, Born(task), events))
  {
    hide Bounded, Next;
    if events == [] {
      BornBounded(task);
    } else {
      AttemptsBounded(world, task, events[..|events| - 1]);
      NextBounded(world, task, Live(world, Born(task), events[..|events| - 1]), events[|events| - 1]);
    }
  }

  lemma BornBounded(task: Row)
    ensures Bounded(task, Born(task))
  {
  }

  /**
   The last allowed attempt is reached, and the attempts before it leave fewer records than the maximum:
   a death in the last attempt before its first record then leaves a row that the restart runs again.
   */
  ghost predicate Overruns(world: World, task: Row) {
    && task.maxAttempts >= 1 && FailedBelow(world, task, Limit(task))
    && RecordsUpTo(world, task, task.attemptCount, Limit(task) - 1) < task.maxAttempts
  }

  /** After one death and its restart no attempt beyond the last allowed one can begin. */
  ghost predicate Kept(task: Row, l: Life) {
    && SameTask(task, l.row) && l.row.attemptCount <= Limit(task)
    && ((l.stage.Away? && Startable(l.row.status)) || l.stage == Trying(0) ==>
          task.maxAttempts <= 0 || l.row.attemptCount < Limit(task))
    && (l.stage.Trying? && l.stage.attempt != 0 ==> l.stage.attempt == l.row.attemptCount > task.attemptCount)
    && (l.stage.Counted? || l.stage.Launched? || l.stage.Executed? || l.stage.Verified? ==>
          l.row.attemptCount > task.attemptCount)
  }

  lemma NextKept(world: World, task: Row, l: Life, e: Event)
    requires Kept(task, l) && !l.stage.Dead?
    ensures Kept(task, Next(world, l, e))
  {
    hide RecordsOf;
  }

  lemma RestartKept(world: World, task: Row, l: Life)
    requires Startable(task.status) && SameTask(task, l.row) && FirstDeath(world, task, l) && l.stage.Dead?
    requires l.row.attemptCount <= Limit(task)
    ensures Overruns(world, task) || Kept(task, Next(world, l, Restart))
  {
    var c := l.row.attemptCount;
    if l.row.status == Running {
      var j :| DeathAt(world, task, c, j) && l.records == RecordsLeft(world, task, c, j);
      hide RecordsUpTo, RecordsOf;
    } else if Startable(l.row.status) && l.row != task {
      assert RecordsUpTo(world, task, task.attemptCount, task.attemptCount) == 0;
    }
  }

  ghost predicate FirstRestart(world: World, task: Row, l: Life) {
    && (l.deaths <= 1 ==> l.row.attemptCount <= Limit(task))
    && (l.deaths == 1 && !l.stage.Dead? ==> Kept(task, l))
  }

  lemma NextFirstRestart(world: World, task: Row, l: Life, e: Event)
    requires Startable(task.status) && !Overruns(world, task)
    requires Balanced(world, task, l) && FirstLife(world, task, l) && Bounded(task, Next(world, l, e))
    requires FirstRestart(world, task, l)
    ensures FirstRestart(world, task, Next(world, l, e))
  {
    hide RecordsUpTo, RecordsOf, FirstTry, FirstDeath, Kept, Overruns;
    if l.deaths == 1 {
      if l.stage.Dead? {
        RestartKept(world, task, l);
      } else {
        NextKept(world, task, l, e);
        assert Kept(task, Next(world, l, e)) ==> Next(world, l, e).row.attemptCount <= Limit(task) by {
          KeptMeans(task, Next(world, l, e));
        }
      }
    }
  }

  lemma KeptMeans(task: Row, l: Life)
    ensures Kept(task, l) ==> l.row.attemptCount <= Limit(task)
  {
  }

  lemma {:induction false} EveryFirstRestart(world: World, task: Row, events: seq<Event>)
    requires Startable(task.status) && !Overruns(world, task)
    ensures FirstRestart(world, task, Live(world, Born(task), events))
  {
    hide Balanced, Next, FirstLife, FirstRestart, Bounded, Overruns;
    if events == [] {
      assert FirstRestart(world, task, Born(task)) by {
        BornRestart(world, task);
      }
    } else {
      var before := events[..|events| - 1];
      EveryFirstRestart(world, task, before);
      EveryLifeBalanced(world, task, before);
      EveryFirstLife(world, task, before);
      AttemptsBounded(world, task, events);
      NextFirstRestart(world, task, Live(world, Born(task), before), events[|events| - 1]);
    }
  }

  lemma BornRestart(world: World, task: Row)
    ensures FirstRestart(world, task, Born(task))
  {
  }

  /**
   One death lets some run begin an attempt beyond the last allowed one exactly when all earlier attempts
   fail and leave fewer records than the maximum.
   */
  lemma OneDeathOverruns(world: World, task: Row)
    requires Startable(task.status)
    ensures (exists events ::
             var l := Live(world, Born(task), events); l.deaths == 1 && l.row.attemptCount > Limit(task))
            <==> Overruns(world, task)
  {
    hide Live, Overruns, Next, Limit;
    if Overruns(world, task) {
      var events := ReachOverrun(world, task);
    } else {
      forall events
        ensures var l := Live(world, Born(task), events); !(l.deaths == 1 && l.row.attemptCount > Limit(task))
      {
        EveryFirstRestart(world, task, events);
      }
    }
  }

  lemma ReachOverrun(world: World, task: Row) returns (events: seq<Event>)
    requires Startable(task.status) && Overruns(world, task)
    ensures var l := Live(world, Born(task), events); l.deaths == 1 && l.row.attemptCount > Limit(task)
  {
    hide Live, Next, FailedBelow, RecordsUpTo, RecordsOf, DeadAt;
    events := ReachDeath(world, task, Limit(task), 0);
    LiveTwice(world, Born(task), events, Restart, Call);
    LiveSnoc(world, Born(task), events + [Restart] + [Call], Step);
    events := events + [Restart] + [Call] + [Step];
    Relaunches(world, task);
  }

  lemma Relaunches(world: World, task: Row)
    requires Overruns(world, task)
    ensures var l := Next(world, Next(world, Next(world, DeadAt(world, task, Limit(task), 0), Restart), Call), Step);
            l.deaths == 1 && l.row.attemptCount > Limit(task)
  {
    hide FailedBelow, RecordsUpTo, RecordsOf;
    OverrunExactly(world, DeadAt(world, task, Limit(task), 0));
  }

  lemma {:induction false} PlainRecords(world: World, task: Row, n: nat)
    ensures n <= RecordsUpTo(world, task, 0, n)
    ensures RecordsUpTo(world, task, 0, n) == n <==> forall a :: 0 < a <= n ==> RecordsOf(world, task, a) == 1
  {
    if n > 0 {
      PlainRecords(world, task, n - 1);
    }
  }

  /** For a task that starts at count zero: the executor fails on every attempt before the last allowed one. */
  lemma OverrunsFromZero(world: World, task: Row)
    requires task.attemptCount == 0
    ensures Overruns(world, task) <==>
            task.maxAttempts >= 1 && forall a :: 0 < a < task.maxAttempts ==> world(task.id, a).0 != 0
  {
    if task.maxAttempts >= 1 {
      PlainRecords(world, task, task.maxAttempts - 1);
      hide RecordsUpTo;
      if Overruns(world, task) {
        forall a | 0 < a < task.maxAttempts ensures world(task.id, a).0 != 0 {
          assert RecordsOf(world, task, a) == 1 && !Succeeds(world, task, a);
        }
      }
    }
  }

  /** A life in which `n` attempts in turn died before their first record. */
  function Restarted(task: Row, n: nat, lost: nat): Life {
    Life(task.(status := if n == 0 then task.status else Interrupted, attemptCount := task.attemptCount + n),
         0, Away, n, lost)
  }

  lemma OneDeath(world: World, task: Row, n: nat, lost: nat)
    requires Startable(task.status) && task.maxAttempts >= 1
    ensures var l := Next(world, Next(world, Next(world, Restarted(task, n, lost), Call), Step), Step);
            var t := Next(world, Next(world, l, Die), Restart);
            t == Restarted(task, n + 1, t.lost)
  {
    hide RecordsOf;
  }

  /** And there is no other bound: with enough deaths the attempts begun exceed any number. */
  lemma {:induction false} AttemptsUnbounded(world: World, task: Row, n: nat) returns (events: seq<Event>, lost: nat)
    requires Startable(task.status) && task.maxAttempts >= 1
    ensures Live(world, Born(task), events) == Restarted(task, n, lost)
  {
    hide Live, Next, Restarted;
    if n == 0 {
      events, lost := [], 0;
      NoneRestarted(world, task);
    } else {
      events, lost := AttemptsUnbounded(world, task, n - 1);
      OneDeath(world, task, n - 1, lost);
      LiveTwice(world, Born(task), events, Call, Step);
      LiveTwice(world, Born(task), events + [Call] + [Step], Step, Die);
      LiveSnoc(world, Born(task), events + [Call] + [Step] + [Step] + [Die], Restart);
      events := events + [Call] + [Step] + [Step] + [Die] + [Restart];
      lost := Live(world, Born(task), events).lost;
    }
  }

  lemma NoneRestarted(world: World, task: Row)
    ensures Live(world, Born(task), []) == Restarted(task, 0, 0)
  {
  }
}
