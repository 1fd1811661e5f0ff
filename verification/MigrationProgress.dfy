/** The progress of migrations that is persisted with them, over starts, failures and crashes. */
module MigrationProgress {
  import opened Outcomes
  import opened Migration

  /** A migration: whether it needs the database to itself, and whether this version can still run it. */
  datatype Step = Step(blocking: bool, supported: bool, description: string)

  const MARK_DONE := 9_999_999

  /** A read-only instance must wait exactly while a blocking migration is outstanding. */
  method MigrationStateBlocked(steps: seq<Step>, next: nat) returns (blocked: bool)
    ensures blocked <==> exists i :: next <= i < |steps| && steps[i].blocking
  {
    var i := next;
    while i < |steps|
      invariant next <= i
      invariant forall j | next <= j < i && j < |steps| :: !steps[j].blocking
    {
      if steps[i].blocking {
        return true;
      }
      i := i + 1;
    }
    return false;
  }

  ghost predicate Blocked(steps: seq<Step>, next: nat) {
    exists i :: next <= i < |steps| && steps[i].blocking
  }

  function TaskFor(steps: seq<Step>, i: nat): Task
    requires i < |steps|
  {
    Task(i, steps[i].blocking, steps[i].description)
  }

  /** The tasks for the outstanding migrations, then one that marks all as done. */
  function Available(steps: seq<Step>, next: nat): seq<Task> {
    if next >= |steps| then []
    else
      seq(|steps| - next, k requires 0 <= k < |steps| - next => TaskFor(steps, next + k))
      + [Task(MARK_DONE, false, "Mark migrations done")]
  }

  /** Task by task: the ids in order, the marking task last, and a task blocks exactly if its migration does. */
  ghost predicate IsTaskList(steps: seq<Step>, next: nat, tasks: seq<Task>) {
    && |tasks| == (if next < |steps| then |steps| - next + 1 else 0)
    && (forall k | 0 <= k < |tasks| ::
          && tasks[k].id == (if next + k < |steps| then next + k else 9_999_999)
          && (tasks[k].dbUnavailable <==> next + k < |steps| && steps[next + k].blocking)
          && (next + k < |steps| ==> tasks[k].description == steps[next + k].description))
  }

  lemma TaskList(steps: seq<Step>, next: nat)
    ensures IsTaskList(steps, next, Available(steps, next))
  {
    var tasks := Available(steps, next);
    forall k | 0 <= k < |tasks| && next + k < |steps| ensures tasks[k] == TaskFor(steps, next + k) {}
  }

  method MakeTasks(steps: seq<Step>, next: nat) returns (tasks: seq<Task>)
    ensures tasks == Available(steps, next) && IsTaskList(steps, next, tasks)
  {
    TaskList(steps, next);
    tasks := [];
    var nextMigration := next;
    while nextMigration < |steps|
      invariant next <= nextMigration
      invariant next <= |steps| ==> nextMigration <= |steps|
      invariant next > |steps| ==> nextMigration == next
      invariant |tasks| == nextMigration - next
      invariant forall k | 0 <= k < |tasks| :: next + k < |steps| && tasks[k] == TaskFor(steps, next + k)
    {
      tasks := tasks + [Task(nextMigration, steps[nextMigration].blocking, steps[nextMigration].description)];
      nextMigration := nextMigration + 1;
    }
    if |tasks| > 0 {
      tasks := tasks + [Task(MARK_DONE, false, "Mark migrations done")];
    }
  }

  /** The running process: the number it started from, how many tasks are done, its copy of the migration
      state, whether it has closed its channel, and whether it has stopped. */
  datatype Process = Process(from: nat, done: nat, memory: nat, closed: bool, stopped: bool)

  /** The transaction of a migration that its process did not live to see the end of, and the number that
      was persisted then. */
  datatype Orphan = Orphan(migration: nat, base: nat)

  /** What the database holds (None before the first write), every migration ever committed in order,
      the process, if there is one, and the transactions of dead processes that may still commit. */
  datatype State = State(persisted: Option<nat>, committed: seq<nat>, process: Option<Process>, orphans: set<Orphan>)

  datatype Event =
    | Start
    | Advance              // the runner takes up its next task, closing the channel first if it is time
    | Success              // a migration's database transaction commits and its handler returns
    | Failure              // the handler fails without having committed
    | LostReply            // the transaction commits but the handler reports an error
    | Finish               // all tasks are done
    | Crash
    | LateCommit(o: Orphan) | LateAbort(o: Orphan)

  function Next(s: State): nat {
    if s.persisted.Some? then s.persisted.value else 0
  }

  /** The persisted state and the list of committed migrations after task `k` of a process commits. */
  ghost function CommitTask(steps: seq<Step>, s: State, p: Process): State {
    if p.from + p.done < |steps| then
      s.(persisted := Some(p.memory + 1), committed := s.committed + [p.from + p.done])
    else
      s.(persisted := Some(|steps|))
  }

  ghost predicate MayRun(steps: seq<Step>, p: Process) {
    p.from + p.done < |steps| ==> steps[p.from + p.done].supported
  }

  /** The process after its task is done. */
  ghost function Done(steps: seq<Step>, p: Process): Process {
    p.(done := p.done + 1, memory := if p.from + p.done < |steps| then p.memory + 1 else p.memory)
  }

  /** A step of the runner, which works on its next task or has none left. */
  ghost function RunnerStep(steps: seq<Step>, s: State, p: Process, e: Event): State {
    var tasks := Available(steps, p.from);
    if p.done >= |tasks| then
      if e == Finish then s.(process := Some(p.(closed := true, stopped := true))) else s
    else if e == Advance then
      if tasks[p.done].id > LastBlocking(tasks) then s.(process := Some(p.(closed := true))) else s
    else if e == Success && MayRun(steps, p) then
      CommitTask(steps, s, p).(process := Some(Done(steps, p)))
    else if e == LostReply && MayRun(steps, p) then
      CommitTask(steps, s, p).(process := Some(p.(stopped := true)))
    else if e == Failure then s.(process := Some(p.(stopped := true)))
    else s
  }

  ghost predicate Live(s: State) {
    s.process.Some? && !s.process.value.stopped
  }

  /** The transaction a crash leaves behind: that of the migration the process is working on. */
  ghost function LeftBehind(steps: seq<Step>, s: State): set<Orphan> {
    if Live(s) && s.process.value.memory < |steps| && steps[s.process.value.memory].supported
    then {Orphan(s.process.value.memory, Next(s))} else {}
  }

  /** A late transaction commits only if nobody has changed the migration state since it began: all
      transactions are serializable. */
  ghost function CommitLate(s: State, o: Orphan): State {
    if o in s.orphans && o.base == Next(s)
    then s.(persisted := Some(o.migration + 1), committed := s.committed + [o.migration], orphans := s.orphans - {o})
    else s
  }

  ghost function Apply(steps: seq<Step>, s: State, e: Event): State {
    match e
    case Start =>
      if s.process.Some? || !Ascending(Available(steps, Next(s))) then s
      else s.(process := Some(Process(Next(s), 0, Next(s), false, false)))
    case Crash => s.(process := None, orphans := s.orphans + LeftBehind(steps, s))
    case LateCommit(o) => CommitLate(s, o)
    case LateAbort(o) => s.(orphans := s.orphans - {o})
    case _ => if Live(s) then RunnerStep(steps, s, s.process.value, e) else s
  }

  function Upto(n: nat): seq<nat> {
    seq(n, k => k)
  }

  ghost function StateAfter(steps: seq<Step>, start: State, events: seq<Event>): State {
    if events == [] then start
    else Apply(steps, StateAfter(steps, start, events[..|events| - 1]), events[|events| - 1])
  }

  /** A database whose committed migrations are the first ones, and neither a process nor its traces. */
  ghost predicate Initial(s: State) {
    s.process.None? && s.committed == Upto(Next(s)) && s.orphans == {}
  }

  // ---------------------------------------------------------------- the invariant

  /** The first `n` migrations in order, each at least once. */
  ghost predicate InOrder(c: seq<nat>, n: nat) {
    if c == [] then n == 0
    else
      var front := c[..|c| - 1];
      n > 0 && c[|c| - 1] == n - 1 && (InOrder(front, n - 1) || InOrder(front, n))
  }

  lemma InOrderSnoc(c: seq<nat>, n: nat, k: nat)
    requires InOrder(c, n) && (k == n || k + 1 == n)
    ensures InOrder(c + [k], k + 1)
  {
    assert (c + [k])[..|c|] == c;
  }

  lemma {:induction false} InOrderUpto(n: nat)
    ensures InOrder(Upto(n), n)
  {
    if n > 0 {
      InOrderUpto(n - 1);
      assert Upto(n)[..n - 1] == Upto(n - 1);
    }
  }

  /** What that means: nothing from `n` on, nothing left out, nothing before an earlier one. */
  lemma {:induction false} InOrderMeans(c: seq<nat>, n: nat)
    requires InOrder(c, n)
    ensures forall k: nat :: k in c <==> k < n
    ensures forall i, j | 0 <= i < j < |c| :: c[i] <= c[j]
  {
    if c != [] {
      var front := c[..|c| - 1];
      InOrderMeans(front, if InOrder(front, n - 1) then n - 1 else n);
      assert c == front + [c[|c| - 1]];
      assert forall i | 0 <= i < |front| :: front[i] in front;
    }
  }

  /** Each once is the same as no more than `n` commits. */
  lemma {:induction false} EachOnce(c: seq<nat>, n: nat)
    requires InOrder(c, n)
    ensures |c| >= n && (|c| == n <==> c == Upto(n))
  {
    if c != [] {
      var front := c[..|c| - 1];
      if InOrder(front, n - 1) {
        EachOnce(front, n - 1);
        assert c == front + [n - 1];
        assert Upto(n) == Upto(n - 1) + [n - 1];
      } else {
        EachOnce(front, n);
      }
    }
  }

  ghost function Position(steps: seq<Step>, p: Process): nat {
    if p.from >= |steps| || p.from + p.done <= |steps| then p.from + p.done else |steps|
  }

  /** A process knows the number that is persisted, unless a late commit has just moved it on by one. */
  ghost predicate ProcessOk(steps: seq<Step>, s: State, p: Process) {
    var tasks := Available(steps, p.from);
    && Ascending(tasks) && p.done <= |tasks|
    && (!p.stopped ==>
          && p.memory == Position(steps, p)
          && (Next(s) == p.memory || (Next(s) == p.memory + 1 && p.memory < |steps|))
          && forall o | o in s.orphans :: o.migration <= p.memory)
    && Next(s) >= p.from
    && (p.closed ==> !Blocked(steps, Next(s)))
  }

  ghost predicate OrphanOk(steps: seq<Step>, s: State, o: Orphan) {
    o.base <= Next(s) && o.migration < |steps| && (o.migration == o.base || o.migration + 1 == o.base)
  }

  ghost predicate Inv(steps: seq<Step>, s: State) {
    && InOrder(s.committed, Next(s))
    && (s.process.Some? ==> ProcessOk(steps, s, s.process.value))
    && forall o {:trigger OrphanOk(steps, s, o)} | o in s.orphans :: OrphanOk(steps, s, o)
  }

  lemma AvailableLength(steps: seq<Step>, next: nat)
    ensures |Available(steps, next)| == if next >= |steps| then 0 else |steps| - next + 1
  {}

  /** Past the last blocking task, no blocking migration is outstanding. */
  lemma NoneOutstanding(steps: seq<Step>, from: nat, k: nat)
    requires var tasks := Available(steps, from); Ascending(tasks) && k < |tasks| && tasks[k].id > LastBlocking(tasks)
    ensures !Blocked(steps, from + k)
  {
    var tasks := Available(steps, from);
    PastBlocking(tasks, k);
    forall i | from + k <= i < |steps| ensures !steps[i].blocking {
      assert tasks[i - from] == TaskFor(steps, i);
    }
  }

  /** The runner closes its channel before a task exactly when no blocking migration is outstanding, except
      before migration 0: the id 0 also stands for "no blocking task". */
  lemma CloseExact(steps: seq<Step>, from: nat, k: nat)
    requires Ascending(Available(steps, from)) && k < |Available(steps, from)|
    ensures var tasks := Available(steps, from);
            tasks[k].id > LastBlocking(tasks) <==> !Blocked(steps, from + k) && from + k > 0
  {
    var tasks := Available(steps, from);
    TaskList(steps, from);
    LastBlockingIsTask(tasks);
    if tasks[k].id > LastBlocking(tasks) {
      NoneOutstanding(steps, from, k);
      if AllBlockingBefore(tasks, 0) {
        assert LastBlocking(tasks) == 0;
      }
    }
  }

  /** So in every run the writer's readers are let in as soon as they may be, once migration 0 is done. */
  lemma ClosesInTime(steps: seq<Step>, start: State, events: seq<Event>)
    requires Initial(start) && Live(StateAfter(steps, start, events))
    ensures var s := StateAfter(steps, start, events);
            var p := s.process.value;
            p.done < |Available(steps, p.from)| ==>
              (Apply(steps, s, Advance).process.value.closed <==>
               p.closed || (!Blocked(steps, p.from + p.done) && p.from + p.done > 0))
  {
    RunInv(steps, start, events);
    var p := StateAfter(steps, start, events).process.value;
    if p.done < |Available(steps, p.from)| {
      CloseExact(steps, p.from, p.done);
    }
  }

  /** A single migration that blocks nobody keeps the channel open until it is done. */
  lemma FirstKeepsOpen(description: string)
    ensures var steps := [Step(false, true, description)];
            var s := Apply(steps, State(None, [], None, {}), Start);
            && !Blocked(steps, 0) && Live(s) && Apply(steps, s, Advance) == s && !s.process.value.closed
  {
    var steps := [Step(false, true, description)];
    var tasks := Available(steps, 0);
    TaskList(steps, 0);
    assert Ascending(tasks);
    CloseExact(steps, 0, 0);
  }

  lemma CommitInv(steps: seq<Step>, s: State, p: Process)
    requires Inv(steps, s) && s.process == Some(p) && !p.stopped && p.done < |Available(steps, p.from)|
    ensures var t := CommitTask(steps, s, p);
            && InOrder(t.committed, Next(t))
            && Next(t) == (if p.from + p.done < |steps| then p.memory + 1 else Next(s))
            && Next(s) <= Next(t)
  {
    AvailableLength(steps, p.from);
    if p.from + p.done < |steps| {
      InOrderSnoc(s.committed, Next(s), p.memory);
    }
  }

  /** Closing the channel past the last blocking task. */
  lemma CloseInv(steps: seq<Step>, s: State, p: Process)
    requires Inv(steps, s) && s.process == Some(p) && !p.stopped && p.done < |Available(steps, p.from)|
    requires Available(steps, p.from)[p.done].id > LastBlocking(Available(steps, p.from))
    ensures Inv(steps, s.(process := Some(p.(closed := true))))
  {
    AvailableLength(steps, p.from);
    NoneOutstanding(steps, p.from, p.done);
    FewerOutstanding(steps, p.from + p.done, Next(s));
    SameOrphans(steps, s, s.(process := Some(p.(closed := true))));
  }

  lemma FewerOutstanding(steps: seq<Step>, m: nat, n: nat)
    requires m <= n
    ensures Blocked(steps, n) ==> Blocked(steps, m)
  {}

  /** A task's commit, with or without the reply that moves the runner on. */
  lemma TaskInv(steps: seq<Step>, s: State, p: Process, q: Process)
    requires Inv(steps, s) && s.process == Some(p) && !p.stopped && p.done < |Available(steps, p.from)|
    requires q == p.(stopped := true) || q == Done(steps, p)
    ensures Inv(steps, CommitTask(steps, s, p).(process := Some(q)))
  {
    AvailableLength(steps, p.from);
    CommitInv(steps, s, p);
    FewerOutstanding(steps, Next(s), Next(CommitTask(steps, s, p)));
    SameOrphans(steps, s, CommitTask(steps, s, p).(process := Some(q)));
  }

  /** Ending the process, and closing the channel when nothing is left to do. */
  lemma StopInv(steps: seq<Step>, s: State, p: Process, closes: bool)
    requires Inv(steps, s) && s.process == Some(p) && !p.stopped
    requires closes ==> p.done >= |Available(steps, p.from)|
    ensures Inv(steps, s.(process := Some(p.(closed := p.closed || closes, stopped := true))))
  {
    AvailableLength(steps, p.from);
    SameOrphans(steps, s, s.(process := Some(p.(closed := p.closed || closes, stopped := true))));
  }

  lemma SameOrphans(steps: seq<Step>, s: State, t: State)
    requires Inv(steps, s) && t.orphans <= s.orphans && Next(s) <= Next(t)
    ensures forall o {:trigger OrphanOk(steps, t, o)} | o in t.orphans :: OrphanOk(steps, t, o)
  {
    forall o | o in t.orphans ensures OrphanOk(steps, t, o) {
      assert OrphanOk(steps, s, o);
    }
  }

  lemma RunnerInv(steps: seq<Step>, s: State, p: Process, e: Event)
    requires Inv(steps, s) && s.process == Some(p) && !p.stopped
    ensures Inv(steps, RunnerStep(steps, s, p, e))
  {
    var tasks := Available(steps, p.from);
    if p.done >= |tasks| {
      StopInv(steps, s, p, true);
    } else if e == Advance {
      if tasks[p.done].id > LastBlocking(tasks) {
        CloseInv(steps, s, p);
      }
    } else if e == Success {
      TaskInv(steps, s, p, Done(steps, p));
    } else if e == LostReply {
      TaskInv(steps, s, p, p.(stopped := true));
    } else {
      StopInv(steps, s, p, false);
    }
  }

  lemma LateInv(steps: seq<Step>, s: State, o: Orphan)
    requires Inv(steps, s)
    ensures Inv(steps, CommitLate(s, o))
  {
    var t := CommitLate(s, o);
    if t != s {
      assert OrphanOk(steps, s, o);
      InOrderSnoc(s.committed, Next(s), o.migration);
      FewerOutstanding(steps, Next(s), Next(t));
      forall x | x in t.orphans ensures OrphanOk(steps, t, x) {
        assert OrphanOk(steps, s, x);
      }
    }
  }

  lemma StartInv(steps: seq<Step>, s: State)
    requires Inv(steps, s)
    ensures Inv(steps, Apply(steps, s, Start))
  {
    var t := Apply(steps, s, Start);
    AvailableLength(steps, Next(s));
    forall o | o in t.orphans ensures OrphanOk(steps, t, o) && o.migration <= Next(s) {
      assert OrphanOk(steps, s, o);
    }
  }

  lemma CrashInv(steps: seq<Step>, s: State)
    requires Inv(steps, s)
    ensures Inv(steps, Apply(steps, s, Crash))
  {
    var t := Apply(steps, s, Crash);
    forall o | o in t.orphans ensures OrphanOk(steps, t, o) {
      if o in s.orphans {
        assert OrphanOk(steps, s, o);
      }
    }
  }

  lemma StepInv(steps: seq<Step>, s: State, e: Event)
    requires Inv(steps, s)
    ensures Inv(steps, Apply(steps, s, e))
  {
    match e
    case Start => StartInv(steps, s);
    case Crash => CrashInv(steps, s);
    case LateCommit(o) => LateInv(steps, s, o);
    case LateAbort(o) =>
      forall x | x in s.orphans - {o} ensures OrphanOk(steps, Apply(steps, s, e), x) {
        assert OrphanOk(steps, s, x);
      }
    case _ =>
      if Live(s) {
        RunnerInv(steps, s, s.process.value, e);
      }
  }

  lemma {:induction false} RunInv(steps: seq<Step>, start: State, events: seq<Event>)
    requires Initial(start)
    ensures Inv(steps, StateAfter(steps, start, events))
  {
    if events == [] {
      InOrderUpto(Next(start));
    } else {
      RunInv(steps, start, events[..|events| - 1]);
      StepInv(steps, StateAfter(steps, start, events[..|events| - 1]), events[|events| - 1]);
    }
  }

  /** Over any starts, failures, lost replies, crashes and late commits: the migrations committed so far
      are exactly the first `NextMigration` ones, none left out, none before an earlier one; and while a
      writer's channel is closed no blocking migration is outstanding in the persisted state. */
  lemma ProgressInOrder(steps: seq<Step>, start: State, events: seq<Event>)
    requires Initial(start)
    ensures var s := StateAfter(steps, start, events);
            && (forall k: nat :: k in s.committed <==> k < Next(s))
            && (forall i, j | 0 <= i < j < |s.committed| :: s.committed[i] <= s.committed[j])
            && (s.process.Some? && s.process.value.closed ==> !Blocked(steps, Next(s)))
  {
    RunInv(steps, start, events);
    var s := StateAfter(steps, start, events);
    InOrderMeans(s.committed, Next(s));
  }

  // ---------------------------------------------------------------- each once

  /** The step commits a migration that is committed already: the one a live process is working on, after a
      late commit of the same, or a late one after such a process. */
  ghost predicate Recommits(steps: seq<Step>, s: State, e: Event) {
    match e
    case LateCommit(o) => o in s.orphans && o.base == Next(s) && o.migration < Next(s)
    case _ =>
      && (e == Success || e == LostReply) && Live(s)
      && var p := s.process.value;
         p.done < |Available(steps, p.from)| && MayRun(steps, p) && p.memory < Next(s)
  }

  ghost function Excess(s: State): int {
    |s.committed| - Next(s)
  }

  lemma ExcessStep(steps: seq<Step>, s: State, e: Event)
    requires Inv(steps, s)
    ensures Excess(Apply(steps, s, e)) == Excess(s) + if Recommits(steps, s, e) then 1 else 0
  {
    if e.LateCommit? && e.o in s.orphans {
      assert OrphanOk(steps, s, e.o);
    } else if Live(s) {
      AvailableLength(steps, s.process.value.from);
    }
  }

  ghost predicate NeverRecommits(steps: seq<Step>, start: State, events: seq<Event>) {
    events == [] ||
    var front := events[..|events| - 1];
    NeverRecommits(steps, start, front) && !Recommits(steps, StateAfter(steps, start, front), events[|events| - 1])
  }

  lemma {:induction false} ExcessOfRun(steps: seq<Step>, start: State, events: seq<Event>)
    requires Initial(start)
    ensures Excess(StateAfter(steps, start, events)) >= 0
    ensures Excess(StateAfter(steps, start, events)) == 0 <==> NeverRecommits(steps, start, events)
  {
    if events != [] {
      var front := events[..|events| - 1];
      ExcessOfRun(steps, start, front);
      RunInv(steps, start, front);
      ExcessStep(steps, StateAfter(steps, start, front), events[|events| - 1]);
    }
  }

  /** Each migration is committed once exactly in the runs in which no late commit and a process that did
      not see it commit the same one. */
  lemma ProgressIsExact(steps: seq<Step>, start: State, events: seq<Event>)
    requires Initial(start)
    ensures var s := StateAfter(steps, start, events);
            s.committed == Upto(Next(s)) <==> NeverRecommits(steps, start, events)
  {
    var s := StateAfter(steps, start, events);
    RunInv(steps, start, events);
    EachOnce(s.committed, Next(s));
    ExcessOfRun(steps, start, events);
  }

  /** A transaction of a dead process could commit now. */
  ghost predicate Pending(s: State) {
    exists o :: o in s.orphans && o.base == Next(s)
  }

  /** A live process knows the persisted number and has no pending transaction beside it; otherwise only the
      next migration is pending. */
  ghost predicate Calm(steps: seq<Step>, s: State) {
    && Inv(steps, s)
    && (Live(s) ==> s.process.value.memory == Next(s) && !Pending(s))
    && (forall o | o in s.orphans && o.base == Next(s) :: o.migration == Next(s))
  }

  /** A runner that knows the persisted number still knows it after its next step. */
  lemma RunnerMoves(steps: seq<Step>, s: State, p: Process, e: Event)
    requires p.memory == Next(s) && p.memory == Position(steps, p) && !p.stopped && s.process == Some(p)
    ensures var t := RunnerStep(steps, s, p, e);
            && t.orphans == s.orphans && Next(s) <= Next(t)
            && (Live(t) ==> t.process.value.memory == Next(t))
  {
    AvailableLength(steps, p.from);
  }

  lemma CalmRunner(steps: seq<Step>, s: State, p: Process, e: Event)
    requires Calm(steps, s) && s.process == Some(p) && !p.stopped
    ensures Calm(steps, RunnerStep(steps, s, p, e))
  {
    RunnerInv(steps, s, p, e);
    RunnerMoves(steps, s, p, e);
    NonePending(steps, s, RunnerStep(steps, s, p, e));
  }

  /** What was not pending does not become so. */
  lemma NonePending(steps: seq<Step>, s: State, t: State)
    requires Inv(steps, s) && !Pending(s) && t.orphans <= s.orphans && Next(s) <= Next(t)
    ensures !Pending(t)
  {
    forall o | o in t.orphans ensures o.base != Next(t) {
      assert OrphanOk(steps, s, o);
    }
  }

  lemma CalmLate(steps: seq<Step>, s: State, o: Orphan)
    requires Calm(steps, s)
    ensures Calm(steps, CommitLate(s, o)) && !Recommits(steps, s, LateCommit(o))
  {
    LateInv(steps, s, o);
    var t := CommitLate(s, o);
    if t != s {
      forall x | x in t.orphans ensures x.base != Next(t) {
        assert OrphanOk(steps, s, x);
      }
    }
  }

  lemma CalmStep(steps: seq<Step>, s: State, e: Event)
    requires Calm(steps, s) && (e == Start ==> !Pending(s))
    ensures Calm(steps, Apply(steps, s, e)) && !Recommits(steps, s, e)
  {
    match e
    case Start => StartInv(steps, s);
    case Crash => CrashInv(steps, s);
    case LateCommit(o) => CalmLate(steps, s, o);
    case LateAbort(o) => SameOrphans(steps, s, Apply(steps, s, e));
    case _ =>
      if Live(s) {
        CalmRunner(steps, s, s.process.value, e);
      }
  }

  /** Every start waits until no transaction of a dead process is pending. */
  ghost predicate CarefulStarts(steps: seq<Step>, start: State, events: seq<Event>) {
    events == [] ||
    var front := events[..|events| - 1];
    && CarefulStarts(steps, start, front)
    && (events[|events| - 1] == Start ==> !Pending(StateAfter(steps, start, front)))
  }

  lemma {:induction false} CarefulRun(steps: seq<Step>, start: State, events: seq<Event>)
    requires Initial(start) && CarefulStarts(steps, start, events)
    ensures Calm(steps, StateAfter(steps, start, events)) && NeverRecommits(steps, start, events)
  {
    if events == [] {
      RunInv(steps, start, events);
    } else {
      var front := events[..|events| - 1];
      CarefulRun(steps, start, front);
      CalmStep(steps, StateAfter(steps, start, front), events[|events| - 1]);
    }
  }

  /** With such starts every migration is committed once, whatever else happens. */
  lemma CarefulIsExact(steps: seq<Step>, start: State, events: seq<Event>)
    requires Initial(start) && CarefulStarts(steps, start, events)
    ensures var s := StateAfter(steps, start, events); s.committed == Upto(Next(s))
  {
    CarefulRun(steps, start, events);
    ProgressIsExact(steps, start, events);
  }

  lemma StateAfterSnoc(steps: seq<Step>, start: State, events: seq<Event>, e: Event)
    ensures StateAfter(steps, start, events + [e]) == Apply(steps, StateAfter(steps, start, events), e)
  {
    assert (events + [e])[..|events|] == events;
  }

  lemma {:induction false} SameExcess(steps: seq<Step>, s: State, events: seq<Event>)
    requires Calm(steps, s) && Start !in events
    ensures Calm(steps, StateAfter(steps, s, events)) && Excess(StateAfter(steps, s, events)) == Excess(s)
  {
    if events != [] {
      var n := |events| - 1;
      assert events[n] in events && forall e | e in events[..n] :: e in events;
      SameExcess(steps, s, events[..n]);
      var t := StateAfter(steps, s, events[..n]);
      CalmStep(steps, t, events[n]);
      ExcessStep(steps, t, events[n]);
    }
  }

  /** A start may lead to a migration that is committed twice exactly when a transaction of a dead process is
      pending: then that one commits late, and the new process commits the same again. */
  lemma StartIsSafe(steps: seq<Step>, s: State)
    requires Calm(steps, s) && s.process.None? && Next(s) < |steps| && steps[Next(s)].supported
    requires Ascending(Available(steps, Next(s)))
    ensures (forall events | Start !in events ::
               Excess(StateAfter(steps, Apply(steps, s, Start), events)) == Excess(s)) <==> !Pending(s)
  {
    var t := Apply(steps, s, Start);
    if Pending(s) {
      var o :| o in s.orphans && o.base == Next(s);
      Overtaken(steps, s, o);
      assert Start !in [LateCommit(o), Success];
    } else {
      CalmStep(steps, s, Start);
      forall events | Start !in events ensures Excess(StateAfter(steps, t, events)) == Excess(s) {
        SameExcess(steps, t, events);
      }
    }
  }

  lemma Overtaken(steps: seq<Step>, s: State, o: Orphan)
    requires Calm(steps, s) && s.process.None? && Next(s) < |steps| && steps[Next(s)].supported
    requires Ascending(Available(steps, Next(s))) && o in s.orphans && o.base == Next(s)
    ensures Excess(StateAfter(steps, Apply(steps, s, Start), [LateCommit(o), Success])) == Excess(s) + 1
  {
    var t := Apply(steps, s, Start);
    StartInv(steps, s);
    AvailableLength(steps, Next(s));
    ExcessStep(steps, s, Start);
    TwoSteps(steps, t, LateCommit(o), Success);
    LateInv(steps, t, o);
    ExcessStep(steps, t, LateCommit(o));
    ExcessStep(steps, CommitLate(t, o), Success);
  }

  lemma TwoSteps(steps: seq<Step>, s: State, e: Event, f: Event)
    ensures StateAfter(steps, s, [e, f]) == Apply(steps, Apply(steps, s, e), f)
  {
    StateAfterSnoc(steps, s, [], e);
    StateAfterSnoc(steps, s, [] + [e], f);
    assert [] + [e] + [f] == [e, f];
  }

  // ---------------------------------------------------------------- a run that completes

  /** A start followed by k tasks that succeed. */
  function Undisturbed(k: nat): seq<Event> {
    if k == 0 then [Start] else Undisturbed(k - 1) + [Success]
  }

  ghost function Progressed(steps: seq<Step>, n: nat, k: nat): nat {
    if n + k <= |steps| then n + k else |steps|
  }

  /** The writer started at migration n has done k tasks. */
  ghost predicate Reached(steps: seq<Step>, n: nat, k: nat, s: State) {
    s.process == Some(Process(n, k, Progressed(steps, n, k), false, false)) && Next(s) == Progressed(steps, n, k)
  }

  lemma SuccessStep(steps: seq<Step>, s: State, n: nat, k: nat)
    requires n + k <= |steps| && n < |steps| && (n + k < |steps| ==> steps[n + k].supported)
    requires Reached(steps, n, k, s)
    ensures Reached(steps, n, k + 1, Apply(steps, s, Success))
  {
    AvailableLength(steps, n);
  }

  lemma StartStep(steps: seq<Step>, start: State)
    requires Initial(start) && Next(start) < |steps| <= MARK_DONE
    ensures Reached(steps, Next(start), 0, Apply(steps, start, Start))
  {
    var tasks := Available(steps, Next(start));
    AvailableLength(steps, Next(start));
    forall i | 0 <= i < |tasks| ensures tasks[i].id == if i < |tasks| - 1 then Next(start) + i else MARK_DONE {
      if i < |tasks| - 1 {
        assert tasks[i] == TaskFor(steps, Next(start) + i);
      }
    }
    assert Ascending(tasks);
  }

  lemma {:induction false} UndisturbedIsCareful(steps: seq<Step>, start: State, k: nat)
    requires Initial(start)
    ensures CarefulStarts(steps, start, Undisturbed(k))
  {
    if k > 0 {
      UndisturbedIsCareful(steps, start, k - 1);
      assert Undisturbed(k)[..|Undisturbed(k)| - 1] == Undisturbed(k - 1);
    } else {
      assert Undisturbed(0)[..0] == [];
    }
  }

  /** Every migration was committed once, that is persisted, and the channel is closed. */
  ghost predicate IsComplete(steps: seq<Step>, s: State) {
    s.committed == Upto(|steps|) && Next(s) == |steps| && s.process.Some? && s.process.value.closed
  }

  ghost predicate AllSupported(steps: seq<Step>, from: nat) {
    forall i | from <= i < |steps| :: steps[i].supported
  }

  /** The state after a start and k successes. */
  ghost function RunState(steps: seq<Step>, start: State, k: nat): State {
    if k == 0 then Apply(steps, start, Start) else Apply(steps, RunState(steps, start, k - 1), Success)
  }

  lemma {:induction false} RunStateIs(steps: seq<Step>, start: State, k: nat)
    ensures RunState(steps, start, k) == StateAfter(steps, start, Undisturbed(k))
  {
    if k == 0 {
      StateAfterSnoc(steps, start, [], Start);
      assert [] + [Start] == Undisturbed(0);
    } else {
      RunStateIs(steps, start, k - 1);
      StateAfterSnoc(steps, start, Undisturbed(k - 1), Success);
    }
  }

  lemma {:induction false} SuccessfulRun(steps: seq<Step>, start: State, k: nat)
    requires Initial(start) && Next(start) < |steps| <= MARK_DONE
    requires AllSupported(steps, Next(start))
    requires k <= |steps| - Next(start) + 1
    ensures Reached(steps, Next(start), k, RunState(steps, start, k))
  {
    if k == 0 {
      StartStep(steps, start);
    } else {
      SuccessfulRun(steps, start, k - 1);
      SuccessStep(steps, RunState(steps, start, k - 1), Next(start), k - 1);
    }
  }

  lemma RunStateExact(steps: seq<Step>, start: State, k: nat)
    requires Initial(start)
    ensures var s := RunState(steps, start, k); s.committed == Upto(Next(s))
  {
    UndisturbedIsCareful(steps, start, k);
    CarefulIsExact(steps, start, Undisturbed(k));
    RunStateIs(steps, start, k);
  }

  lemma RunReached(steps: seq<Step>, start: State, k: nat)
    requires Initial(start) && Next(start) < |steps| <= MARK_DONE && AllSupported(steps, Next(start))
    requires k == |steps| - Next(start) + 1
    ensures var s := RunState(steps, start, k);
            Reached(steps, Next(start), k, s) && s.committed == Upto(Next(s))
  {
    SuccessfulRun(steps, start, k);
    RunStateExact(steps, start, k);
  }

  lemma Completed(steps: seq<Step>, s: State, n: nat)
    requires n < |steps| && Reached(steps, n, |steps| - n + 1, s) && s.committed == Upto(Next(s))
    ensures IsComplete(steps, Apply(steps, s, Finish))
  {
    AvailableLength(steps, n);
  }

  /** When every outstanding migration is supported, one undisturbed run completes them all, persists
      that, and closes the channel. */
  lemma RunCompletes(steps: seq<Step>, start: State, k: nat)
    requires Initial(start) && Next(start) < |steps| <= MARK_DONE && AllSupported(steps, Next(start))
    requires k == |steps| - Next(start) + 1
    ensures IsComplete(steps, Apply(steps, RunState(steps, start, k), Finish))
  {
    RunReached(steps, start, k);
    Completed(steps, RunState(steps, start, k), Next(start));
  }
}
