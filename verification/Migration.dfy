/** Running database migrations while other threads read the status, and the progress that is
    persisted with them. */
module Migration {
  import opened Outcomes

  datatype Task = Task(id: int, dbUnavailable: bool, description: string)

  datatype Status = Status(error: Option<string>, text: string, running: bool, blocking: bool, taskId: int)

  /** What a concurrent reader may see: the status, the number of tasks that have succeeded by then,
      and how often the channel has been closed. */
  datatype Observation = Observation(status: Status, done: nat, closes: nat)

  ghost predicate Ascending(tasks: seq<Task>) {
    && (forall i | 0 <= i < |tasks| :: 0 <= tasks[i].id)
    && (forall i, j | 0 <= i < j < |tasks| :: tasks[i].id < tasks[j].id)
  }

  /** The id of the last task that needs the database to itself, 0 if there is none. */
  function LastBlocking(tasks: seq<Task>): int {
    if tasks == [] then 0
    else
      var n := |tasks| - 1;
      if tasks[n].dbUnavailable then tasks[n].id else LastBlocking(tasks[..n])
  }

  /** The first `k` tasks include every blocking one. */
  ghost predicate AllBlockingBefore(tasks: seq<Task>, k: nat) {
    forall i | k <= i < |tasks| :: !tasks[i].dbUnavailable
  }

  lemma {:induction false} LastBlockingBounds(tasks: seq<Task>, i: nat)
    requires Ascending(tasks) && i < |tasks| && tasks[i].dbUnavailable
    ensures tasks[i].id <= LastBlocking(tasks)
  {
    var n := |tasks| - 1;
    if i < n && !tasks[n].dbUnavailable {
      LastBlockingBounds(tasks[..n], i);
    }
  }

  lemma {:induction false} LastBlockingIsTask(tasks: seq<Task>)
    requires Ascending(tasks)
    ensures AllBlockingBefore(tasks, 0) ==> LastBlocking(tasks) == 0
    ensures !AllBlockingBefore(tasks, 0) ==>
              exists i :: 0 <= i < |tasks| && tasks[i].dbUnavailable && tasks[i].id == LastBlocking(tasks)
  {
    if tasks != [] {
      var n := |tasks| - 1;
      if !tasks[n].dbUnavailable {
        LastBlockingIsTask(tasks[..n]);
        if !AllBlockingBefore(tasks[..n], 0) {
          var i :| 0 <= i < n && tasks[..n][i].dbUnavailable && tasks[..n][i].id == LastBlocking(tasks[..n]);
          assert tasks[i].dbUnavailable;
        }
      }
    }
  }

  /** A task beyond the last blocking id comes after every blocking task. */
  lemma PastBlocking(tasks: seq<Task>, k: nat)
    requires Ascending(tasks) && k < |tasks| && tasks[k].id > LastBlocking(tasks)
    ensures AllBlockingBefore(tasks, k)
  {
    forall i | k <= i < |tasks| ensures !tasks[i].dbUnavailable {
      if tasks[i].dbUnavailable {
        LastBlockingBounds(tasks, i);
      }
    }
  }

  /** The index of the first task whose handler fails, or the number of tasks. */
  function FirstFailure(outcomes: seq<bool>): (k: nat)
    ensures k <= |outcomes|
    ensures forall i | 0 <= i < k :: outcomes[i]
    ensures k < |outcomes| ==> !outcomes[k]
  {
    if outcomes == [] || !outcomes[0] then 0 else 1 + FirstFailure(outcomes[1..])
  }

  const PENDING := "Migration pending"
  const COMPLETE := "Migrations Complete"
  const ACTIVE := "Active migration: "
  const FAILED := "error during migration "

  class Runner {
    var tasks: seq<Task>
    var blockUntil: int
    var state: Status
    ghost var done: nat                 // tasks whose handlers have succeeded
    ghost var closes: nat               // how often the channel was closed
    ghost var seen: seq<Observation>    // everything a reader could have seen so far

    ghost predicate Ready()
      reads this
    {
      Ascending(tasks) && blockUntil == LastBlocking(tasks)
    }

    /** In everything readers have seen the channel was closed at most once, and a status that does
        not block, or a closed channel, was seen only after every blocking task had succeeded. */
    ghost predicate ReadersSafe()
      reads this
    {
      forall o | o in seen :: o.closes <= 1 && (!o.status.blocking || o.closes > 0 ==> AllBlockingBefore(tasks, o.done))
    }

    ghost predicate Safe()
      reads this
    {
      ReadersSafe() && closes <= 1 && (!state.blocking || closes > 0 ==> AllBlockingBefore(tasks, done))
    }

    constructor ()
      ensures tasks == [] && done == closes == 0 && seen == [] && state == Status(None, PENDING, false, true, 0)
    {
      tasks, blockUntil, state := [], 0, Status(None, PENDING, false, true, 0);
      done, closes, seen := 0, 0, [];
    }

    /** Accepts a list of tasks exactly when their ids are non-negative and strictly ascending. */
    method SetTasks(migrationTasks: seq<Task>) returns (error: Option<string>)
      modifies this`tasks, this`blockUntil
      ensures error.None? <==> Ascending(migrationTasks)
      ensures error.None? ==> tasks == migrationTasks && Ready()
    {
      blockUntil := 0;
      var ids: set<int> := {};
      var lastID := 0;
      for k := 0 to |migrationTasks|
        invariant Ascending(migrationTasks[..k])
        invariant lastID == if k == 0 then 0 else migrationTasks[k - 1].id
        invariant ids == set i | 0 <= i < k :: migrationTasks[i].id
        invariant blockUntil == LastBlocking(migrationTasks[..k])
      {
        var m := migrationTasks[k];
        if lastID > m.id {
          return Some("migration IDs must be in ascending order");
        }
        lastID := m.id;
        if m.id in ids {
          return Some("duplicate ID detected");
        }
        ids := ids + {m.id};
        if m.dbUnavailable {
          blockUntil := m.id;
        }
        assert migrationTasks[..k + 1][..k] == migrationTasks[..k];
      }
      assert migrationTasks[..|migrationTasks|] == migrationTasks;
      tasks := migrationTasks;
      return None;
    }

    /** Sets the status under the lock; readers see the old or the new one. */
    method Update(error: Option<string>, text: string, running: bool, blocking: bool, id: int)
      requires Safe() && (!blocking ==> AllBlockingBefore(tasks, done))
      modifies this`state, this`seen
      ensures Safe() && state == Status(error, text, running, blocking, id)
      ensures seen == old(seen) + [Observation(state, done, closes)]
    {
      var s := state;
      if error != s.error {
        s := s.(error := error);
      }
      if text != s.text {
        s := s.(text := text);
      }
      if running != s.running {
        s := s.(running := running);
      }
      if blocking != s.blocking {
        s := s.(blocking := blocking);
      }
      if id != s.taskId {
        s := s.(taskId := id);
      }
      state := s;
      seen := seen + [Observation(state, done, closes)];
    }

    /** Closes the channel; a second close would be a fault. */
    method Close()
      requires Safe() && closes == 0 && AllBlockingBefore(tasks, done)
      modifies this`closes, this`seen
      ensures Safe() && closes == 1 && seen == old(seen) + [Observation(state, done, closes)]
    {
      closes := 1;
      seen := seen + [Observation(state, done, closes)];
    }

    /** A handler runs for a while; its success is a moment of its own. */
    method RunHandler(ok: bool)
      requires Safe()
      modifies this`done, this`seen
      ensures Safe() && done == old(done) + (if ok then 1 else 0)
      ensures seen == old(seen) + [Observation(state, done, closes)]
    {
      if ok {
        done := done + 1;
      }
      seen := seen + [Observation(state, done, closes)];
    }

    /** Runs all tasks in order until a handler fails. The channel is closed at most once: when all
        tasks succeed, and otherwise exactly if the failing task comes after the last blocking one.
        Whatever a reader sees that does not block, and a closed channel, mean that every blocking
        task has succeeded. */
    method RunMigrations(outcomes: seq<bool>)
      requires Ready() && |outcomes| == |tasks|
      requires done == closes == 0 && seen == [] && state.blocking
      modifies this`state, this`done, this`closes, this`seen
      ensures ReadersSafe() && closes <= 1
      ensures var k := FirstFailure(outcomes);
              && done == k
              && (closes == 1 <==> k == |tasks| || tasks[k].id > LastBlocking(tasks))
              && (if k == |tasks| then state == Status(None, COMPLETE, false, false, -1)
                  else state.error.Some? && !state.running && state.blocking && state.taskId == tasks[k].id)
    {
      var blocking := true;
      for i := 0 to |tasks|
        invariant done == i && FirstFailure(outcomes) >= i
        invariant blocking <==> closes == 0
        invariant closes == 1 ==> i > 0 && tasks[i - 1].id > blockUntil
        invariant Safe()
      {
        var task := tasks[i];
        if blocking && task.id > blockUntil {
          PastBlocking(tasks, i);
          blocking := false;
          Close();
        }
        Update(None, ACTIVE + task.description, true, blocking, task.id);
        RunHandler(outcomes[i]);
        if !outcomes[i] {
          blocking := true;
          Update(Some(FAILED + task.description), FAILED + task.description, false, blocking, task.id);
          return;
        }
      }
      Update(None, COMPLETE, false, false, -1);
      if blocking {
        Close();
      }
    }
  }
}
