/**
 The agent's ping scheduler (agent/main.go): which of the listed tasks are due now, given
 when each id was last run. An id is forgotten as soon as it is no longer listed.
 */
module PingScheduler {

  const DEFAULT_INTERVAL_SEC := 120
  const SECOND := 1_000_000_000

  /** `target` stands for the rest of the task. */
  datatype Task = Task(id: int, intervalSec: int, target: string)

  /** When each remembered id was last run, in nanoseconds. */
  type LastRuns = map<int, int>

  /** The task's own interval, else the agent's, else the default. */
  function Interval(task: Task, agentInterval: int): (d: int)
    ensures d >= SECOND
    ensures task.intervalSec >= 1 ==> d == task.intervalSec * SECOND
    ensures task.intervalSec < 1 <= agentInterval ==> d == agentInterval * SECOND
    ensures task.intervalSec < 1 && agentInterval < 1 ==> d == 2 * 60 * SECOND
  {
    var own := if task.intervalSec < 1 then agentInterval else task.intervalSec;
    (if own < 1 then DEFAULT_INTERVAL_SEC else own) * SECOND
  }

  predicate Due(task: Task, last: LastRuns, now: int, agentInterval: int) {
    task.id > 0 && !(task.id in last && now - last[task.id] < Interval(task, agentInterval))
  }

  /** The tasks emitted from a list, and the run times afterwards. */
  function Scan(tasks: seq<Task>, last: LastRuns, now: int, agentInterval: int): (seq<Task>, LastRuns) {
    if tasks == [] then ([], last)
    else
      var (due, runs) := Scan(tasks[..|tasks| - 1], last, now, agentInterval);
      var task := tasks[|tasks| - 1];
      if Due(task, runs, now, agentInterval) then (due + [task], runs[task.id := now]) else (due, runs)
  }

  function Listed(tasks: seq<Task>): set<int> { set t <- tasks | t.id > 0 :: t.id }

  function Emitted(tasks: seq<Task>, last: LastRuns, now: int, agentInterval: int): seq<Task> {
    Scan(tasks, last, now, agentInterval).0
  }

  function Remembered(tasks: seq<Task>, last: LastRuns, now: int, agentInterval: int): LastRuns {
    var runs := Scan(tasks, last, now, agentInterval).1;
    map id | id in runs && id in Listed(tasks) :: runs[id]
  }

  class PingTaskScheduler {
    var lastRunByTaskId: LastRuns

    constructor ()
      ensures lastRunByTaskId == map[]
    {
      lastRunByTaskId := map[];
    }

    method DueTasks(tasks: seq<Task>, now: int, agentInterval: int) returns (due: seq<Task>)
      modifies this
      ensures due == Emitted(tasks, old(lastRunByTaskId), now, agentInterval)
      ensures lastRunByTaskId == Remembered(tasks, old(lastRunByTaskId), now, agentInterval)
    {
      hide Interval, Listed;
      var seen: set<int> := {};
      due := [];
      NothingListed();
      for i := 0 to |tasks|
        invariant seen == Listed(tasks[..i])
        invariant (due, lastRunByTaskId) == Scan(tasks[..i], old(lastRunByTaskId), now, agentInterval)
      {
        assert tasks[..i + 1][..i] == tasks[..i];
        ListedAppend(tasks[..i], tasks[i]);
        assert tasks[..i + 1] == tasks[..i] + [tasks[i]];
        var task := tasks[i];
        if task.id <= 0 { continue; }
        seen := seen + {task.id};
        if task.id in lastRunByTaskId && now - lastRunByTaskId[task.id] < Interval(task, agentInterval) { continue; }
        lastRunByTaskId := lastRunByTaskId[task.id := now];
        due := due + [task];
      }
      assert tasks[..|tasks|] == tasks;
      ForgetAllBut(seen);
    }

    /** Drops the ids that the list no longer names. */
    method ForgetAllBut(seen: set<int>)
      modifies this
      ensures lastRunByTaskId == map id | id in old(lastRunByTaskId) && id in seen :: old(lastRunByTaskId)[id]
    {
      var ids := lastRunByTaskId.Keys;
      ghost var before := lastRunByTaskId;
      while ids != {}
        invariant ids <= before.Keys
        invariant lastRunByTaskId == map id | id in before && (id in ids || id in seen) :: before[id]
        decreases |ids|
      {
        NoMembersMeansEmpty(ids);
        var id :| id in ids;
        ids := ids - {id};
        if id !in seen { lastRunByTaskId := lastRunByTaskId - {id}; }
      }
    }
  }

  lemma NoMembersMeansEmpty(ids: set<int>)
    ensures (forall id: int :: id !in ids) ==> ids == {}
  {
    if forall id: int :: id !in ids { assert ids == {}; }
  }

  lemma NothingListed()
    ensures Listed([]) == {}
  {
  }

  lemma ListedAppend(tasks: seq<Task>, task: Task)
    ensures Listed(tasks + [task]) == Listed(tasks) + (if task.id > 0 then {task.id} else {})
  {
    assert forall t :: t in tasks + [task] <==> t in tasks || t == task;
  }

  // ----- One call -----

  ghost predicate EmitsId(due: seq<Task>, id: int) { exists i :: 0 <= i < |due| && due[i].id == id }

  /** The emitted tasks are listed, due, and of different ids. */
  ghost predicate EmitsDue(tasks: seq<Task>, last: LastRuns, now: int, agentInterval: int, due: seq<Task>) {
    && (forall i, j :: 0 <= i < j < |due| ==> due[i].id != due[j].id)
    && (forall i :: 0 <= i < |due| ==> due[i] in tasks && Due(due[i], last, now, agentInterval))
  }

  /** Exactly the emitted ids are marked as run now. */
  ghost predicate MarksEmitted(last: LastRuns, now: int, due: seq<Task>, runs: LastRuns) {
    forall id :: if EmitsId(due, id) then id in runs && runs[id] == now
                 else (id in runs <==> id in last) && (id in last ==> runs[id] == last[id])
  }

  /** Every due task has its id emitted. */
  ghost predicate EmitsAllDue(tasks: seq<Task>, last: LastRuns, now: int, agentInterval: int, due: seq<Task>) {
    forall t <- tasks :: EmitsId(due, t.id) || !Due(t, last, now, agentInterval)
  }

  ghost predicate ScanFacts(tasks: seq<Task>, last: LastRuns, now: int, agentInterval: int, due: seq<Task>,
      runs: LastRuns) {
    && EmitsDue(tasks, last, now, agentInterval, due)
    && MarksEmitted(last, now, due, runs)
    && EmitsAllDue(tasks, last, now, agentInterval, due)
  }

  lemma EmitsAppend(due: seq<Task>, task: Task, id: int)
    ensures EmitsId(due + [task], id) <==> EmitsId(due, id) || task.id == id
  {
    if EmitsId(due, id) {
      var i :| 0 <= i < |due| && due[i].id == id;
      assert (due + [task])[i].id == id;
    }
    if task.id == id { assert (due + [task])[|due|].id == id; }
  }

  lemma ScanSkips(tasks: seq<Task>, last: LastRuns, now: int, agentInterval: int, due: seq<Task>, runs: LastRuns,
      task: Task)
    requires ScanFacts(tasks, last, now, agentInterval, due, runs) && !Due(task, runs, now, agentInterval)
    ensures ScanFacts(tasks + [task], last, now, agentInterval, due, runs)
  {
    hide EmitsId;
    assert forall t :: t in tasks + [task] <==> t in tasks || t == task;
    assert EmitsId(due, task.id) || !Due(task, last, now, agentInterval);
  }

  lemma ScanEmits(tasks: seq<Task>, last: LastRuns, now: int, agentInterval: int, due: seq<Task>, runs: LastRuns,
      task: Task)
    requires ScanFacts(tasks, last, now, agentInterval, due, runs) && Due(task, runs, now, agentInterval)
    ensures ScanFacts(tasks + [task], last, now, agentInterval, due + [task], runs[task.id := now])
  {
    assert forall i :: 0 <= i < |due| ==> EmitsId(due, due[i].id);
    hide EmitsId;
    assert !EmitsId(due, task.id);
    assert EmitsDue(tasks + [task], last, now, agentInterval, due + [task]);
    forall id ensures EmitsId(due + [task], id) <==> EmitsId(due, id) || task.id == id { EmitsAppend(due, task, id); }
    hide Due;
    assert MarksEmitted(last, now, due + [task], runs[task.id := now]);
    assert forall t :: t in tasks + [task] <==> t in tasks || t == task;
  }

  lemma {:induction false} ScanKeepsFacts(tasks: seq<Task>, last: LastRuns, now: int, agentInterval: int)
    ensures var (due, runs) := Scan(tasks, last, now, agentInterval);
      ScanFacts(tasks, last, now, agentInterval, due, runs)
  {
    if tasks != [] {
      hide ScanFacts, Due;
      var n := |tasks| - 1;
      var (due, runs) := Scan(tasks[..n], last, now, agentInterval);
      ScanKeepsFacts(tasks[..n], last, now, agentInterval);
      if Due(tasks[n], runs, now, agentInterval)
        { ScanEmits(tasks[..n], last, now, agentInterval, due, runs, tasks[n]); }
      else { ScanSkips(tasks[..n], last, now, agentInterval, due, runs, tasks[n]); }
      assert tasks == tasks[..n] + [tasks[n]];
    }
  }

  // ----- Any run of calls -----

  datatype Call = Call(tasks: seq<Task>, now: int)

  ghost predicate ClockNeverGoesBack(calls: seq<Call>) {
    forall i, j :: 0 <= i < j < |calls| ==> calls[i].now <= calls[j].now
  }

  /** What the scheduler remembers after the first `n` calls. */
  ghost function Memory(calls: seq<Call>, n: nat, agentInterval: int): LastRuns
    requires n <= |calls|
  {
    if n == 0 then map[] else Remembered(calls[n - 1].tasks, Memory(calls, n - 1, agentInterval), calls[n - 1].now,
      agentInterval)
  }

  ghost function EmittedAt(calls: seq<Call>, k: nat, agentInterval: int): seq<Task>
    requires k < |calls|
  {
    Emitted(calls[k].tasks, Memory(calls, k, agentInterval), calls[k].now, agentInterval)
  }

  /** The id was run by call `j` and every call from then up to `k` listed it. */
  ghost predicate RunAndListedSince(calls: seq<Call>, j: nat, k: nat, agentInterval: int, id: int)
    requires k <= |calls|
  {
    j < k && EmitsId(EmittedAt(calls, j, agentInterval), id) && forall m :: j <= m < k ==> id in Listed(calls[m].tasks)
  }

  /** The remembered ids are exactly the positive ids the last call listed. */
  lemma RemembersListed(calls: seq<Call>, n: nat, agentInterval: int)
    requires 0 < n <= |calls|
    ensures Memory(calls, n, agentInterval).Keys == Listed(calls[n - 1].tasks)
  {
    hide Memory;
    var c, last := calls[n - 1], Memory(calls, n - 1, agentInterval);
    assert Memory(calls, n, agentInterval)
      == Remembered(c.tasks, last, c.now, agentInterval) by { UnfoldMemory(calls, n, agentInterval); }
    ScanKeepsFacts(c.tasks, last, c.now, agentInterval);
    var (due, runs) := Scan(c.tasks, last, c.now, agentInterval);
    forall id | id in Listed(c.tasks) ensures id in runs {
      var t :| t in c.tasks && t.id > 0 && t.id == id;
      if !EmitsId(due, id) { assert !Due(t, last, c.now, agentInterval); }
    }
  }

  lemma UnfoldMemory(calls: seq<Call>, n: nat, agentInterval: int)
    requires 0 < n <= |calls|
    ensures Memory(calls, n, agentInterval)
         == Remembered(calls[n - 1].tasks, Memory(calls, n - 1, agentInterval), calls[n - 1].now, agentInterval)
  {
  }

  /** One call changes the memory of an id it lists to now if it emits it, and otherwise not at all. */
  lemma CallMemory(calls: seq<Call>, n: nat, agentInterval: int, id: int)
    requires 0 < n <= |calls| && id in Listed(calls[n - 1].tasks)
    ensures var before, after := Memory(calls, n - 1, agentInterval), Memory(calls, n, agentInterval);
      id in after && if EmitsId(EmittedAt(calls, n - 1, agentInterval), id) then after[id] == calls[n - 1].now
                     else id in before && after[id] == before[id]
  {
    var c, last := calls[n - 1], Memory(calls, n - 1, agentInterval);
    RemembersListed(calls, n, agentInterval);
    ScanKeepsFacts(c.tasks, last, c.now, agentInterval);
  }

  /** The remembered time of an id is that of its newest run, since when it stayed listed. */
  lemma {:induction false} MemoryIsARun(calls: seq<Call>, n: nat, agentInterval: int, id: int) returns (j: nat)
    requires n <= |calls| && id in Memory(calls, n, agentInterval)
    ensures RunAndListedSince(calls, j, n, agentInterval, id) && Memory(calls, n, agentInterval)[id] == calls[j].now
  {
    assert n > 0;
    RemembersListed(calls, n, agentInterval);
    CallMemory(calls, n, agentInterval, id);
    if EmitsId(EmittedAt(calls, n - 1, agentInterval), id) {
      j := n - 1;
    } else {
      j := MemoryIsARun(calls, n - 1, agentInterval, id);
    }
  }

  lemma {:induction false} MemoryIsRecent(calls: seq<Call>, j: nat, n: nat, agentInterval: int, id: int)
    requires n <= |calls| && ClockNeverGoesBack(calls) && RunAndListedSince(calls, j, n, agentInterval, id)
    ensures id in Memory(calls, n, agentInterval) && Memory(calls, n, agentInterval)[id] >= calls[j].now
  {
    hide EmitsId, EmittedAt, Memory;
    CallMemory(calls, n, agentInterval, id);
    if j < n - 1 && !EmitsId(EmittedAt(calls, n - 1, agentInterval), id) {
      MemoryIsRecent(calls, j, n - 1, agentInterval, id);
    }
  }

  /** No call emits the same id twice, and it emits listed tasks only. */
  lemma EmittedOncePerCall(calls: seq<Call>, k: nat, agentInterval: int)
    requires k < |calls|
    ensures var due := EmittedAt(calls, k, agentInterval);
      && (forall i, j :: 0 <= i < j < |due| ==> due[i].id != due[j].id)
      && (forall i :: 0 <= i < |due| ==> due[i] in calls[k].tasks && due[i].id > 0)
  {
    ScanKeepsFacts(calls[k].tasks, Memory(calls, k, agentInterval), calls[k].now, agentInterval);
  }

  /** Two runs of an id that stayed listed are at least the later task's interval apart. */
  lemma RunsAreSpaced(calls: seq<Call>, j: nat, k: nat, agentInterval: int, task: Task)
    requires k < |calls| && ClockNeverGoesBack(calls) && RunAndListedSince(calls, j, k, agentInterval, task.id)
    requires task in EmittedAt(calls, k, agentInterval)
    ensures calls[k].now - calls[j].now >= Interval(task, agentInterval)
  {
    MemoryIsRecent(calls, j, k, agentInterval, task.id);
    hide Memory;
    ScanKeepsFacts(calls[k].tasks, Memory(calls, k, agentInterval), calls[k].now, agentInterval);
  }

  /**
   A listed task is run if its interval has passed since every run of its id that it stayed
   listed after, in particular if there was none.
   */
  lemma NoTaskStarves(calls: seq<Call>, k: nat, agentInterval: int, task: Task)
    requires k < |calls| && task in calls[k].tasks && task.id > 0
    requires forall j: nat | j < k && RunAndListedSince(calls, j, k, agentInterval, task.id) ::
               calls[k].now - calls[j].now >= Interval(task, agentInterval)
    ensures EmitsId(EmittedAt(calls, k, agentInterval), task.id)
  {
    var last := Memory(calls, k, agentInterval);
    if task.id in last { var j := MemoryIsARun(calls, k, agentInterval, task.id); }
    hide Memory;
    ScanKeepsFacts(calls[k].tasks, last, calls[k].now, agentInterval);
  }
}
