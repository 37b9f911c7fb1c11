/** The jobs one scheduler process runs: at most one per task, and a bounded number in all. */
module LocalJobs {

  type TaskId = nat
  type JobId = nat

  /** The registry, the jobs whose coroutine has not ended, and of every job ever started its task. */
  datatype Jobs = Jobs(registered: map<TaskId, JobId>, live: set<JobId>, task: map<JobId, TaskId>)

  /** Every live job is the one registered for its task. */
  ghost predicate Inv(j: Jobs, limit: nat) {
    && |j.registered| <= limit
    && (forall t :: t in j.registered ==> j.registered[t] in j.task && j.task[j.registered[t]] == t)
    && (forall x :: x in j.live ==> x in j.task && j.task[x] in j.registered && j.registered[j.task[x]] == x)
  }

  class Scheduler {
    const maxConcurrency: nat
    var registered: map<TaskId, JobId>
    var live: set<JobId>
    var task: map<JobId, TaskId>

    constructor (requested: nat)
      ensures maxConcurrency == (if requested < 1 then 1 else requested)
      ensures Value() == Jobs(map[], {}, map[]) && Inv(Value(), 2 * maxConcurrency)
    {
      maxConcurrency := if requested < 1 then 1 else requested;
      registered, live, task := map[], {}, map[];
    }

    ghost function Value(): Jobs
      reads this
    {
      Jobs(registered, live, task)
    }

    /** `job` is the identity of the coroutine the event loop would create. */
    method Enqueue(id: TaskId, job: JobId) returns (accepted: bool)
      requires Inv(Value(), 2 * maxConcurrency) && job !in task
      modifies this
      ensures Inv(Value(), 2 * maxConcurrency)
      ensures accepted <==> (forall x :: x in old(live) ==> old(task)[x] != id) && |old(registered)| < 2 * maxConcurrency
      ensures Value() == if accepted
                         then Jobs(old(registered)[id := job], old(live) + {job}, old(task)[job := id])
                         else old(Value())
    {
      if id in registered && registered[id] in live {
        return false;
      }
      if |registered| >= maxConcurrency * 2 {
        return false;
      }
      GrowsByOne(registered, id, job);
      registered, live, task := registered[id := job], live + {job}, task[job := id];
      accepted := true;
    }

    /** The coroutine of a job ends; its callback comes later. */
    method End(job: JobId)
      requires Inv(Value(), 2 * maxConcurrency)
      modifies this
      ensures Inv(Value(), 2 * maxConcurrency)
      ensures Value() == old(Value()).(live := old(live) - {job})
    {
      live := live - {job};
    }

    /** The callback of an ended job: a newer job of the same task stays registered. */
    method JobFinished(id: TaskId, job: JobId)
      requires Inv(Value(), 2 * maxConcurrency) && job !in live
      modifies this
      ensures Inv(Value(), 2 * maxConcurrency)
      ensures live == old(live) && task == old(task)
      ensures forall t :: t in registered <==> t in old(registered) && !(t == id && old(registered)[t] == job)
      ensures forall t :: t in registered ==> registered[t] == old(registered)[t]
    {
      if id in registered && registered[id] == job {
        ShrinksByOne(registered, id);
        registered := registered - {id};
      }
    }
  }

  lemma GrowsByOne(m: map<TaskId, JobId>, id: TaskId, job: JobId)
    ensures |m[id := job]| <= |m| + 1
  {
    assert m[id := job].Keys == m.Keys + {id};
    assert |m[id := job]| == |m[id := job].Keys| && |m| == |m.Keys|;
  }

  lemma ShrinksByOne(m: map<TaskId, JobId>, id: TaskId)
    ensures |m - {id}| <= |m|
  {
    FewerKeys((m - {id}).Keys, m.Keys);
  }

  lemma {:induction false} FewerKeys(a: set<TaskId>, b: set<TaskId>)
    requires a <= b
    ensures |a| <= |b|
  {
    if a != {} {
      var x :| x in a;
      FewerKeys(a - {x}, b - {x});
    }
  }

  /** No task has two live jobs, and no more than twice the concurrency are live at all. */
  lemma LiveJobsBounded(j: Jobs, limit: nat)
    requires Inv(j, limit)
    ensures forall x, y :: x in j.live && y in j.live && j.task[x] == j.task[y] ==> x == y
    ensures |j.live| <= limit
  {
    var ids := set x | x in j.live :: j.task[x];
    forall t | t in ids ensures t in j.registered {
    }
    FewerKeys(ids, j.registered.Keys);
    OnePerTask(j, j.live, ids);
  }

  lemma {:induction false} OnePerTask(j: Jobs, jobs: set<JobId>, ids: set<TaskId>)
    requires forall x :: x in jobs ==> x in j.task && j.task[x] in j.registered && j.registered[j.task[x]] == x
    requires ids == set x | x in jobs :: j.task[x]
    ensures |jobs| == |ids|
  {
    if jobs != {} {
      var x :| x in jobs;
      var rest := jobs - {x};
      assert ids - {j.task[x]} == set y | y in rest :: j.task[y];
      OnePerTask(j, rest, ids - {j.task[x]});
    }
  }
}
