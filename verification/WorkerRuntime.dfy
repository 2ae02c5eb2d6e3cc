/** One worker: processing a job on real objects, with or without a queue. */
module WorkerRuntime {
  import opened Options
  import opened JobSteps
  import Breakers = CircuitBreaker
  import Cluster = JobCluster

  /** Everything a worker reads or writes while it processes a job; `runs` counts handler runs. */
  datatype Runtime = Runtime(
    queue: seq<Job>, enabled: bool, cancelMarks: set<string>,
    status: map<string, JobStatus>, breakers: BreakerTable, gauge: int, runs: map<string, nat>)

  function Rank(job: Job, maxRetries: int): nat {
    if maxRetries > job.attempts then maxRetries - job.attempts else 0
  }

  function NextRun(env: seq<HandlerRun>): HandlerRun {
    if env == [] then HandlerRun(true, false, 0.0, 0.0) else env[0]
  }

  function Count(runs: map<string, nat>, id: string): nat {
    if id in runs then runs[id] else 0
  }

  /** Without a queue no cancel marker can be read. */
  predicate IsCancelled(v: Runtime, id: string) {
    v.enabled && id in v.cancelMarks
  }

  function Enqueued(v: Runtime, job: Job): Runtime {
    if v.enabled then v.(queue := v.queue + [job]) else v
  }

  function Defer(v: Runtime, job: Job): Runtime {
    Enqueued(v.(status := v.status[job.id := Deferred]), job)
  }

  function Handled(v: Runtime, job: Job, run: HandlerRun): Runtime {
    v.(breakers := AfterRun(v.breakers, job, run),
       runs := if HasHandler(job.jobType) then v.runs[job.id := Count(v.runs, job.id) + 1] else v.runs)
  }

  function HandleFailure(v: Runtime, job: Job, poison: bool, env: seq<HandlerRun>, maxRetries: int): Runtime
    decreases Rank(job, maxRetries), 0
  {
    match AfterFailure(job, poison, maxRetries)
    case Buried(status) => v.(status := v.status[job.id := status])
    case Again(job') =>
      var v1 := v.(status := v.status[job.id := Retrying]);
      if v.enabled then Enqueued(v1, job') else Process(v1, job', env, maxRetries)
  }

  function Process(v: Runtime, job: Job, env: seq<HandlerRun>, maxRetries: int): Runtime
    decreases Rank(job, maxRetries), 1
  {
    if IsCancelled(v, job.id) then v.(status := v.status[job.id := Cancelled])
    else if BreakerOpen(v.breakers, job.jobType) then Defer(v, job)
    else
      var run := NextRun(env);
      var v1 := v.(gauge := v.gauge + 1, status := v.status[job.id := Running]);
      var v2 := Handled(v1, job, run);
      var v3 :=
        if Succeeds(job, run) then v2.(status := v2.status[job.id := Completed])
        else HandleFailure(v2, job, run.poison, if env == [] then [] else env[1..], maxRetries);
      v3.(gauge := v3.gauge - 1)
  }

  class RedisQueue {
    const enabled: bool
    var items: seq<Job>
    var cancelMarks: set<string>

    constructor (enabled: bool)
      ensures this.enabled == enabled && items == [] && cancelMarks == {}
    {
      this.enabled, items, cancelMarks := enabled, [], {};
    }

    /** Push at the tail; false stands for the RuntimeError of a queue without a client. */
    method Enqueue(job: Job) returns (ok: bool)
      modifies this
      ensures ok <==> enabled
      ensures items == (if enabled then old(items) + [job] else old(items)) && cancelMarks == old(cancelMarks)
    {
      if !enabled { return false; }
      items := items + [job];
      return true;
    }

    method Pop() returns (job: Option<Job>)
      modifies this
      ensures cancelMarks == old(cancelMarks)
      ensures if enabled && old(items) != [] then job == Some(old(items)[0]) && items == old(items)[1..]
              else job == None && items == old(items)
    {
      if !enabled || items == [] { return None; }
      job, items := Some(items[0]), items[1..];
    }

    method Cancel(id: string)
      modifies this
      ensures cancelMarks == (if enabled then old(cancelMarks) + {id} else old(cancelMarks)) && items == old(items)
    {
      if enabled { cancelMarks := cancelMarks + {id}; }
    }
  }

  class Worker {
    const queue: RedisQueue
    const forensic: Breakers.Breaker
    const geospatial: Breakers.Breaker
    const maxRetries: int
    var status: map<string, JobStatus>
    var activeJobs: int
    ghost var runs: map<string, nat>

    ghost predicate Valid() {
      forensic != geospatial && forensic.cfg == BREAKER_CONFIG && geospatial.cfg == BREAKER_CONFIG
    }

    ghost function View(): Runtime
      reads this, queue, forensic, geospatial
    {
      Runtime(queue.items, queue.enabled, queue.cancelMarks, status,
              map[Forensic := forensic.View(), Geospatial := geospatial.View()], activeJobs, runs)
    }

    constructor (queue: RedisQueue, maxRetries: int, now: real)
      ensures Valid() && fresh(forensic) && fresh(geospatial)
      ensures this.queue == queue && this.maxRetries == maxRetries
      ensures View() == Runtime(queue.items, queue.enabled, queue.cancelMarks, map[],
                                map[Forensic := Breakers.NewMetrics(now), Geospatial := Breakers.NewMetrics(now)],
                                0, map[])
    {
      this.queue, this.maxRetries := queue, maxRetries;
      forensic := new Breakers.Breaker(BREAKER_CONFIG, now);
      geospatial := new Breakers.Breaker(BREAKER_CONFIG, now);
      status, activeJobs, runs := map[], 0, map[];
    }

    method DeferJob(job: Job)
      modifies this`status, queue
      ensures View() == Defer(old(View()), job)
    {
      status := status[job.id := Deferred];
      if queue.enabled {
        var pushed := queue.Enqueue(job);
      }
    }

    /** The handler behind its breaker, or the failure of a job without one. */
    method RunHandler(job: Job, run: HandlerRun) returns (succeeded: bool)
      requires Valid() && !BreakerOpen(View().breakers, job.jobType)
      modifies this`runs, forensic, geospatial
      ensures succeeded == Succeeds(job, run)
      ensures View() == Handled(old(View()), job, run)
    {
      var ending := if run.succeeds then Breakers.Success else Breakers.Failure;
      var admitted;
      match job.jobType {
        case UnknownType => return false;
        case Forensic => admitted := forensic.Call(ending, run.entered, run.ended);
        case Geospatial => admitted := geospatial.Call(ending, run.entered, run.ended);
      }
      runs := runs[job.id := Count(runs, job.id) + 1];
      return run.succeeds;
    }

    method HandleJobFailure(job: Job, poison: bool, env: seq<HandlerRun>)
      requires Valid()
      modifies this, queue, forensic, geospatial
      ensures View() == HandleFailure(old(View()), job, poison, env, maxRetries)
      decreases Rank(job, maxRetries), 0
    {
      if poison {
        status := status[job.id := DeadLettered(true, job.attempts)];
        return;
      }
      var attempts := job.attempts + 1;
      if attempts < maxRetries {
        status := status[job.id := Retrying];
        var again := job.(attempts := attempts);
        if queue.enabled {
          var pushed := queue.Enqueue(again);
        } else {
          ProcessJob(again, env);
        }
      } else {
        status := status[job.id := DeadLettered(false, job.attempts)];
      }
    }

    method ProcessJob(job: Job, env: seq<HandlerRun>)
      requires Valid()
      modifies this, queue, forensic, geospatial
      ensures View() == Process(old(View()), job, env, maxRetries)
      decreases Rank(job, maxRetries), 1
    {
      hide HandleFailure, Handled, Defer, Succeeds;
      if queue.enabled && job.id in queue.cancelMarks {
        status := status[job.id := Cancelled];
        return;
      }
      if (job.jobType == Forensic && forensic.state == Breakers.Open) ||
         (job.jobType == Geospatial && geospatial.state == Breakers.Open)
      {
        DeferJob(job);
        return;
      }
      activeJobs := activeJobs + 1;
      status := status[job.id := Running];
      var run := NextRun(env);
      var succeeded := RunHandler(job, run);
      if succeeded {
        status := status[job.id := Completed];
      } else {
        HandleJobFailure(job, run.poison, if env == [] then [] else env[1..]);
      }
      activeJobs := activeJobs - 1;
    }

    /** One turn of the worker loop: take a job from the queue, if there is one, and process it. */
    method PollOnce(env: seq<HandlerRun>) returns (job: Option<Job>)
      requires Valid()
      modifies this, queue, forensic, geospatial
      ensures job == if queue.enabled && old(queue.items) != [] then Some(old(queue.items)[0]) else None
      ensures job.None? ==> View() == old(View())
      ensures job.Some? ==> View() == Process(old(View()).(queue := old(queue.items)[1..]), job.value, env, maxRetries)
    {
      job := queue.Pop();
      if job.Some? {
        ProcessJob(job.value, env);
      }
    }
  }

  /** However a job ends, and however often it is retried inline, the gauge of active jobs is back
      where it was. */
  lemma {:induction false} GaugeIsRestored(v: Runtime, job: Job, env: seq<HandlerRun>, maxRetries: int)
    ensures Process(v, job, env, maxRetries).gauge == v.gauge
    decreases Rank(job, maxRetries)
  {
    if !IsCancelled(v, job.id) && !BreakerOpen(v.breakers, job.jobType) && !Succeeds(job, NextRun(env)) && !v.enabled {
      var run := NextRun(env);
      var v2 := Handled(v.(gauge := v.gauge + 1, status := v.status[job.id := Running]), job, run);
      match AfterFailure(job, run.poison, maxRetries) {
        case Buried(_) =>
        case Again(job') =>
          var rest := if env == [] then [] else env[1..];
          GaugeIsRestored(v2.(status := v2.status[job.id := Retrying]), job', rest, maxRetries);
      }
    }
  }

  /** Without a queue a job is settled by the single call: completed, dead-lettered within its
      retry budget, or deferred behind an open breaker, in which case nothing holds it any more. */
  lemma {:induction false} InlineJobIsSettled(v: Runtime, job: Job, env: seq<HandlerRun>, maxRetries: int)
    requires !v.enabled
    ensures var v' := Process(v, job, env, maxRetries);
            && v'.queue == v.queue
            && job.id in v'.status
            && (Final(v'.status[job.id]) || v'.status[job.id].Deferred?)
            && !v'.status[job.id].Cancelled?
            && (v'.status[job.id].Deferred? ==> BreakerOpen(v'.breakers, job.jobType))
            && Count(v'.runs, job.id) <=
               Count(v.runs, job.id) + (if Rank(job, maxRetries) > 1 then Rank(job, maxRetries) else 1)
    decreases Rank(job, maxRetries)
  {
    if !BreakerOpen(v.breakers, job.jobType) && !Succeeds(job, NextRun(env)) {
      var run := NextRun(env);
      var v2 := Handled(v.(gauge := v.gauge + 1, status := v.status[job.id := Running]), job, run);
      match AfterFailure(job, run.poison, maxRetries) {
        case Buried(_) =>
        case Again(job') =>
          var rest := if env == [] then [] else env[1..];
          InlineJobIsSettled(v2.(status := v2.status[job.id := Retrying]), job', rest, maxRetries);
      }
    }
  }

  /** How many more failures in a row open the breaker of a job type. */
  function FailuresToOpen(m: Breakers.Metrics): nat {
    if m.state == Breakers.Open then 0
    else if m.state == Breakers.HalfOpen || m.failureCount >= BREAKER_CONFIG.failureThreshold - 1 then 1
    else BREAKER_CONFIG.failureThreshold - m.failureCount
  }

  /** The first `k` handler runs all fail and none of them is a poison pill. */
  predicate PlainFailures(env: seq<HandlerRun>, k: nat) {
    k <= |env| && forall i :: 0 <= i < k ==> !env[i].succeeds && !env[i].poison
  }

  /** Is an inline job lost? Everything here is known before the call. */
  predicate LostInline(v: Runtime, job: Job, env: seq<HandlerRun>, maxRetries: int) {
    HasHandler(job.jobType) &&
    var k := FailuresToOpen(v.breakers[job.jobType]);
    k == 0 || (job.attempts + k < maxRetries && PlainFailures(env, k))
  }

  /** One failure brings the breaker one failure closer to opening. */
  lemma FailureBringsCloser(breakers: BreakerTable, job: Job, run: HandlerRun)
    requires HasHandler(job.jobType) && !BreakerOpen(breakers, job.jobType) && !run.succeeds
    ensures FailuresToOpen(AfterRun(breakers, job, run)[job.jobType]) + 1 == FailuresToOpen(breakers[job.jobType])
  {
  }

  lemma PlainFailuresStep(env: seq<HandlerRun>, k: nat)
    requires k > 0 && env != []
    ensures PlainFailures(env, k) <==> !env[0].succeeds && !env[0].poison && PlainFailures(env[1..], k - 1)
  {
    if !env[0].succeeds && !env[0].poison && PlainFailures(env[1..], k - 1) {
      assert forall i :: 0 < i < k ==> env[i] == env[1..][i - 1];
    }
    if PlainFailures(env, k) {
      assert forall i :: 0 <= i < k - 1 ==> env[1..][i] == env[i + 1];
    }
  }

  /** Main result: without a queue a job is lost, deferred with nothing left that holds it, if and
      only if its breaker is open or the coming runs open it before the retry budget is used up. In
      every other case the call ends it. */
  lemma {:induction false} InlineJobIsLostExactlyWhen(v: Runtime, job: Job, env: seq<HandlerRun>, maxRetries: int)
    requires !v.enabled
    ensures var v' := Process(v, job, env, maxRetries);
            && job.id in v'.status && v'.queue == v.queue
            && (v'.status[job.id].Deferred? <==> LostInline(v, job, env, maxRetries))
            && (Final(v'.status[job.id]) <==> !LostInline(v, job, env, maxRetries))
    decreases Rank(job, maxRetries)
  {
    InlineJobIsSettled(v, job, env, maxRetries);
    if !BreakerOpen(v.breakers, job.jobType) && !Succeeds(job, NextRun(env)) {
      var run := NextRun(env);
      var rest := if env == [] then [] else env[1..];
      var v2 := Handled(v.(gauge := v.gauge + 1, status := v.status[job.id := Running]), job, run);
      if HasHandler(job.jobType) {
        FailureBringsCloser(v.breakers, job, run);
        PlainFailuresStep(env, FailuresToOpen(v.breakers[job.jobType]));
      }
      match AfterFailure(job, run.poison, maxRetries) {
        case Buried(_) =>
        case Again(job') =>
          hide AfterRun, FailuresToOpen, PlainFailures;
          InlineJobIsLostExactlyWhen(v2.(status := v2.status[job.id := Retrying]), job', rest, maxRetries);
      }
    }
  }

  /** With the default of three retries, two plain failures of a fresh job behind a breaker that has
      seen three are enough: the job ends DEFERRED and is in no queue. */
  lemma InlineJobIsLost(v: Runtime, job: Job, first: HandlerRun, second: HandlerRun)
    requires !v.enabled && job.jobType == Forensic && job.attempts == 0 && v.queue == []
    requires v.breakers[Forensic].state == Breakers.Closed && v.breakers[Forensic].failureCount == 3
    requires !first.succeeds && !first.poison && !second.succeeds && !second.poison
    ensures var v' := Process(v, job, [first, second], 3);
            job.id in v'.status && v'.status[job.id] == Deferred && v'.queue == []
  {
    hide Process;
    InlineJobIsLostExactlyWhen(v, job, [first, second], 3);
  }

  /** What worker `w` of a cluster sees. */
  ghost function Project<W>(c: Cluster.Cluster<W>, w: W, gauge: int): Runtime
    requires w in c.workers
  {
    Runtime(c.queue, true, c.cancelMarks, c.status, c.workers[w].breakers, gauge, c.runs)
  }

  /** Worker `w` has settled its job as processing it alone would have, and nothing else moved. */
  ghost predicate Agrees<W>(c: Cluster.Cluster<W>, c': Cluster.Cluster<W>, w: W, gauge: int, alone: Runtime)
    requires w in c.workers
  {
    && c'.workers.Keys == c.workers.Keys
    && Project(c', w, gauge) == alone
    && c'.workers[w].hand.Idle?
    && forall v :: v in c.workers && v != w ==> c'.workers[v] == c.workers[v]
  }

  lemma TurnedAwayAgrees<W>(c: Cluster.Cluster<W>, w: W, run: HandlerRun, gauge: int, maxRetries: int)
    requires w in c.workers && c.workers[w].hand.Holding?
    requires var job := c.workers[w].hand.job;
             job.id in c.cancelMarks || BreakerOpen(c.workers[w].breakers, job.jobType)
    ensures var job := c.workers[w].hand.job;
            var c1 := Cluster.Apply(c, Cluster.Begin(w), maxRetries);
            var c2 := Cluster.Apply(c1, Cluster.End(w, run), maxRetries);
            var c3 := Cluster.Apply(c2, Cluster.Requeue(w), maxRetries);
            Agrees(c, c3, w, gauge, Process(Project(c, w, gauge), job, [run], maxRetries))
  {
    hide AfterRun, BreakerOpen, Cluster.EndJob;
  }

  lemma EndAgrees<W>(c: Cluster.Cluster<W>, w: W, run: HandlerRun, gauge: int, maxRetries: int)
    requires w in c.workers && c.workers[w].hand.Handling?
    ensures var job := c.workers[w].hand.job;
            var c2 := Cluster.Apply(c, Cluster.End(w, run), maxRetries);
            var c3 := Cluster.Apply(c2, Cluster.Requeue(w), maxRetries);
            var v := Project(c, w, gauge).(breakers := AfterRun(c.workers[w].breakers, job, run));
            Agrees(c, c3, w, gauge,
                   if Succeeds(job, run) then v.(status := v.status[job.id := Completed])
                   else HandleFailure(v, job, run.poison, [], maxRetries))
  {
    hide AfterRun;
  }

  lemma HandledAgrees<W>(c: Cluster.Cluster<W>, w: W, run: HandlerRun, gauge: int, maxRetries: int)
    requires w in c.workers && c.workers[w].hand.Holding?
    requires var job := c.workers[w].hand.job;
             job.id !in c.cancelMarks && !BreakerOpen(c.workers[w].breakers, job.jobType)
    ensures var job := c.workers[w].hand.job;
            var c1 := Cluster.Apply(c, Cluster.Begin(w), maxRetries);
            var c2 := Cluster.Apply(c1, Cluster.End(w, run), maxRetries);
            var c3 := Cluster.Apply(c2, Cluster.Requeue(w), maxRetries);
            Agrees(c, c3, w, gauge, Process(Project(c, w, gauge), job, [run], maxRetries))
  {
    hide AfterRun, BreakerOpen, HandleFailure, Cluster.EndJob;
    var c1 := Cluster.Apply(c, Cluster.Begin(w), maxRetries);
    EndAgrees(c1, w, run, gauge + 1, maxRetries);
    assert [run][1..] == [];
  }

  /** Processing a job from a queue is what a worker of the cluster does in three steps with nothing
      in between, so whatever holds for every interleaving of those steps holds for real workers. */
  lemma ProcessIsThreeClusterSteps<W>(c: Cluster.Cluster<W>, w: W, run: HandlerRun, gauge: int, maxRetries: int)
    requires w in c.workers && c.workers[w].hand.Holding?
    ensures var c' := Cluster.Run(c, [Cluster.Begin(w), Cluster.End(w, run), Cluster.Requeue(w)], maxRetries);
            Agrees(c, c', w, gauge, Process(Project(c, w, gauge), c.workers[w].hand.job, [run], maxRetries))
  {
    hide Cluster.Apply, Process, Agrees;
    var job := c.workers[w].hand.job;
    if job.id in c.cancelMarks || BreakerOpen(c.workers[w].breakers, job.jobType) {
      TurnedAwayAgrees(c, w, run, gauge, maxRetries);
    } else {
      HandledAgrees(c, w, run, gauge, maxRetries);
    }
    RunThree(c, Cluster.Begin(w), Cluster.End(w, run), Cluster.Requeue(w), maxRetries);
  }

  lemma RunThree<W>(c: Cluster.Cluster<W>, s0: Cluster.Step<W>, s1: Cluster.Step<W>, s2: Cluster.Step<W>,
                    maxRetries: int)
    ensures Cluster.Run(c, [s0, s1, s2], maxRetries) ==
            Cluster.Apply(Cluster.Apply(Cluster.Apply(c, s0, maxRetries), s1, maxRetries), s2, maxRetries)
  {
    hide Cluster.Apply;
    var c1 := Cluster.Apply(c, s0, maxRetries);
    var c2 := Cluster.Apply(c1, s1, maxRetries);
    assert [s0, s1, s2][1..] == [s1, s2] && [s1, s2][1..] == [s2] && [s2][1..] == [];
    assert Cluster.Run(Cluster.Apply(c2, s2, maxRetries), [], maxRetries) == Cluster.Apply(c2, s2, maxRetries);
    assert Cluster.Run(c2, [s2], maxRetries) == Cluster.Apply(c2, s2, maxRetries);
    assert Cluster.Run(c1, [s1, s2], maxRetries) == Cluster.Run(c2, [s2], maxRetries);
  }
}
