/** What decides the end of a job and the state of a breaker: the handler runs alone, whatever the
    interleaving of the workers. */
module JobLaws {
  import opened JobSteps
  import opened JobCluster
  import Breakers = CircuitBreaker
  import Runtime = WorkerRuntime

  /** A handler run that ended: whose job, which worker, which type. */
  datatype Ended<W> = Ended(id: string, w: W, jobType: JobType, run: HandlerRun)

  /** The handler run that ends with a step, if one does. */
  ghost function EndedBy<W>(c: Cluster<W>, step: Step<W>): seq<Ended<W>> {
    if step.End? && step.w in c.workers && c.workers[step.w].hand.Handling?
    then [Ended(c.workers[step.w].hand.job.id, step.w, c.workers[step.w].hand.job.jobType, step.run)]
    else []
  }

  /** All handler runs that end in a run of the cluster, in order. */
  ghost function Log<W>(c: Cluster<W>, steps: seq<Step<W>>, maxRetries: int): seq<Ended<W>>
    decreases |steps|
  {
    if steps == [] then [] else EndedBy(c, steps[0]) + Log(Apply(c, steps[0], maxRetries), steps[1..], maxRetries)
  }

  /** The runs of one job. */
  ghost function Of<W>(log: seq<Ended<W>>, id: string): seq<HandlerRun> {
    if log == [] then []
    else
      var last := log[|log| - 1];
      Of(log[..|log| - 1], id) + if last.id == id then [last.run] else []
  }

  /** A run after which its job may be tried again. */
  predicate Plain(jobType: JobType, run: HandlerRun) {
    !(HasHandler(jobType) && run.succeeds) && !run.poison
  }

  predicate AllPlain(jobType: JobType, runs: seq<HandlerRun>) {
    forall i :: 0 <= i < |runs| ==> Plain(jobType, runs[i])
  }

  /** The job may run again: every run so far was a plain failure, and some budget is left. */
  predicate Undecided(jobType: JobType, runs: seq<HandlerRun>, maxRetries: int) {
    AllPlain(jobType, runs) && (runs == [] || |runs| < maxRetries)
  }

  /** The last run decided: it succeeded, was a poison pill, or used up the budget. */
  predicate Decided(jobType: JobType, runs: seq<HandlerRun>, maxRetries: int) {
    && runs != []
    && Undecided(jobType, runs[..|runs| - 1], maxRetries)
    && (!Plain(jobType, runs[|runs| - 1]) || |runs| >= maxRetries)
  }

  /** The status a decided job must have. */
  predicate Verdict(jobType: JobType, runs: seq<HandlerRun>, status: JobStatus)
    requires runs != []
  {
    var last := runs[|runs| - 1];
    if HasHandler(jobType) && last.succeeds then status.Completed?
    else status.DeadLettered? && status.poison == last.poison && status.recordedAttempts == |runs| - 1
  }

  ghost predicate OpenJob(types: map<string, JobType>, log: seq<Ended>, job: Job, maxRetries: int) {
    && job.id in types && types[job.id] == job.jobType
    && |Of(log, job.id)| == job.attempts
    && Undecided(job.jobType, Of(log, job.id), maxRetries)
  }

  ghost predicate ClosedJob(types: map<string, JobType>, log: seq<Ended>, id: string, status: JobStatus,
                         cancelMarks: set<string>, maxRetries: int)
  {
    && id in types
    && if status.Cancelled? then id in cancelMarks && Undecided(types[id], Of(log, id), maxRetries)
       else Decided(types[id], Of(log, id), maxRetries) && Verdict(types[id], Of(log, id), status)
  }

  /** Every job that waits or runs is undecided, and every job that ended did so by its verdict. */
  ghost predicate Settled<W>(c: Cluster<W>, log: seq<Ended>, maxRetries: int) {
    && (forall i :: 0 <= i < |c.queue| ==> OpenJob(c.types, log, c.queue[i], maxRetries))
    && (forall w :: w in c.workers && !c.workers[w].hand.Idle? ==>
          OpenJob(c.types, log, c.workers[w].hand.job, maxRetries))
    && (forall id :: id in c.status && Final(c.status[id]) ==>
          ClosedJob(c.types, log, id, c.status[id], c.cancelMarks, maxRetries))
    && (forall id :: id !in c.status ==> Of(log, id) == [])
    && c.types.Keys == c.status.Keys
  }

  lemma OneMoreRun<W>(log: seq<Ended<W>>, e: Ended<W>)
    ensures Of(log + [e], e.id) == Of(log, e.id) + [e.run]
    ensures forall id :: id != e.id ==> Of(log + [e], id) == Of(log, id)
  {
    assert (log + [e])[..|log|] == log;
  }

  /** Facts about other jobs do not notice that one job changes. */
  lemma OthersStay<W>(types: map<string, JobType>, types': map<string, JobType>, log: seq<Ended<W>>,
                      log': seq<Ended<W>>, id: string, marks: set<string>, maxRetries: int)
    requires forall k :: k != id ==> (k in types <==> k in types') && (k in types ==> types[k] == types'[k])
    requires forall k :: k != id ==> Of(log, k) == Of(log', k)
    ensures forall job: Job :: job.id != id && OpenJob(types, log, job, maxRetries) ==>
              OpenJob(types', log', job, maxRetries)
    ensures forall k, status :: k != id && ClosedJob(types, log, k, status, marks, maxRetries) ==>
              ClosedJob(types', log', k, status, marks, maxRetries)
  {
  }

  lemma {:induction false} SubmitKeepsSettled<W>(c: Cluster<W>, log: seq<Ended<W>>, id: string, jobType: JobType,
                                                 maxRetries: int)
    requires Conserved(c) && Settled(c, log, maxRetries) && id !in c.status
    ensures Settled(Apply(c, Submit(id, jobType), maxRetries), log, maxRetries)
  {
    UnknownIsNowhere(c, id);
    hide Conserved, Of;
    assert OpenJob(c.types[id := jobType], log, Job(id, jobType, 0), maxRetries);
    OthersStay(c.types, c.types[id := jobType], log, log, id, c.cancelMarks, maxRetries);
    hide OpenJob, ClosedJob;
  }

  lemma {:induction false} CancelKeepsSettled<W>(c: Cluster<W>, log: seq<Ended<W>>, id: string, maxRetries: int)
    requires Settled(c, log, maxRetries)
    ensures Settled(Apply(c, Cancel(id), maxRetries), log, maxRetries)
  {
    hide Of, Undecided, Decided, Verdict, OpenJob;
  }

  /** What beginning a job may do: it keeps the job in hand undecided, or cancels it. */
  lemma BeginChangesOne<W>(c: Cluster<W>, w: W)
    requires w in c.workers && c.workers[w].hand.Holding?
    ensures var job := c.workers[w].hand.job;
            var c' := BeginJob(c, w, job);
            && c'.queue == c.queue && c'.types == c.types && c'.cancelMarks == c.cancelMarks
            && w in c'.workers && c'.workers == c.workers[w := c'.workers[w]]
            && job.id in c'.status && c'.status == c.status[job.id := c'.status[job.id]]
            && (Final(c'.status[job.id]) ==> c'.status[job.id].Cancelled? && job.id in c.cancelMarks)
            && (!c'.workers[w].hand.Idle? ==> c'.workers[w].hand.job == job)
            && c'.workers[w].breakers == c.workers[w].breakers
  {
    hide BreakerOpen, Count;
  }

  lemma {:induction false} BeginKeepsSettled<W>(c: Cluster<W>, log: seq<Ended<W>>, w: W, maxRetries: int)
    requires Conserved(c) && Settled(c, log, maxRetries) && w in c.workers && c.workers[w].hand.Holding?
    ensures Settled(BeginJob(c, w, c.workers[w].hand.job), log, maxRetries)
  {
    OthersDiffer(c, w);
    BeginChangesOne(c, w);
    hide Conserved, BeginJob, Of, Undecided, Decided, Verdict;
    assert OpenJob(c.types, log, c.workers[w].hand.job, maxRetries);
    hide OpenJob;
  }

  lemma EndedJobSettles(types: map<string, JobType>, log: seq<Ended>, e: Ended, job: Job, maxRetries: int,
                        marks: set<string>)
    requires OpenJob(types, log, job, maxRetries) && e.id == job.id
    ensures var log' := log + [e];
            if Succeeds(job, e.run) then ClosedJob(types, log', job.id, Completed, marks, maxRetries)
            else
              match AfterFailure(job, e.run.poison, maxRetries)
              case Buried(status) =>
                !status.Cancelled? && Final(status) && ClosedJob(types, log', job.id, status, marks, maxRetries)
              case Again(job') => job'.id == job.id && OpenJob(types, log', job', maxRetries)
  {
    OneMoreRun(log, e);
    hide Of;
    var runs := Of(log, job.id);
    assert (runs + [e.run])[..|runs|] == runs;
  }

  /** What the end of a run changes: the status, hand and breakers of one job and its worker. */
  lemma EndChangesOne<W>(c: Cluster<W>, w: W, run: HandlerRun, maxRetries: int)
    requires w in c.workers && c.workers[w].hand.Handling?
    ensures var job := c.workers[w].hand.job;
            var c' := EndJob(c, w, job, run, maxRetries);
            && c'.queue == c.queue && c'.types == c.types && c'.cancelMarks == c.cancelMarks
            && w in c'.workers && c'.workers == c.workers[w := c'.workers[w]]
            && job.id in c'.status && c'.status == c.status[job.id := c'.status[job.id]]
            && if Succeeds(job, run) then c'.workers[w].hand.Idle? && c'.status[job.id] == Completed
               else
                 match AfterFailure(job, run.poison, maxRetries)
                 case Buried(status) => c'.workers[w].hand.Idle? && c'.status[job.id] == status
                 case Again(job') => c'.workers[w].hand == Sleeping(job') && c'.status[job.id] == Retrying
  {
    hide AfterRun, AfterFailure, Succeeds;
  }

  lemma {:induction false} EndKeepsSettled<W>(c: Cluster<W>, log: seq<Ended<W>>, w: W, run: HandlerRun,
                                              maxRetries: int)
    requires Conserved(c) && Settled(c, log, maxRetries) && w in c.workers && c.workers[w].hand.Handling?
    ensures Settled(EndJob(c, w, c.workers[w].hand.job, run, maxRetries), log + EndedBy(c, End(w, run)), maxRetries)
  {
    hide Conserved, Of, OpenJob, ClosedJob, EndJob, AfterFailure, Succeeds;
    var job := c.workers[w].hand.job;
    var e := Ended(job.id, w, job.jobType, run);
    OthersDiffer(c, w);
    EndChangesOne(c, w, run, maxRetries);
    EndedJobSettles(c.types, log, e, job, maxRetries, c.cancelMarks);
    OneMoreRun(log, e);
    OthersStay(c.types, c.types, log, log + [e], job.id, c.cancelMarks, maxRetries);
  }

  lemma {:induction false} ApplyKeepsSettled<W>(c: Cluster<W>, log: seq<Ended<W>>, step: Step<W>, maxRetries: int)
    requires Conserved(c) && Settled(c, log, maxRetries)
    ensures Settled(Apply(c, step, maxRetries), log + EndedBy(c, step), maxRetries)
  {
    hide Conserved, BeginJob, EndJob, Of, OpenJob, ClosedJob;
    assert EndedBy(c, step) == [] ==> log + EndedBy(c, step) == log;
    match step {
      case Submit(id, jobType) => if id !in c.status { SubmitKeepsSettled(c, log, id, jobType, maxRetries); }
      case Cancel(id) => CancelKeepsSettled(c, log, id, maxRetries);
      case Pop(_) =>
      case Begin(w) =>
        if w in c.workers && c.workers[w].hand.Holding? {
          hide Settled;
          BeginKeepsSettled(c, log, w, maxRetries);
        }
      case End(w, run) =>
        if w in c.workers && c.workers[w].hand.Handling? {
          hide Settled;
          EndKeepsSettled(c, log, w, run, maxRetries);
        }
      case Requeue(_) =>
    }
  }

  lemma {:induction false} RunKeepsSettled<W>(c: Cluster<W>, log: seq<Ended<W>>, steps: seq<Step<W>>, maxRetries: int)
    requires Conserved(c) && Settled(c, log, maxRetries)
    ensures Conserved(Run(c, steps, maxRetries))
    ensures Settled(Run(c, steps, maxRetries), log + Log(c, steps, maxRetries), maxRetries)
    decreases |steps|
  {
    hide Conserved, Settled, Apply, EndedBy;
    if steps == [] {
      assert log + Log(c, steps, maxRetries) == log;
    } else {
      ApplyKeepsConserved(c, steps[0], maxRetries);
      ApplyKeepsSettled(c, log, steps[0], maxRetries);
      var c1, ended := Apply(c, steps[0], maxRetries), EndedBy(c, steps[0]);
      RunKeepsSettled(c1, log + ended, steps[1..], maxRetries);
      assert log + ended + Log(c1, steps[1..], maxRetries) == log + (ended + Log(c1, steps[1..], maxRetries));
    }
  }

  /** The runs of a job decide its end. It is COMPLETED exactly if its last run succeeded. It is a
      dead letter exactly if its last run failed and was a poison pill or used up the budget; it is
      marked as a poison pill exactly if that last run was one, and records one attempt less than the
      runs it had. All earlier runs were plain failures within the budget. */
  predicate DecidedByRuns(jobType: JobType, runs: seq<HandlerRun>, status: JobStatus, maxRetries: int) {
    && (status.Completed? <==> runs != [] && HasHandler(jobType) && runs[|runs| - 1].succeeds)
    && (status.DeadLettered? <==>
          runs != [] && !(HasHandler(jobType) && runs[|runs| - 1].succeeds) &&
          (runs[|runs| - 1].poison || |runs| >= maxRetries))
    && (status.DeadLettered? ==>
          status.poison == runs[|runs| - 1].poison && status.recordedAttempts == |runs| - 1)
    && (forall i :: 0 <= i < |runs| - 1 ==> Plain(jobType, runs[i]) && i + 1 < maxRetries)
  }

  lemma UndecidedReads(jobType: JobType, runs: seq<HandlerRun>, status: JobStatus, maxRetries: int)
    requires Undecided(jobType, runs, maxRetries) && !status.Completed? && !status.DeadLettered?
    ensures DecidedByRuns(jobType, runs, status, maxRetries)
  {
    if runs != [] {
      assert Plain(jobType, runs[|runs| - 1]);
    }
  }

  lemma VerdictReads(jobType: JobType, runs: seq<HandlerRun>, status: JobStatus, maxRetries: int)
    requires Decided(jobType, runs, maxRetries) && Verdict(jobType, runs, status)
    ensures DecidedByRuns(jobType, runs, status, maxRetries)
  {
    assert forall i :: 0 <= i < |runs| - 1 ==> runs[..|runs| - 1][i] == runs[i];
  }

  /** Main result: whatever the interleaving, the handler runs of a job alone decide its end, and a
      job is CANCELLED only with its marker set. */
  lemma TheRunsDecideTheEnd<W>(breakers: map<W, BreakerTable>, steps: seq<Step<W>>, maxRetries: int, id: string)
    ensures var c := Run(Initial(breakers), steps, maxRetries);
            var runs := Of(Log(Initial(breakers), steps, maxRetries), id);
            id in c.status ==>
              && id in c.types
              && DecidedByRuns(c.types[id], runs, c.status[id], maxRetries)
              && (c.status[id].Cancelled? ==> id in c.cancelMarks)
  {
    hide Of, Log, Run, Initial;
    RunIsSettled(breakers, steps, maxRetries);
    var c := Run(Initial(breakers), steps, maxRetries);
    var log := Log(Initial(breakers), steps, maxRetries);
    if id in c.status {
      EndReads(c, log, id, maxRetries);
    }
  }

  lemma EndReads<W>(c: Cluster<W>, log: seq<Ended<W>>, id: string, maxRetries: int)
    requires Conserved(c) && Settled(c, log, maxRetries) && id in c.status
    ensures id in c.types && DecidedByRuns(c.types[id], Of(log, id), c.status[id], maxRetries)
    ensures c.status[id].Cancelled? ==> id in c.cancelMarks
  {
    hide Of, Settled, Conserved, Undecided, Decided, Verdict, DecidedByRuns;
    if Finished(c, id) {
      FinishedHasVerdict(c, log, id, maxRetries);
      if c.status[id].Cancelled? {
        UndecidedReads(c.types[id], Of(log, id), c.status[id], maxRetries);
      } else {
        VerdictReads(c.types[id], Of(log, id), c.status[id], maxRetries);
      }
    } else {
      PlacedIsOpen(c, log, id, maxRetries);
      UndecidedReads(c.types[id], Of(log, id), c.status[id], maxRetries);
    }
  }

  lemma InitialSettled<W>(breakers: map<W, BreakerTable>, maxRetries: int)
    ensures Settled(Initial(breakers), [], maxRetries)
  {
    assert forall id :: Of<W>([], id) == [];
    hide OpenJob, ClosedJob, Of;
    assert forall w :: w in Initial(breakers).workers ==> Initial(breakers).workers[w].hand.Idle?;
  }

  lemma RunIsSettled<W>(breakers: map<W, BreakerTable>, steps: seq<Step<W>>, maxRetries: int)
    ensures var c := Run(Initial(breakers), steps, maxRetries);
            Conserved(c) && Settled(c, Log(Initial(breakers), steps, maxRetries), maxRetries)
  {
    hide Initial, Settled, Conserved, Tallied, NoRunBehindOpen, Run, Log;
    var c0: Cluster<W> := Initial(breakers);
    InitialGood(breakers, maxRetries);
    InitialSettled(breakers, maxRetries);
    RunKeepsSettled(c0, [], steps, maxRetries);
    assert [] + Log(c0, steps, maxRetries) == Log(c0, steps, maxRetries);
  }

  lemma FinishedHasVerdict<W>(c: Cluster<W>, log: seq<Ended<W>>, id: string, maxRetries: int)
    requires Settled(c, log, maxRetries) && Finished(c, id)
    ensures ClosedJob(c.types, log, id, c.status[id], c.cancelMarks, maxRetries)
  {
    hide ClosedJob, OpenJob;
  }

  /** A submitted job that has not ended is undecided. */
  lemma PlacedIsOpen<W>(c: Cluster<W>, log: seq<Ended<W>>, id: string, maxRetries: int)
    requires Conserved(c) && Settled(c, log, maxRetries) && id in c.status && !Finished(c, id)
    ensures id in c.types && Undecided(c.types[id], Of(log, id), maxRetries)
  {
    hide Of, Undecided;
    if InQueue(c, id) {
      var i :| 0 <= i < |c.queue| && c.queue[i].id == id;
      assert OpenJob(c.types, log, c.queue[i], maxRetries);
    } else {
      assert InHand(c, id);
      var w :| w in c.workers && Holds(c.workers[w], id);
      assert OpenJob(c.types, log, c.workers[w].hand.job, maxRetries);
    }
  }

  // What beginning a job does.

  /** A marked job is cancelled without a run; behind an open breaker a job is deferred with its
      attempts unchanged and without a run; in every other case its handler starts. */
  lemma BeginDecides<W>(c: Cluster<W>, w: W, maxRetries: int)
    requires w in c.workers && c.workers[w].hand.Holding?
    ensures var job := c.workers[w].hand.job;
            var c' := Apply(c, Begin(w), maxRetries);
            var open := HasHandler(job.jobType) && c.workers[w].breakers[job.jobType].state.Open?;
            && w in c'.workers && job.id in c'.status && c'.queue == c.queue
            && (c'.status[job.id] == Cancelled <==> job.id in c.cancelMarks)
            && (c'.status[job.id] == Deferred <==> job.id !in c.cancelMarks && open)
            && (c'.status[job.id] == Running <==> job.id !in c.cancelMarks && !open)
            && (c'.status[job.id] == Cancelled ==> c'.workers[w].hand.Idle?)
            && (c'.status[job.id] == Deferred ==> c'.workers[w].hand == Sleeping(job))
            && (c'.status[job.id] == Running ==> c'.workers[w].hand == Handling(job))
            && (c'.status[job.id] != Running ==> c'.runs == c.runs)
  {
    hide Count;
  }

  /** Main result: once its marker is set, no worker starts the handler of a job again, whatever
      happens later. */
  lemma {:induction false} CancelledJobRunsNoMore<W>(c: Cluster<W>, steps: seq<Step<W>>, maxRetries: int, id: string)
    requires id in c.cancelMarks
    ensures var c' := Run(c, steps, maxRetries);
            id in c'.cancelMarks && Count(c'.runs, id) == Count(c.runs, id)
    decreases |steps|
  {
    if steps != [] {
      var c1 := Apply(c, steps[0], maxRetries);
      assert id in c1.cancelMarks && Count(c1.runs, id) == Count(c.runs, id) by {
        hide AfterRun, AfterFailure, BreakerOpen, Succeeds, Run;
      }
      hide Apply;
      CancelledJobRunsNoMore(c1, steps[1..], maxRetries, id);
    }
  }

  // The queue.

  /** The job a step puts into the queue: a new one, or the one its worker slept on. */
  ghost function Pushed<W>(c: Cluster<W>, step: Step<W>): seq<Job> {
    match step
    case Submit(id, jobType) => if id in c.status then [] else [Job(id, jobType, 0)]
    case Requeue(w) =>
      if w in c.workers && c.workers[w].hand.Sleeping? then [c.workers[w].hand.job] else []
    case _ => []
  }

  /** The job a step puts into the hands of an idle worker. */
  ghost function Taken<W>(c: Cluster<W>, step: Step<W>, maxRetries: int): seq<Job> {
    var c' := Apply(c, step, maxRetries);
    if step.Pop? && step.w in c.workers && c.workers[step.w].hand.Idle? && step.w in c'.workers &&
       c'.workers[step.w].hand.Holding?
    then [c'.workers[step.w].hand.job]
    else []
  }

  ghost function AllPushed<W>(c: Cluster<W>, steps: seq<Step<W>>, maxRetries: int): seq<Job>
    decreases |steps|
  {
    if steps == [] then [] else Pushed(c, steps[0]) + AllPushed(Apply(c, steps[0], maxRetries), steps[1..], maxRetries)
  }

  ghost function AllTaken<W>(c: Cluster<W>, steps: seq<Step<W>>, maxRetries: int): seq<Job>
    decreases |steps|
  {
    if steps == [] then []
    else Taken(c, steps[0], maxRetries) + AllTaken(Apply(c, steps[0], maxRetries), steps[1..], maxRetries)
  }

  lemma StepIsFifo<W>(c: Cluster<W>, step: Step<W>, maxRetries: int)
    ensures c.queue + Pushed(c, step) == Taken(c, step, maxRetries) + Apply(c, step, maxRetries).queue
    ensures step.Pop? && step.w in c.workers && c.workers[step.w].hand.Idle? && c.queue != [] ==>
              |Taken(c, step, maxRetries)| == 1
  {
    hide AfterRun, AfterFailure, BreakerOpen, Succeeds, Count;
  }

  /** Main result: whatever the interleaving, jobs leave the queue in the order they entered it. */
  lemma {:induction false} QueueIsFirstInFirstOut<W>(c: Cluster<W>, steps: seq<Step<W>>, maxRetries: int)
    ensures c.queue + AllPushed(c, steps, maxRetries) ==
            AllTaken(c, steps, maxRetries) + Run(c, steps, maxRetries).queue
    decreases |steps|
  {
    hide Apply, Taken, Pushed;
    if steps != [] {
      var c1, rest := Apply(c, steps[0], maxRetries), steps[1..];
      StepIsFifo(c, steps[0], maxRetries);
      QueueIsFirstInFirstOut(c1, rest, maxRetries);
      Regroup(c.queue, Pushed(c, steps[0]), AllPushed(c1, rest, maxRetries), Taken(c, steps[0], maxRetries),
              c1.queue, AllTaken(c1, rest, maxRetries), Run(c1, rest, maxRetries).queue);
    }
  }

  lemma Regroup(q: seq<Job>, p: seq<Job>, ps: seq<Job>, t: seq<Job>, q1: seq<Job>, ts: seq<Job>, q2: seq<Job>)
    requires q + p == t + q1 && q1 + ps == ts + q2
    ensures q + (p + ps) == t + ts + q2
  {
    calc {
      q + (p + ps);
      (q + p) + ps;
      t + (q1 + ps);
      t + ts + q2;
    }
  }

  // The breakers.

  /** The runs of one type at one worker. */
  ghost function At<W>(log: seq<Ended<W>>, w: W, jobType: JobType): seq<HandlerRun> {
    if log == [] then []
    else
      var last := log[|log| - 1];
      At(log[..|log| - 1], w, jobType) + if last.w == w && last.jobType == jobType then [last.run] else []
  }

  /** How many runs at the end of the list failed in a row. */
  function FailuresInARow(runs: seq<HandlerRun>): nat {
    if runs == [] || runs[|runs| - 1].succeeds then 0 else FailuresInARow(runs[..|runs| - 1]) + 1
  }

  /** The breaker has counted the failures in a row, and is open exactly at five. */
  predicate Counts(m: Breakers.Metrics, runs: seq<HandlerRun>) {
    && FailuresInARow(runs) <= 5 && m.failureCount == FailuresInARow(runs)
    && (if m.failureCount == 5 then m.state.Open? else m.state.Closed?)
  }

  ghost predicate AllCount<W>(workers: map<W, Worker>, log: seq<Ended<W>>) {
    forall w, t :: w in workers && HasHandler(t) ==> Counts(workers[w].breakers[t], At(log, w, t))
  }

  lemma OneMoreAt<W>(log: seq<Ended<W>>, e: Ended<W>)
    ensures At(log + [e], e.w, e.jobType) == At(log, e.w, e.jobType) + [e.run]
    ensures forall w, t :: (w, t) != (e.w, e.jobType) ==> At(log + [e], w, t) == At(log, w, t)
  {
    assert (log + [e])[..|log|] == log;
    assert forall w, t :: (w, t) != (e.w, e.jobType) ==> w != e.w || t != e.jobType;
  }

  lemma OneMoreFailure(runs: seq<HandlerRun>, run: HandlerRun)
    ensures FailuresInARow(runs + [run]) == if run.succeeds then 0 else FailuresInARow(runs) + 1
  {
    assert (runs + [run])[..|runs|] == runs;
  }

  lemma RunIsCounted(breakers: BreakerTable, job: Job, run: HandlerRun, runs: seq<HandlerRun>)
    requires HasHandler(job.jobType) && !BreakerOpen(breakers, job.jobType)
    requires Counts(breakers[job.jobType], runs)
    ensures Counts(AfterRun(breakers, job, run)[job.jobType], runs + [run])
    ensures forall t :: HasHandler(t) && t != job.jobType ==> AfterRun(breakers, job, run)[t] == breakers[t]
  {
    OneMoreFailure(runs, run);
  }

  lemma EndCounts<W>(c: Cluster<W>, log: seq<Ended<W>>, w: W, run: HandlerRun, maxRetries: int)
    requires NoRunBehindOpen(c) && AllCount(c.workers, log) && w in c.workers && c.workers[w].hand.Handling?
    ensures AllCount(Apply(c, End(w, run), maxRetries).workers, log + EndedBy(c, End(w, run)))
  {
    hide At, Apply, AfterRun, BreakerOpen, Counts;
    var job := c.workers[w].hand.job;
    var e := Ended(job.id, w, job.jobType, run);
    OneMoreAt(log, e);
    EndTouchesOneBreaker(c, w, run, maxRetries);
    if HasHandler(job.jobType) {
      RunIsCounted(c.workers[w].breakers, job, run, At(log, w, job.jobType));
    }
    var c', log' := Apply(c, End(w, run), maxRetries), log + [e];
    assert EndedBy(c, End(w, run)) == [e];
    forall v, t | v in c'.workers && HasHandler(t)
      ensures Counts(c'.workers[v].breakers[t], At(log', v, t))
    {
      assert Counts(c.workers[v].breakers[t], At(log, v, t));
      if (v, t) != (w, job.jobType) {
        assert At(log', v, t) == At(log, v, t);
      }
    }
  }

  /** The end of a run changes no breaker but the one of its worker and type. */
  lemma EndTouchesOneBreaker<W>(c: Cluster<W>, w: W, run: HandlerRun, maxRetries: int)
    requires w in c.workers && c.workers[w].hand.Handling?
    ensures var job := c.workers[w].hand.job;
            var c' := Apply(c, End(w, run), maxRetries);
            && c'.workers.Keys == c.workers.Keys
            && c'.workers[w].breakers == AfterRun(c.workers[w].breakers, job, run)
            && (!HasHandler(job.jobType) ==> c'.workers[w].breakers == c.workers[w].breakers)
            && (forall v :: v in c.workers && v != w ==> c'.workers[v].breakers == c.workers[v].breakers)
  {
    hide AfterFailure;
  }

  /** Steps add and remove no worker, and only the end of a run changes breakers. */
  lemma StepChangesBreakersOnlyAtEnd<W>(c: Cluster<W>, step: Step<W>, maxRetries: int)
    ensures var c' := Apply(c, step, maxRetries);
            && c'.workers.Keys == c.workers.Keys
            && (EndedBy(c, step) == [] ==>
                  forall w :: w in c.workers ==> c'.workers[w].breakers == c.workers[w].breakers)
  {
    hide BeginJob, EndJob;
    match step {
      case Begin(w) => if w in c.workers && c.workers[w].hand.Holding? { BeginChangesOne(c, w); }
      case End(w, run) =>
        if w in c.workers && c.workers[w].hand.Handling? {
          hide Apply;
          EndTouchesOneBreaker(c, w, run, maxRetries);
        }
      case _ =>
    }
  }

  lemma StepCounts<W>(c: Cluster<W>, log: seq<Ended<W>>, step: Step<W>, maxRetries: int)
    requires NoRunBehindOpen(c) && AllCount(c.workers, log)
    ensures AllCount(Apply(c, step, maxRetries).workers, log + EndedBy(c, step))
  {
    hide At, Counts;
    if EndedBy(c, step) != [] {
      hide AllCount, NoRunBehindOpen, Apply;
      EndCounts(c, log, step.w, step.run, maxRetries);
    } else {
      hide Apply;
      StepChangesBreakersOnlyAtEnd(c, step, maxRetries);
      assert log + [] == log;
    }
  }

  lemma {:induction false} RunCounts<W>(c: Cluster<W>, log: seq<Ended<W>>, steps: seq<Step<W>>, maxRetries: int)
    requires NoRunBehindOpen(c) && AllCount(c.workers, log)
    ensures AllCount(Run(c, steps, maxRetries).workers, log + Log(c, steps, maxRetries))
    decreases |steps|
  {
    if steps == [] {
      assert log + Log(c, steps, maxRetries) == log;
    } else {
      var c1, ended := Apply(c, steps[0], maxRetries), EndedBy(c, steps[0]);
      StepCounts(c, log, steps[0], maxRetries);
      ApplyKeepsNoRunBehindOpen(c, steps[0], maxRetries);
      hide AllCount, NoRunBehindOpen, Apply, EndedBy;
      RunCounts(c1, log + ended, steps[1..], maxRetries);
      assert log + ended + Log(c1, steps[1..], maxRetries) == log + (ended + Log(c1, steps[1..], maxRetries));
    }
  }

  /** Main result: over every interleaving, the breaker of a worker for a job type is open if and
      only if the last five runs of that type at that worker failed, whatever ran elsewhere, for
      other types, or in between. */
  lemma BreakerOpensAfterFiveInARow<W>(names: set<W>, now: real, steps: seq<Step<W>>, maxRetries: int, w: W,
                                       jobType: JobType)
    requires w in names && HasHandler(jobType)
    ensures var breakers: BreakerTable :=
              map[Forensic := Breakers.NewMetrics(now), Geospatial := Breakers.NewMetrics(now)];
            var c0: Cluster<W> := Initial(map v | v in names :: breakers);
            var c := Run(c0, steps, maxRetries);
            var runs := At(Log(c0, steps, maxRetries), w, jobType);
            && w in c.workers
            && (BreakerOpen(c.workers[w].breakers, jobType) <==>
                  |runs| >= 5 && forall i :: |runs| - 5 <= i < |runs| ==> !runs[i].succeeds)
  {
    hide Initial, At, FailuresInARow, Run, Log, AllCount, NoRunBehindOpen;
    var breakers: BreakerTable := map[Forensic := Breakers.NewMetrics(now), Geospatial := Breakers.NewMetrics(now)];
    var c0: Cluster<W> := Initial(map v | v in names :: breakers);
    FreshBreakersCount(names, now);
    RunCounts(c0, [], steps, maxRetries);
    WorkersStay(c0, steps, maxRetries);
    var log := Log(c0, steps, maxRetries);
    assert [] + log == log;
    OpenExactlyAtFive(Run(c0, steps, maxRetries).workers, log, w, jobType);
  }

  lemma FreshBreakersCount<W>(names: set<W>, now: real)
    ensures var breakers: BreakerTable :=
              map[Forensic := Breakers.NewMetrics(now), Geospatial := Breakers.NewMetrics(now)];
            var c0: Cluster<W> := Initial(map v | v in names :: breakers);
            NoRunBehindOpen(c0) && AllCount(c0.workers, []) && c0.workers.Keys == names
  {
    assert forall w: W, t :: At([], w, t) == [];
    assert FailuresInARow([]) == 0;
    hide At, FailuresInARow;
  }

  lemma OpenExactlyAtFive<W>(workers: map<W, Worker>, log: seq<Ended<W>>, w: W, jobType: JobType)
    requires AllCount(workers, log) && w in workers && HasHandler(jobType)
    ensures var runs := At(log, w, jobType);
            BreakerOpen(workers[w].breakers, jobType) <==>
              |runs| >= 5 && forall i :: |runs| - 5 <= i < |runs| ==> !runs[i].succeeds
  {
    hide At, FailuresInARow;
    FiveInARow(At(log, w, jobType));
    assert Counts(workers[w].breakers[jobType], At(log, w, jobType));
  }

  lemma {:induction false} WorkersStay<W>(c: Cluster<W>, steps: seq<Step<W>>, maxRetries: int)
    ensures Run(c, steps, maxRetries).workers.Keys == c.workers.Keys
    decreases |steps|
  {
    if steps != [] {
      hide Apply;
      StepChangesBreakersOnlyAtEnd(c, steps[0], maxRetries);
      WorkersStay(Apply(c, steps[0], maxRetries), steps[1..], maxRetries);
    }
  }

  lemma {:induction false} InARow(runs: seq<HandlerRun>, k: nat)
    ensures FailuresInARow(runs) >= k <==>
              |runs| >= k && forall i :: |runs| - k <= i < |runs| ==> !runs[i].succeeds
  {
    if k > 0 && runs != [] {
      var init := runs[..|runs| - 1];
      InARow(init, k - 1);
      if |runs| >= k {
        assert forall i :: |init| - (k - 1) <= i < |init| ==> init[i] == runs[i];
      }
    }
  }

  lemma FiveInARow(runs: seq<HandlerRun>)
    ensures FailuresInARow(runs) >= 5 <==>
              |runs| >= 5 && forall i :: |runs| - 5 <= i < |runs| ==> !runs[i].succeeds
  {
    InARow(runs, 5);
  }

  // Without a queue.

  function RunAt(env: seq<HandlerRun>, i: nat): HandlerRun {
    if i < |env| then env[i] else HandlerRun(true, false, 0.0, 0.0)
  }

  predicate PlainUpTo(job: Job, env: seq<HandlerRun>, n: nat, maxRetries: int) {
    forall i :: 0 <= i < n ==> Plain(job.jobType, RunAt(env, i)) && job.attempts + i + 1 < maxRetries
  }

  /** What `n` inline runs make of a job. */
  predicate InlineVerdict(job: Job, env: seq<HandlerRun>, n: nat, status: JobStatus, maxRetries: int) {
    && (n > 0 ==> PlainUpTo(job, env, n - 1, maxRetries))
    && (status.Completed? <==> n > 0 && RunAt(env, n - 1).succeeds)
    && (status.DeadLettered? <==>
          n > 0 && !RunAt(env, n - 1).succeeds &&
          (RunAt(env, n - 1).poison || job.attempts + n >= maxRetries))
    && (status.DeadLettered? ==>
          status.poison == RunAt(env, n - 1).poison && status.recordedAttempts == job.attempts + n - 1)
  }

  lemma OneRunEarlier(job: Job, env: seq<HandlerRun>, n: nat, status: JobStatus, maxRetries: int)
    requires Plain(job.jobType, RunAt(env, 0)) && HasHandler(job.jobType) && job.attempts + 1 < maxRetries
    requires var rest := if env == [] then [] else env[1..];
             InlineVerdict(job.(attempts := job.attempts + 1), rest, n, status, maxRetries)
    ensures InlineVerdict(job, env, n + 1, status, maxRetries)
  {
    if n > 0 {
      var rest := if env == [] then [] else env[1..];
      assert RunAt(rest, n - 1) == RunAt(env, n);
      PlainOneEarlier(job, env, n - 1, maxRetries);
    }
  }

  lemma PlainOneEarlier(job: Job, env: seq<HandlerRun>, n: nat, maxRetries: int)
    requires Plain(job.jobType, RunAt(env, 0)) && job.attempts + 1 < maxRetries
    requires var rest := if env == [] then [] else env[1..];
             PlainUpTo(job.(attempts := job.attempts + 1), rest, n, maxRetries)
    ensures PlainUpTo(job, env, n + 1, maxRetries)
  {
    var rest := if env == [] then [] else env[1..];
    forall i | 0 <= i < n + 1
      ensures Plain(job.jobType, RunAt(env, i)) && job.attempts + i + 1 < maxRetries
    {
      if i > 0 {
        assert RunAt(rest, i - 1) == RunAt(env, i);
      }
    }
  }

  /** The state in which a job that failed inline is processed again. */
  function RetriedInline(v: Runtime.Runtime, job: Job, run: HandlerRun): Runtime.Runtime {
    var v1 := v.(gauge := v.gauge + 1, status := v.status[job.id := Running]);
    var v2 := Runtime.Handled(v1, job, run);
    v2.(status := v2.status[job.id := Retrying])
  }

  /** One inline run: it ends the job, or the job is processed again with the runs still to come. */
  lemma OneInlineRun(v: Runtime.Runtime, job: Job, env: seq<HandlerRun>, maxRetries: int)
    requires !v.enabled && HasHandler(job.jobType) && !BreakerOpen(v.breakers, job.jobType)
    ensures var v' := Runtime.Process(v, job, env, maxRetries);
            var run := RunAt(env, 0);
            if run.succeeds then
              v'.status == v.status[job.id := Completed] && Count(v'.runs, job.id) == Count(v.runs, job.id) + 1
            else
              match AfterFailure(job, run.poison, maxRetries)
              case Buried(status) =>
                v'.status == v.status[job.id := status] && Count(v'.runs, job.id) == Count(v.runs, job.id) + 1
              case Again(job') =>
                var v1 := RetriedInline(v, job, run);
                var again := Runtime.Process(v1, job', if env == [] then [] else env[1..], maxRetries);
                && !v1.enabled && Count(v1.runs, job.id) == Count(v.runs, job.id) + 1
                && v'.status == again.status && v'.runs == again.runs
  {
    hide AfterRun, AfterFailure;
  }

  /** Main result: without a queue, too, the handler runs of the call decide the end of the job: all
      runs but the last one are plain failures within the budget, and the last one completes it,
      makes it a poison pill, or uses up the budget. */
  lemma {:induction false} InlineRunsDecideTheEnd(v: Runtime.Runtime, job: Job, env: seq<HandlerRun>, maxRetries: int)
    requires !v.enabled && HasHandler(job.jobType)
    ensures var v' := Runtime.Process(v, job, env, maxRetries);
            && Count(v'.runs, job.id) >= Count(v.runs, job.id)
            && job.id in v'.status
            && InlineVerdict(job, env, Count(v'.runs, job.id) - Count(v.runs, job.id), v'.status[job.id], maxRetries)
    decreases Runtime.Rank(job, maxRetries)
  {
    hide Runtime.Process, RetriedInline, BreakerOpen;
    if BreakerOpen(v.breakers, job.jobType) {
      NoInlineRun(v, job, env, maxRetries);
    } else {
      OneInlineRun(v, job, env, maxRetries);
      match AfterFailure(job, RunAt(env, 0).poison, maxRetries) {
        case Buried(_) =>
        case Again(job') =>
          hide InlineVerdict;
          if RunAt(env, 0).succeeds {
            SucceedsAtOnce(job, env, maxRetries);
          } else {
            var v1, rest := RetriedInline(v, job, RunAt(env, 0)), if env == [] then [] else env[1..];
            InlineRunsDecideTheEnd(v1, job', rest, maxRetries);
            var v' := Runtime.Process(v1, job', rest, maxRetries);
            OneRunEarlier(job, env, Count(v'.runs, job.id) - Count(v1.runs, job.id), v'.status[job.id], maxRetries);
          }
      }
    }
  }

  lemma SucceedsAtOnce(job: Job, env: seq<HandlerRun>, maxRetries: int)
    requires RunAt(env, 0).succeeds
    ensures InlineVerdict(job, env, 1, Completed, maxRetries)
  {
    assert PlainUpTo(job, env, 0, maxRetries);
  }

  lemma NoInlineRun(v: Runtime.Runtime, job: Job, env: seq<HandlerRun>, maxRetries: int)
    requires !v.enabled && BreakerOpen(v.breakers, job.jobType)
    ensures var v' := Runtime.Process(v, job, env, maxRetries);
            v'.status == v.status[job.id := Deferred] && v'.runs == v.runs
  {
  }
}
