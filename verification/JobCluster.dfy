/** Any number of workers on one queue: where jobs are, and how often their handlers run. */
module JobCluster {
  import opened JobSteps

  /** What a worker is doing; during both sleeps it still holds the job. */
  datatype Hand =
    | Idle
    | Holding(job: Job)
    | Handling(job: Job)
    | Sleeping(job: Job)

  datatype Worker = Worker(hand: Hand, breakers: BreakerTable)

  /** `runs` and `ran` are history: handler runs per job, and which worker ran which type. */
  datatype Cluster<W> = Cluster(
    queue: seq<Job>,
    workers: map<W, Worker>,
    cancelMarks: set<string>,
    status: map<string, JobStatus>,
    types: map<string, JobType>,
    runs: map<string, nat>,
    ran: seq<(W, JobType)>)

  datatype Step<W> =
    | Submit(id: string, jobType: JobType)
    | Cancel(id: string)
    | Pop(w: W)
    | Begin(w: W)
    | End(w: W, run: HandlerRun)
    | Requeue(w: W)

  ghost function WithHand<W>(c: Cluster<W>, w: W, hand: Hand): Cluster<W>
    requires w in c.workers
  {
    c.(workers := c.workers[w := c.workers[w].(hand := hand)])
  }

  ghost function Count(runs: map<string, nat>, id: string): nat {
    if id in runs then runs[id] else 0
  }

  ghost function BeginJob<W>(c: Cluster<W>, w: W, job: Job): Cluster<W>
    requires w in c.workers
  {
    if job.id in c.cancelMarks then WithHand(c, w, Idle).(status := c.status[job.id := Cancelled])
    else if BreakerOpen(c.workers[w].breakers, job.jobType) then
      WithHand(c, w, Sleeping(job)).(status := c.status[job.id := Deferred])
    else
      WithHand(c, w, Handling(job)).(
        status := c.status[job.id := Running],
        runs := if HasHandler(job.jobType) then c.runs[job.id := Count(c.runs, job.id) + 1] else c.runs,
        ran := if HasHandler(job.jobType) then c.ran + [(w, job.jobType)] else c.ran)
  }

  ghost function EndJob<W>(c: Cluster<W>, w: W, job: Job, run: HandlerRun, maxRetries: int): Cluster<W>
    requires w in c.workers
  {
    var c1 := c.(workers := c.workers[w := Worker(Idle, AfterRun(c.workers[w].breakers, job, run))]);
    if Succeeds(job, run) then c1.(status := c.status[job.id := Completed])
    else
      match AfterFailure(job, run.poison, maxRetries)
      case Buried(status) => c1.(status := c.status[job.id := status])
      case Again(job') => WithHand(c1, w, Sleeping(job')).(status := c.status[job.id := Retrying])
  }

  /** One atomic step of one worker or client; a step that is not possible changes nothing. */
  ghost function Apply<W>(c: Cluster<W>, step: Step<W>, maxRetries: int): Cluster<W> {
    match step
    case Submit(id, jobType) =>
      if id in c.status then c
      else c.(queue := c.queue + [Job(id, jobType, 0)],
              status := c.status[id := Queued], types := c.types[id := jobType])
    case Cancel(id) => c.(cancelMarks := c.cancelMarks + {id})
    case Pop(w) =>
      if w in c.workers && c.workers[w].hand.Idle? && c.queue != []
      then WithHand(c, w, Holding(c.queue[0])).(queue := c.queue[1..])
      else c
    case Begin(w) =>
      if w in c.workers && c.workers[w].hand.Holding? then BeginJob(c, w, c.workers[w].hand.job) else c
    case End(w, run) =>
      if w in c.workers && c.workers[w].hand.Handling? then EndJob(c, w, c.workers[w].hand.job, run, maxRetries) else c
    case Requeue(w) =>
      if w in c.workers && c.workers[w].hand.Sleeping?
      then WithHand(c, w, Idle).(queue := c.queue + [c.workers[w].hand.job])
      else c
  }

  ghost function Run<W>(c: Cluster<W>, steps: seq<Step<W>>, maxRetries: int): Cluster<W>
    decreases |steps|
  {
    if steps == [] then c else Run(Apply(c, steps[0], maxRetries), steps[1..], maxRetries)
  }

  // Where jobs are.

  ghost predicate InQueue<W>(c: Cluster<W>, id: string) {
    exists i :: 0 <= i < |c.queue| && c.queue[i].id == id
  }

  predicate Holds(worker: Worker, id: string) {
    !worker.hand.Idle? && worker.hand.job.id == id
  }

  ghost predicate InHand<W>(c: Cluster<W>, id: string) {
    exists w :: w in c.workers && Holds(c.workers[w], id)
  }

  ghost predicate Finished<W>(c: Cluster<W>, id: string) {
    id in c.status && Final(c.status[id])
  }

  ghost predicate DistinctQueue(queue: seq<Job>) {
    forall i, j :: 0 <= i < j < |queue| ==> queue[i].id != queue[j].id
  }

  ghost predicate DistinctHands<W>(workers: map<W, Worker>) {
    forall v, w, id :: v in workers && w in workers && Holds(workers[v], id) && Holds(workers[w], id) ==> v == w
  }

  /** The submitted jobs are exactly those that are somewhere, and none is in two kinds of places. */
  ghost predicate Located<W>(c: Cluster<W>) {
    && (forall id :: id in c.status <==> InQueue(c, id) || InHand(c, id) || Finished(c, id))
    && (forall id :: !(InQueue(c, id) && InHand(c, id)))
    && (forall id :: !(InQueue(c, id) && Finished(c, id)))
    && (forall id :: !(InHand(c, id) && Finished(c, id)))
  }

  /** Every submitted job is in exactly one place, once. */
  ghost predicate Conserved<W>(c: Cluster<W>) {
    DistinctQueue(c.queue) && DistinctHands(c.workers) && Located(c)
  }

  lemma ApplyKeepsConserved<W>(c: Cluster<W>, step: Step<W>, maxRetries: int)
    requires Conserved(c)
    ensures Conserved(Apply(c, step, maxRetries))
  {
    var c' := Apply(c, step, maxRetries);
    match step {
      case Submit(id, jobType) =>
        if id !in c.status {
          hide Conserved;
          SubmitAdds(c, c', Job(id, jobType, 0));
        }
      case Cancel(_) =>
        hide DistinctQueue, DistinctHands, Located, InQueue, InHand, Finished;
        CancelMoves(c, c');
      case Pop(w) =>
        if w in c.workers && c.workers[w].hand.Idle? && c.queue != [] {
          hide Conserved;
          PopMoves(c, c', w);
        }
      case Begin(w) =>
        if w in c.workers && c.workers[w].hand.Holding? {
          hide Conserved, BeginJob;
          BeginKeepsConserved(c, w);
        }
      case End(w, run) =>
        if w in c.workers && c.workers[w].hand.Handling? {
          hide Conserved, EndJob;
          EndKeepsConserved(c, w, run, maxRetries);
        }
      case Requeue(w) =>
        if w in c.workers && c.workers[w].hand.Sleeping? {
          hide Conserved;
          RequeueMoves(c, c', w);
        }
    }
  }

  lemma BeginKeepsConserved<W>(c: Cluster<W>, w: W)
    requires Conserved(c) && w in c.workers && c.workers[w].hand.Holding?
    ensures Conserved(BeginJob(c, w, c.workers[w].hand.job))
  {
    hide Conserved, BreakerOpen;
    HandKeepsOrFinishes(c, BeginJob(c, w, c.workers[w].hand.job), w);
  }

  lemma EndKeepsConserved<W>(c: Cluster<W>, w: W, run: HandlerRun, maxRetries: int)
    requires Conserved(c) && w in c.workers && c.workers[w].hand.Handling?
    ensures Conserved(EndJob(c, w, c.workers[w].hand.job, run, maxRetries))
  {
    hide Conserved, AfterRun;
    HandKeepsOrFinishes(c, EndJob(c, w, c.workers[w].hand.job, run, maxRetries), w);
  }

  lemma CancelMoves<W>(c: Cluster<W>, c': Cluster<W>)
    requires Conserved(c) && c' == c.(cancelMarks := c'.cancelMarks)
    ensures Conserved(c')
  {
    assert forall k :: InQueue(c', k) <==> InQueue(c, k);
    assert forall k :: InHand(c', k) <==> InHand(c, k);
    assert forall k :: Finished(c', k) <==> Finished(c, k);
  }

  lemma AppendedQueue<W>(c: Cluster<W>, c': Cluster<W>, job: Job)
    requires c'.queue == c.queue + [job]
    ensures forall k :: InQueue(c', k) <==> InQueue(c, k) || k == job.id
    ensures DistinctQueue(c.queue) && !InQueue(c, job.id) ==> DistinctQueue(c'.queue)
  {
    assert c'.queue[|c.queue|] == job;
    assert forall i :: 0 <= i < |c.queue| ==> c'.queue[i] == c.queue[i];
  }

  lemma ShiftedQueue<W>(c: Cluster<W>, c': Cluster<W>)
    requires c.queue != [] && c'.queue == c.queue[1..] && DistinctQueue(c.queue)
    ensures forall k :: InQueue(c', k) <==> InQueue(c, k) && k != c.queue[0].id
    ensures DistinctQueue(c'.queue) && InQueue(c, c.queue[0].id)
  {
    forall k | InQueue(c, k) && k != c.queue[0].id
      ensures InQueue(c', k)
    {
      var i :| 0 <= i < |c.queue| && c.queue[i].id == k;
      assert c'.queue[i - 1] == c.queue[i];
    }
    assert forall i :: 0 <= i < |c'.queue| ==> c'.queue[i] == c.queue[i + 1];
  }

  lemma SubmitAdds<W>(c: Cluster<W>, c': Cluster<W>, job: Job)
    requires Conserved(c) && job.id !in c.status
    requires c'.queue == c.queue + [job] && c'.workers == c.workers && c'.status == c.status[job.id := Queued]
    ensures Conserved(c')
  {
    AppendedQueue(c, c', job);
    assert forall k :: InHand(c', k) <==> InHand(c, k);
    assert forall k :: Finished(c', k) <==> Finished(c, k);
    hide InQueue, InHand, Finished, DistinctQueue, DistinctHands;
  }

  lemma PopMoves<W>(c: Cluster<W>, c': Cluster<W>, w: W)
    requires Conserved(c) && w in c.workers && c.workers[w].hand.Idle? && c.queue != []
    requires c' == WithHand(c, w, Holding(c.queue[0])).(queue := c.queue[1..])
    ensures Conserved(c')
  {
    var id := c.queue[0].id;
    ShiftedQueue(c, c');
    HandsBut(c, c', w);
    assert Holds(c'.workers[w], id);
    assert forall k :: Finished(c', k) <==> Finished(c, k);
    assert forall k :: InHand(c', k) <==> InHand(c, k) || k == id by {
      hide InQueue, Finished;
    }
    assert !InHand(c, id);
    OneMoreHand(c, c', w, id);
    hide InQueue, InHand, Finished, DistinctQueue, DistinctHands;
  }

  lemma OneMoreHand<W>(c: Cluster<W>, c': Cluster<W>, w: W, id: string)
    requires DistinctHands(c.workers) && !InHand(c, id) && w in c.workers && c.workers[w].hand.Idle?
    requires w in c'.workers && c'.workers == c.workers[w := c'.workers[w]] && Holds(c'.workers[w], id)
    ensures DistinctHands(c'.workers)
  {
    assert forall v :: v in c.workers ==> !Holds(c.workers[v], id);
  }

  lemma RequeueMoves<W>(c: Cluster<W>, c': Cluster<W>, w: W)
    requires Conserved(c) && w in c.workers && c.workers[w].hand.Sleeping?
    requires c' == WithHand(c, w, Idle).(queue := c.queue + [c.workers[w].hand.job])
    ensures Conserved(c')
  {
    var id := c.workers[w].hand.job.id;
    assert Holds(c.workers[w], id) && InHand(c, id);
    AppendedQueue(c, c', c.workers[w].hand.job);
    HandsBut(c, c', w);
    assert forall k :: Finished(c', k) <==> Finished(c, k);
    LetGo(c, c', w, id);
    hide InQueue, InHand, Finished, DistinctQueue, DistinctHands;
  }

  lemma LetGo<W>(c: Cluster<W>, c': Cluster<W>, w: W, id: string)
    requires DistinctHands(c.workers) && w in c.workers && Holds(c.workers[w], id)
    requires w in c'.workers && c'.workers == c.workers[w := c'.workers[w]] && c'.workers[w].hand.Idle?
    ensures DistinctHands(c'.workers)
    ensures forall k :: InHand(c', k) <==> InHand(c, k) && k != id
  {
    HandsBut(c, c', w);
  }

  /** When only worker `w` changes, the hands of the others hold what they held. */
  lemma HandsBut<W>(c: Cluster<W>, c': Cluster<W>, w: W)
    requires w in c.workers && w in c'.workers && c'.workers == c.workers[w := c'.workers[w]]
    ensures forall k :: InHand(c', k) ==> Holds(c'.workers[w], k) || InHand(c, k)
    ensures forall k :: InHand(c, k) ==> Holds(c.workers[w], k) || InHand(c', k)
  {
    forall k | InHand(c, k) && !Holds(c.workers[w], k)
      ensures InHand(c', k)
    {
      var v :| v in c.workers && Holds(c.workers[v], k);
      assert Holds(c'.workers[v], k);
    }
  }

  lemma KeepsHold<W>(c: Cluster<W>, c': Cluster<W>, w: W, id: string)
    requires DistinctHands(c.workers) && w in c.workers && Holds(c.workers[w], id)
    requires w in c'.workers && c'.workers == c.workers[w := c'.workers[w]] && Holds(c'.workers[w], id)
    ensures DistinctHands(c'.workers)
    ensures forall k :: InHand(c', k) <==> InHand(c, k)
  {
    HandsBut(c, c', w);
  }

  /** A worker that keeps its job with a status that is not final, or lets go of it with a final
      one, loses nothing. */
  lemma HandKeepsOrFinishes<W>(c: Cluster<W>, c': Cluster<W>, w: W)
    requires Conserved(c) && w in c.workers && !c.workers[w].hand.Idle?
    requires c'.queue == c.queue && w in c'.workers && c'.workers == c.workers[w := c'.workers[w]]
    requires var id := c.workers[w].hand.job.id;
             && id in c'.status && c'.status == c.status[id := c'.status[id]]
             && (if c'.workers[w].hand.Idle? then Final(c'.status[id])
                 else c'.workers[w].hand.job.id == id && !Final(c'.status[id]))
    ensures Conserved(c')
  {
    hide InQueue, Finished, DistinctQueue, InHand, DistinctHands, Holds;
    var id := c.workers[w].hand.job.id;
    InHandNow(c, w);
    StatusBut(c, c', id);
    SameQueue(c, c');
    if c'.workers[w].hand.Idle? {
      LetGo(c, c', w, id);
    } else {
      InHandNow(c', w);
      KeepsHold(c, c', w, id);
    }
  }

  lemma InHandNow<W>(c: Cluster<W>, w: W)
    requires w in c.workers && !c.workers[w].hand.Idle?
    ensures Holds(c.workers[w], c.workers[w].hand.job.id) && InHand(c, c.workers[w].hand.job.id)
  {
  }

  lemma SameQueue<W>(c: Cluster<W>, c': Cluster<W>)
    requires c'.queue == c.queue
    ensures forall k :: InQueue(c', k) <==> InQueue(c, k)
  {
  }

  lemma StatusBut<W>(c: Cluster<W>, c': Cluster<W>, id: string)
    requires id in c'.status && c'.status == c.status[id := c'.status[id]]
    ensures forall k :: k != id ==> (Finished(c', k) <==> Finished(c, k))
    ensures Finished(c', id) <==> Final(c'.status[id])
  {
  }

  // How often handlers run.

  ghost function Budget(maxRetries: int): nat {
    if maxRetries > 1 then maxRetries else 1
  }

  /** A waiting job has used as many handler runs as it counts attempts, and has some budget left. */
  ghost predicate Waiting(types: map<string, JobType>, runs: map<string, nat>, job: Job, maxRetries: int) {
    && job.id in types && types[job.id] == job.jobType
    && job.attempts < Budget(maxRetries)
    && Count(runs, job.id) == if HasHandler(job.jobType) then job.attempts else 0
  }

  ghost predicate InHandler(types: map<string, JobType>, runs: map<string, nat>, job: Job, maxRetries: int) {
    && job.id in types && types[job.id] == job.jobType
    && job.attempts < Budget(maxRetries)
    && Count(runs, job.id) == if HasHandler(job.jobType) then job.attempts + 1 else 0
  }

  ghost predicate Done(types: map<string, JobType>, runs: map<string, nat>, id: string, status: JobStatus,
                       maxRetries: int)
  {
    && id in types
    && Count(runs, id) <= Budget(maxRetries)
    && (status.DeadLettered? && HasHandler(types[id]) ==> Count(runs, id) == status.recordedAttempts + 1)
    && (status.DeadLettered? && !status.poison ==> status.recordedAttempts + 1 == Budget(maxRetries))
  }

  ghost predicate HandTallied(types: map<string, JobType>, runs: map<string, nat>, hand: Hand, maxRetries: int) {
    match hand
    case Idle => true
    case Handling(job) => InHandler(types, runs, job, maxRetries)
    case Holding(job) => Waiting(types, runs, job, maxRetries)
    case Sleeping(job) => Waiting(types, runs, job, maxRetries)
  }

  ghost predicate Tallied<W>(c: Cluster<W>, maxRetries: int) {
    && (forall i :: 0 <= i < |c.queue| ==> Waiting(c.types, c.runs, c.queue[i], maxRetries))
    && (forall w :: w in c.workers ==> HandTallied(c.types, c.runs, c.workers[w].hand, maxRetries))
    && (forall id :: id in c.status && Final(c.status[id]) ==> Done(c.types, c.runs, id, c.status[id], maxRetries))
    && (forall id :: id !in c.status ==> Count(c.runs, id) == 0)
  }

  lemma ApplyKeepsTallied<W>(c: Cluster<W>, step: Step<W>, maxRetries: int)
    requires Conserved(c) && Tallied(c, maxRetries)
    ensures Tallied(Apply(c, step, maxRetries), maxRetries)
  {
    hide Conserved;
    match step {
      case Submit(id, jobType) =>
        if id !in c.status {
          SubmitKeepsTallied(c, id, jobType, maxRetries);
        }
      case Cancel(_) =>
      case Pop(w) =>
      case Begin(w) =>
        if w in c.workers && c.workers[w].hand.Holding? {
          hide BeginJob, Tallied;
          BeginKeepsTallied(c, w, maxRetries);
        }
      case End(w, run) =>
        if w in c.workers && c.workers[w].hand.Handling? {
          hide EndJob, Tallied;
          EndKeepsTallied(c, w, run, maxRetries);
        }
      case Requeue(w) =>
    }
  }

  /** Facts about other jobs do not notice a change in the entries of one job. */
  lemma OtherJobsUnaffected(types: map<string, JobType>, types': map<string, JobType>,
                            runs: map<string, nat>, runs': map<string, nat>, id: string, maxRetries: int)
    requires forall k :: k != id ==> (k in types <==> k in types') && (k in types ==> types[k] == types'[k])
    requires forall k :: k != id ==> Count(runs, k) == Count(runs', k)
    ensures forall job: Job :: job.id != id && Waiting(types, runs, job, maxRetries) ==>
              Waiting(types', runs', job, maxRetries)
    ensures forall job: Job :: job.id != id && InHandler(types, runs, job, maxRetries) ==>
              InHandler(types', runs', job, maxRetries)
    ensures forall k, status :: k != id && Done(types, runs, k, status, maxRetries) ==>
              Done(types', runs', k, status, maxRetries)
    ensures forall hand: Hand :: (hand.Idle? || hand.job.id != id) && HandTallied(types, runs, hand, maxRetries) ==>
              HandTallied(types', runs', hand, maxRetries)
  {
  }

  lemma UnknownIsNowhere<W>(c: Cluster<W>, id: string)
    requires Conserved(c) && id !in c.status
    ensures forall i :: 0 <= i < |c.queue| ==> c.queue[i].id != id
    ensures forall w :: w in c.workers && !c.workers[w].hand.Idle? ==> c.workers[w].hand.job.id != id
  {
    assert !InQueue(c, id) && !InHand(c, id);
    assert forall w :: w in c.workers && !c.workers[w].hand.Idle? ==> Holds(c.workers[w], c.workers[w].hand.job.id);
  }

  lemma SubmitKeepsTallied<W>(c: Cluster<W>, id: string, jobType: JobType, maxRetries: int)
    requires Conserved(c) && Tallied(c, maxRetries) && id !in c.status
    ensures Tallied(Apply(c, Submit(id, jobType), maxRetries), maxRetries)
  {
    UnknownIsNowhere(c, id);
    hide Conserved;
    assert Waiting(c.types[id := jobType], c.runs, Job(id, jobType, 0), maxRetries);
    hide Waiting, InHandler, Done, HandTallied;
    OtherJobsUnaffected(c.types, c.types[id := jobType], c.runs, c.runs, id, maxRetries);
  }

  lemma BegunJobTallied<W>(c: Cluster<W>, w: W, maxRetries: int)
    requires w in c.workers && c.workers[w].hand.Holding?
    requires Waiting(c.types, c.runs, c.workers[w].hand.job, maxRetries)
    ensures var job := c.workers[w].hand.job;
            var c' := BeginJob(c, w, job);
            && HandTallied(c'.types, c'.runs, c'.workers[w].hand, maxRetries)
            && (c'.status[job.id].Cancelled? ==> Done(c'.types, c'.runs, job.id, c'.status[job.id], maxRetries))
            && c'.types == c.types && (forall k :: k != job.id ==> Count(c.runs, k) == Count(c'.runs, k))
            && c'.queue == c.queue && c'.workers == c.workers[w := c'.workers[w]]
            && c'.status == c.status[job.id := c'.status[job.id]]
            && (Final(c'.status[job.id]) ==> c'.status[job.id].Cancelled?)
  {
    hide BreakerOpen;
  }

  lemma BeginKeepsTallied<W>(c: Cluster<W>, w: W, maxRetries: int)
    requires Conserved(c) && Tallied(c, maxRetries) && w in c.workers && c.workers[w].hand.Holding?
    ensures Tallied(BeginJob(c, w, c.workers[w].hand.job), maxRetries)
  {
    OthersDiffer(c, w);
    var job := c.workers[w].hand.job;
    assert HandTallied(c.types, c.runs, c.workers[w].hand, maxRetries);
    BegunJobTallied(c, w, maxRetries);
    var c' := BeginJob(c, w, job);
    hide Conserved, BeginJob, Waiting, InHandler, Done, HandTallied;
    OtherJobsUnaffected(c.types, c'.types, c.runs, c'.runs, job.id, maxRetries);
  }

  lemma EndKeepsTallied<W>(c: Cluster<W>, w: W, run: HandlerRun, maxRetries: int)
    requires Conserved(c) && Tallied(c, maxRetries) && w in c.workers && c.workers[w].hand.Handling?
    ensures Tallied(EndJob(c, w, c.workers[w].hand.job, run, maxRetries), maxRetries)
  {
    OthersDiffer(c, w);
    hide Conserved;
    var job := c.workers[w].hand.job;
    assert HandTallied(c.types, c.runs, c.workers[w].hand, maxRetries);
    EndedJobTallied(c, w, run, maxRetries);
    var c' := EndJob(c, w, job, run, maxRetries);
    hide EndJob, Waiting, InHandler, Done, HandTallied;
    OtherJobsUnaffected(c.types, c'.types, c.runs, c'.runs, job.id, maxRetries);
  }

  lemma EndedJobTallied<W>(c: Cluster<W>, w: W, run: HandlerRun, maxRetries: int)
    requires w in c.workers && c.workers[w].hand.Handling?
    requires InHandler(c.types, c.runs, c.workers[w].hand.job, maxRetries)
    ensures var job := c.workers[w].hand.job;
            var c' := EndJob(c, w, job, run, maxRetries);
            && HandTallied(c'.types, c'.runs, c'.workers[w].hand, maxRetries)
            && (Final(c'.status[job.id]) ==> Done(c'.types, c'.runs, job.id, c'.status[job.id], maxRetries))
            && c'.types == c.types && c'.runs == c.runs
            && c'.queue == c.queue && c'.workers == c.workers[w := c'.workers[w]]
            && c'.status == c.status[job.id := c'.status[job.id]]
  {
    hide AfterRun;
  }

  /** No other place holds the job of worker `w`. */
  lemma OthersDiffer<W>(c: Cluster<W>, w: W)
    requires Conserved(c) && w in c.workers && !c.workers[w].hand.Idle?
    ensures var id := c.workers[w].hand.job.id;
            && (forall i :: 0 <= i < |c.queue| ==> c.queue[i].id != id)
            && (forall v :: v in c.workers && v != w && !c.workers[v].hand.Idle? ==> c.workers[v].hand.job.id != id)
            && !Finished(c, id) && id in c.status
  {
    var id := c.workers[w].hand.job.id;
    assert Holds(c.workers[w], id) && InHand(c, id) && !InQueue(c, id);
    forall v | v in c.workers && v != w && !c.workers[v].hand.Idle?
      ensures c.workers[v].hand.job.id != id
    {
      assert Holds(c.workers[v], c.workers[v].hand.job.id);
    }
  }

  // Whole runs.

  ghost function Initial<W>(breakers: map<W, BreakerTable>): Cluster<W> {
    Cluster([], map w | w in breakers :: Worker(Idle, breakers[w]), {}, map[], map[], map[], [])
  }

  /** A handler only runs behind a breaker that is not open. */
  ghost predicate NoRunBehindOpen<W>(c: Cluster<W>) {
    forall w :: w in c.workers && c.workers[w].hand.Handling? ==>
      !BreakerOpen(c.workers[w].breakers, c.workers[w].hand.job.jobType)
  }

  lemma {:induction false} RunKeeps<W>(c: Cluster<W>, steps: seq<Step<W>>, maxRetries: int)
    requires Conserved(c) && Tallied(c, maxRetries) && NoRunBehindOpen(c)
    ensures var c' := Run(c, steps, maxRetries);
            Conserved(c') && Tallied(c', maxRetries) && NoRunBehindOpen(c')
    decreases |steps|
  {
    if steps != [] {
      ApplyKeepsConserved(c, steps[0], maxRetries);
      ApplyKeepsTallied(c, steps[0], maxRetries);
      ApplyKeepsNoRunBehindOpen(c, steps[0], maxRetries);
      RunKeeps(Apply(c, steps[0], maxRetries), steps[1..], maxRetries);
    }
  }

  lemma ApplyKeepsNoRunBehindOpen<W>(c: Cluster<W>, step: Step<W>, maxRetries: int)
    requires NoRunBehindOpen(c)
    ensures NoRunBehindOpen(Apply(c, step, maxRetries))
  {
  }

  lemma InitialGood<W>(breakers: map<W, BreakerTable>, maxRetries: int)
    ensures var c := Initial(breakers);
            Conserved(c) && Tallied(c, maxRetries) && NoRunBehindOpen(c)
  {
    var c := Initial(breakers);
    assert forall id :: !InQueue(c, id) && !InHand(c, id) && !Finished(c, id);
  }

  /** Main result: whatever the interleaving, every submitted job is in exactly one place: in the
      queue once, in the hands of one worker, or finished. */
  lemma JobsAreConserved<W>(breakers: map<W, BreakerTable>, steps: seq<Step<W>>, maxRetries: int)
    ensures Conserved(Run(Initial(breakers), steps, maxRetries))
  {
    InitialGood(breakers, maxRetries);
    RunKeeps(Initial(breakers), steps, maxRetries);
  }

  /** Main result: a job's handler never runs more often than the retry budget allows, deferrals
      included; a dead letter that is no poison pill has used up the budget, and the attempt count
      it records is one less than the number of handler runs. */
  lemma HandlerRunsStayInBudget<W>(breakers: map<W, BreakerTable>, steps: seq<Step<W>>, maxRetries: int, id: string)
    ensures var c := Run(Initial(breakers), steps, maxRetries);
            && Count(c.runs, id) <= Budget(maxRetries)
            && (id in c.status && c.status[id].DeadLettered? ==>
                  && id in c.types
                  && (HasHandler(c.types[id]) ==> c.status[id].recordedAttempts == Count(c.runs, id) - 1)
                  && (HasHandler(c.types[id]) && !c.status[id].poison ==> Count(c.runs, id) == Budget(maxRetries)))
  {
    InitialGood(breakers, maxRetries);
    RunKeeps(Initial(breakers), steps, maxRetries);
    var c := Run(Initial(breakers), steps, maxRetries);
    if id in c.status && !Finished(c, id) {
      if InQueue(c, id) {
        var i :| 0 <= i < |c.queue| && c.queue[i].id == id;
        assert Waiting(c.types, c.runs, c.queue[i], maxRetries);
      } else {
        assert InHand(c, id);
        var w :| w in c.workers && Holds(c.workers[w], id);
        assert HandTallied(c.types, c.runs, c.workers[w].hand, maxRetries);
      }
    }
  }

  ghost predicate RanNothing<W>(before: seq<(W, JobType)>, after: seq<(W, JobType)>, w: W, jobType: JobType) {
    before <= after && forall i :: |before| <= i < |after| ==> after[i] != (w, jobType)
  }

  lemma {:induction false} OpenStaysFrom<W>(c: Cluster<W>, steps: seq<Step<W>>, maxRetries: int, w: W, jobType: JobType)
    requires NoRunBehindOpen(c) && w in c.workers && BreakerOpen(c.workers[w].breakers, jobType)
    ensures var c' := Run(c, steps, maxRetries);
            && w in c'.workers
            && c'.workers[w].breakers[jobType] == c.workers[w].breakers[jobType]
            && RanNothing(c.ran, c'.ran, w, jobType)
    decreases |steps|
  {
    if steps != [] {
      var c1 := Apply(c, steps[0], maxRetries);
      ApplyKeepsNoRunBehindOpen(c, steps[0], maxRetries);
      OpenStepStays(c, steps[0], maxRetries, w, jobType);
      OpenStaysFrom(c1, steps[1..], maxRetries, w, jobType);
    }
  }

  /** What a step may do to worker `w` with an open breaker for `jobType`. */
  ghost predicate LeavesOpen<W>(c: Cluster<W>, c': Cluster<W>, w: W, jobType: JobType)
    requires w in c.workers && HasHandler(jobType)
  {
    && w in c'.workers
    && c'.workers[w].breakers[jobType] == c.workers[w].breakers[jobType]
    && RanNothing(c.ran, c'.ran, w, jobType)
  }

  lemma OpenBeginStays<W>(c: Cluster<W>, v: W, w: W, jobType: JobType)
    requires w in c.workers && BreakerOpen(c.workers[w].breakers, jobType)
    requires v in c.workers && c.workers[v].hand.Holding?
    ensures LeavesOpen(c, BeginJob(c, v, c.workers[v].hand.job), w, jobType)
  {
    hide Count;
  }

  lemma OpenEndStays<W>(c: Cluster<W>, v: W, run: HandlerRun, maxRetries: int, w: W, jobType: JobType)
    requires w in c.workers && HasHandler(jobType)
    requires v in c.workers && c.workers[v].hand.Handling? && (v == w ==> c.workers[v].hand.job.jobType != jobType)
    ensures LeavesOpen(c, EndJob(c, v, c.workers[v].hand.job, run, maxRetries), w, jobType)
  {
    if v == w { OtherBreakersStay(c.workers[v].breakers, c.workers[v].hand.job, run, jobType); }
    hide AfterRun, Succeeds, AfterFailure;
  }

  lemma OpenStepStays<W>(c: Cluster<W>, step: Step<W>, maxRetries: int, w: W, jobType: JobType)
    requires NoRunBehindOpen(c) && w in c.workers && BreakerOpen(c.workers[w].breakers, jobType)
    ensures LeavesOpen(c, Apply(c, step, maxRetries), w, jobType)
  {
    hide BeginJob, EndJob;
    match step {
      case Begin(v) =>
        if v in c.workers && c.workers[v].hand.Holding? { OpenBeginStays(c, v, w, jobType); }
      case End(v, run) =>
        if v in c.workers && c.workers[v].hand.Handling? { OpenEndStays(c, v, run, maxRetries, w, jobType); }
      case _ =>
    }
  }

  lemma OtherBreakersStay(breakers: BreakerTable, job: Job, run: HandlerRun, jobType: JobType)
    requires HasHandler(jobType) && job.jobType != jobType
    ensures AfterRun(breakers, job, run)[jobType] == breakers[jobType]
  {
  }

  /** Once a worker's breaker for a job type is open, it stays exactly as it is and the worker never
      runs a handler of that type again, however much time passes: the check before the call keeps
      the breaker from ever being asked, although the breaker alone would recover. */
  lemma OpenBreakerIsForever<W>(breakers: map<W, BreakerTable>, before: seq<Step<W>>, after: seq<Step<W>>,
                                maxRetries: int, w: W, jobType: JobType)
    requires w in Run(Initial(breakers), before, maxRetries).workers
    requires BreakerOpen(Run(Initial(breakers), before, maxRetries).workers[w].breakers, jobType)
    ensures var c := Run(Initial(breakers), before, maxRetries);
            var c' := Run(c, after, maxRetries);
            && w in c'.workers
            && c'.workers[w].breakers[jobType] == c.workers[w].breakers[jobType]
            && RanNothing(c.ran, c'.ran, w, jobType)
  {
    InitialGood(breakers, maxRetries);
    RunKeeps(Initial(breakers), before, maxRetries);
    OpenStaysFrom(Run(Initial(breakers), before, maxRetries), after, maxRetries, w, jobType);
  }
}
