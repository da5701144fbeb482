/**
 Runs of the whole queue: any producers, any number of consumers, any faults, in any order.
 A world is the broker's queues plus a ledger of what happened so far. Everything below is
 about all step sequences from the empty world (or, for the delivery bound, from any world).
 */
module QueueRuns {
  import opened Prelude
  import opened Broker
  import opened Delivery

  /** What `enqueue` was asked to run, without the bookkeeping fields of its envelope. */
  datatype Job = Job(id: string, kind: string, payload: Payload)

  datatype World = World(
    queues: Queues,
    stored: set<Job>,            // published by `enqueue` and kept by the broker
    accepted: set<Job>,          // those for which `enqueue` returned True
    completed: multiset<Job>,    // handler runs that returned
    failed: multiset<Job>,       // handler runs that raised
    arrivals: nat,               // messages stored by anyone but a consumer
    handled: nat,                // deliveries a consumer dealt with
    faults: nat)                 // handled deliveries during which the broker misbehaved

  datatype Step =
    | Enqueue(job: Job, fate: PublishFate)
    | Inject(raw: string)                       // some other publisher's undecodable message
    | Hand                                      // the broker delivers the oldest ready message
    | Handle(tag: nat, outcome: Outcome, publish: PublishFate, settle: SettleFate)
    | Straggle(job: Job, outcome: Outcome)      // a handler ends after its delivery was taken back
    | TakeBack(position: nat)                   // channel loss or cancelled consumer

  const EMPTY: World := World(Queues([], [], 0), {}, {}, multiset{}, multiset{}, 0, 0, 0)

  function Fresh(job: Job): Envelope {
    Envelope(job.id, job.kind, job.payload, 0, None)
  }

  function JobOf(e: Envelope): Job { Job(e.id, e.kind, e.payload) }

  /** The handler's part of the ledger, for one handled body. */
  function Record(policy: Policy, w: World, body: Body, outcome: Outcome, faulty: bool): World {
    var w' := w.(handled := w.handled + 1, faults := w.faults + if faulty then 1 else 0);
    if !Runs(policy, body) then w'
    else if outcome.Returned? then w'.(completed := w.completed + multiset{JobOf(body.envelope)})
    else w'.(failed := w.failed + multiset{JobOf(body.envelope)})
  }

  /** One step; a step that is not enabled changes nothing. */
  function Apply(policy: Policy, w: World, step: Step): World {
    match step
    case Enqueue(job, fate) =>
      if fate.RaisedUnstored? || exists j :: j in w.stored && j.id == job.id then w
      else w.(queues := Publish(w.queues, Tasks, Encoded(Fresh(job)), fate),
              stored := w.stored + {job},
              accepted := if fate.Confirmed? then w.accepted + {job} else w.accepted,
              arrivals := w.arrivals + 1)
    case Inject(raw) =>
      w.(queues := Publish(w.queues, Tasks, Garbled(raw), Confirmed), arrivals := w.arrivals + 1)
    case Hand => w.(queues := Deliver(w.queues))
    case Handle(tag, outcome, publish, settle) => (
      match Find(w.queues.work, tag)
      case None => w
      case Some(body) =>
        var verdict := Judge(policy, body, outcome);
        Record(policy, w, body, outcome, Faulty(verdict, publish, settle))
          .(queues := Settle(w.queues, tag, verdict, publish, settle)))
    case Straggle(job, outcome) =>
      if job in w.stored then Record(policy, w, Encoded(Fresh(job)), outcome, true) else w
    case TakeBack(k) => w.(queues := Redeliver(w.queues, k))
  }

  function Run(policy: Policy, w: World, steps: seq<Step>): World {
    if steps == [] then w
    else Apply(policy, Run(policy, w, steps[..|steps| - 1]), steps[|steps| - 1])
  }

  lemma RunSnoc(policy: Policy, w: World, steps: seq<Step>, step: Step)
    ensures Run(policy, w, steps + [step]) == Apply(policy, Run(policy, w, steps), step)
  {
    assert (steps + [step])[..|steps|] == steps;
  }

  /** Storing a job under a new id. */
  lemma EnqueueApplied(policy: Policy, w: World, job: Job, fate: PublishFate)
    requires forall j | j in w.stored :: j.id != job.id
    ensures var q := Publish(w.queues, Tasks, Encoded(Fresh(job)), fate);
      && (fate.RaisedUnstored? ==> q == w.queues)
      && Apply(policy, w, Enqueue(job, fate)) ==
        if fate.RaisedUnstored? then w
        else w.(queues := q, stored := w.stored + {job},
                accepted := if fate.Confirmed? then w.accepted + {job} else w.accepted,
                arrivals := w.arrivals + 1)
  {}

  lemma HandleApplied(policy: Policy, w: World, tag: nat, outcome: Outcome, publish: PublishFate, settle: SettleFate)
    requires Find(w.queues.work, tag).Some?
    ensures var body := Find(w.queues.work, tag).value; var verdict := Judge(policy, body, outcome);
      Apply(policy, w, Handle(tag, outcome, publish, settle)) ==
        Record(policy, w, body, outcome, Faulty(verdict, publish, settle))
          .(queues := Settle(w.queues, tag, verdict, publish, settle))
  {
    hide Find, Judge, Faulty, Settle;
  }

  lemma RecordSame(policy: Policy, w: World, queues: Queues, body: Body, outcome: Outcome, faulty: bool)
    ensures Record(policy, w.(queues := queues), body, outcome, faulty)
         == Record(policy, w, body, outcome, faulty).(queues := queues)
  {}

  // ---- Copies of a job ----

  predicate Carries(body: Body, job: Job) {
    body.Encoded? && JobOf(body.envelope) == job
  }

  function Copy(job: Job): Body -> int { b => if Carries(b, job) then 1 else 0 }

  function Copies(q: Queues, job: Job): int { Weight(q, Copy(job), Copy(job)) }

  /** Everything that still stands for the job: copies held by the broker, and completed runs. */
  function Tally(w: World, job: Job): int { w.completed[job] + Copies(w.queues, job) }

  function Nothing(): Body -> int { _ => 0 }

  lemma WeightNonNegative(q: Queues, g: Body -> int, h: Body -> int)
    requires forall b: Body :: 0 <= g(b)
    requires forall b: Body :: 0 <= h(b)
    ensures 0 <= Sum(q.work, OfEntry(g)) && 0 <= Sum(q.dlq, h)
  {
    forall e | e in q.work
      ensures 0 <= OfEntry(g)(e)
    {
      assert OfEntry(g)(e) == g(e.body);
    }
    SumNonNegative(q.work, OfEntry(g));
    SumNonNegative(q.dlq, h);
  }

  /** A step's effect on any measure of the queues. */
  lemma StepWeight(policy: Policy, w: World, step: Step, g: Body -> int, h: Body -> int)
    ensures var w' := Apply(policy, w, step);
      Weight(w'.queues, g, h) == Weight(w.queues, g, h) +
        match step
        case Enqueue(job, _) => if w'.arrivals == w.arrivals then 0 else g(Encoded(Fresh(job)))
        case Inject(raw) => g(Garbled(raw))
        case Handle(tag, outcome, publish, settle) => (
          match Find(w.queues.work, tag)
          case None => 0
          case Some(body) => Change(body, Judge(policy, body, outcome), publish, settle, g, h))
        case _ => 0
  {
    match step
    case Enqueue(job, fate) => PublishWeight(w.queues, Tasks, Encoded(Fresh(job)), fate, g, h);
    case Inject(raw) => PublishWeight(w.queues, Tasks, Garbled(raw), Confirmed, g, h);
    case Hand =>
      var k := FirstReady(w.queues.work);
      if k < |w.queues.work| {
        SumRestatus(w.queues.work, k, Unacked(w.queues.nextTag), g);
      }
    case Handle(tag, outcome, publish, settle) =>
      if Find(w.queues.work, tag).Some? {
        SettleWeight(w.queues, tag, Judge(policy, Find(w.queues.work, tag).value, outcome), publish, settle, g, h);
      }
    case Straggle(_, _) =>
    case TakeBack(k) =>
      if k < |w.queues.work| {
        SumRestatus(w.queues.work, k, Ready, g);
      }
  }

  /** Settling moves a copy or completes it, and a fault adds at most one. */
  lemma JudgedCopy(policy: Policy, body: Body, outcome: Outcome, publish: PublishFate, settle: SettleFate, job: Job)
    ensures var verdict := Judge(policy, body, outcome);
      var done := if Runs(policy, body) && outcome.Returned? && Carries(body, job) then 1 else 0;
      var change := Change(body, verdict, publish, settle, Copy(job), Copy(job)) + done;
      && (!Carries(body, job) ==> change == 0)
      && 0 <= change <= if Faulty(verdict, publish, settle) then 1 else 0
  {
    var verdict := Judge(policy, body, outcome);
    if !verdict.Succeeded? {
      assert Carries(verdict.body, job) == Carries(body, job);
    }
  }

  lemma TallyStep(policy: Policy, w: World, step: Step, job: Job)
    ensures var w' := Apply(policy, w, step);
      if job in w.stored || job !in w'.stored
      then 0 <= Tally(w', job) - Tally(w, job) <= w'.faults - w.faults
      else Tally(w', job) == Tally(w, job) + 1
  {
    StepWeight(policy, w, step, Copy(job), Copy(job));
    match step
    case Handle(tag, outcome, publish, settle) =>
      if Find(w.queues.work, tag).Some? {
        JudgedCopy(policy, Find(w.queues.work, tag).value, outcome, publish, settle, job);
      }
    case _ =>
  }

  /** A job that was never stored is neither held nor run. */
  lemma StrangerStep(policy: Policy, w: World, step: Step, job: Job)
    requires Tally(w, job) == 0 && w.completed[job] == 0 && w.failed[job] == 0
    requires job !in Apply(policy, w, step).stored
    ensures var w' := Apply(policy, w, step);
      Tally(w', job) == 0 && w'.completed[job] == 0 && w'.failed[job] == 0
  {
    StepWeight(policy, w, step, Copy(job), Copy(job));
    if step.Handle? {
      HandledCopyIsKnown(w, step.tag, job);
      if Find(w.queues.work, step.tag).Some? {
        JudgedCopy(policy, Find(w.queues.work, step.tag).value, step.outcome, step.publish, step.settle, job);
      }
    }
  }

  predicate Accounted(w: World, job: Job) {
    && w.accepted <= w.stored
    && (job in w.stored ==> 1 <= Tally(w, job) <= 1 + w.faults)
    && (job !in w.stored ==> Tally(w, job) == 0 && w.completed[job] == 0 && w.failed[job] == 0)
  }

  lemma AccountedStep(policy: Policy, w: World, step: Step, job: Job)
    requires Accounted(w, job)
    ensures Accounted(Apply(policy, w, step), job)
  {
    var w' := Apply(policy, w, step);
    TallyStep(policy, w, step, job);
    assert w.stored <= w'.stored && w'.accepted <= w'.stored;
    if job !in w'.stored {
      StrangerStep(policy, w, step, job);
    }
  }

  predicate Blank(w: World) {
    w.queues.work == [] && w.queues.dlq == [] && w.stored == {} && w.accepted == {}
    && w.completed == multiset{} && w.failed == multiset{}
  }

  lemma BlankAccounted(w: World, job: Job)
    requires Blank(w)
    ensures Accounted(w, job)
  {
    assert Copies(w.queues, job) == 0;
  }

  /**
   At least once, and no more copies than faults: in every run a stored job stays accounted for,
   and is duplicated at most once per fault. A job never stored leaves no trace.
   */
  lemma {:induction false} Conservation(policy: Policy, steps: seq<Step>, job: Job)
    ensures Accounted(Run(policy, EMPTY, steps), job)
  {
    if steps == [] {
      BlankAccounted(EMPTY, job);
    } else {
      var last := |steps| - 1;
      Conservation(policy, steps[..last], job);
      AccountedStep(policy, Run(policy, EMPTY, steps[..last]), steps[last], job);
    }
  }

  /** A delivery that carries a job is one of its copies. */
  lemma HandledCopyIsKnown(w: World, tag: nat, job: Job)
    ensures Find(w.queues.work, tag).Some? && Carries(Find(w.queues.work, tag).value, job)
        ==> 1 <= Copies(w.queues, job)
  {
    WeightNonNegative(w.queues, Copy(job), Copy(job));
    if Find(w.queues.work, tag).Some? {
      SumWithout(w.queues.work, tag, Copy(job));
      SumNonNegative(Without(w.queues.work, tag), OfEntry(Copy(job)));
    }
  }

  /** No loss: whatever `enqueue` accepted has been completed, or is queued, or is in the dead-letter queue. */
  lemma {:induction false} NoLoss(policy: Policy, steps: seq<Step>, job: Job)
    requires job in Run(policy, EMPTY, steps).accepted
    ensures var w := Run(policy, EMPTY, steps);
      || job in w.completed
      || (exists e :: e in w.queues.work && Carries(e.body, job))
      || (exists b :: b in w.queues.dlq && Carries(b, job))
  {
    var w := Run(policy, EMPTY, steps);
    Conservation(policy, steps, job);
    if job !in w.completed {
      if Sum(w.queues.work, OfEntry(Copy(job))) > 0 {
        SumWitness(w.queues.work, OfEntry(Copy(job)));
      } else {
        SumWitness(w.queues.dlq, Copy(job));
      }
    }
  }

  /** Nothing is invented or altered: every envelope the broker holds is a stored job's. */
  lemma {:induction false} NothingInvented(policy: Policy, steps: seq<Step>, body: Body)
    requires body.Encoded?
    requires var q := Run(policy, EMPTY, steps).queues;
      body in q.dlq || exists e :: e in q.work && e.body == body
    ensures JobOf(body.envelope) in Run(policy, EMPTY, steps).stored
  {
    var w := Run(policy, EMPTY, steps);
    var job := JobOf(body.envelope);
    Conservation(policy, steps, job);
    WeightNonNegative(w.queues, Copy(job), Copy(job));
    if body in w.queues.dlq {
      SumCovers(w.queues.dlq, Copy(job), body);
    } else {
      var e :| e in w.queues.work && e.body == body;
      SumCovers(w.queues.work, OfEntry(Copy(job)), e);
    }
  }

  // ---- Messages that do not decode ----

  /** How often some undecodable bytes were published. */
  function Injected(steps: seq<Step>, raw: string): nat {
    if steps == [] then 0
    else Injected(steps[..|steps| - 1], raw) + if steps[|steps| - 1] == Inject(raw) then 1 else 0
  }

  function Raw(raw: string): Body -> int { (b: Body) => if b == Garbled(raw) then 1 else 0 }

  /** The copies of those bytes in the two queues. */
  function RawCopies(q: Queues, raw: string): int {
    Sum(q.work, OfEntry(Raw(raw))) + Sum(q.dlq, Raw(raw))
  }

  lemma JudgedRaw(policy: Policy, body: Body, outcome: Outcome, publish: PublishFate, settle: SettleFate, raw: string)
    ensures var verdict := Judge(policy, body, outcome);
      0 <= Change(body, verdict, publish, settle, Raw(raw), Raw(raw))
        <= if Faulty(verdict, publish, settle) then 1 else 0
  {}

  lemma RawStep(policy: Policy, w: World, step: Step, raw: string)
    ensures var w' := Apply(policy, w, step);
      var come := if step == Inject(raw) then 1 else 0;
      0 <= RawCopies(w'.queues, raw) - RawCopies(w.queues, raw) - come <= w'.faults - w.faults
  {
    hide Publish, Settle, Deliver, Redeliver, Judge, Change, Find;
    StepWeight(policy, w, step, Raw(raw), Raw(raw));
    if step.Handle? && Find(w.queues.work, step.tag).Some? {
      var body := Find(w.queues.work, step.tag).value;
      JudgedRaw(policy, body, step.outcome, step.publish, step.settle, raw);
    }
  }

  /**
   No undecodable message is lost either: in every run there are at least as many copies of it in the two queues as
   were published, and at most one more per fault; without faults exactly as many.
   */
  lemma {:induction false} RawConservation(policy: Policy, steps: seq<Step>, raw: string)
    ensures var w := Run(policy, EMPTY, steps);
      && Injected(steps, raw) <= RawCopies(w.queues, raw) <= Injected(steps, raw) + w.faults
      && (w.faults == 0 ==> RawCopies(w.queues, raw) == Injected(steps, raw))
  {
    hide RawCopies, Apply;
    if steps == [] {
      NoRawCopies(EMPTY, raw);
    } else {
      var last := |steps| - 1;
      RawConservation(policy, steps[..last], raw);
      RawStep(policy, Run(policy, EMPTY, steps[..last]), steps[last], raw);
    }
  }

  lemma NoRawCopies(w: World, raw: string)
    requires Blank(w)
    ensures RawCopies(w.queues, raw) == 0
  {}

  /**
   Handling an undecodable delivery moves it from the work queue to the dead-letter queue, whether its publish
   succeeds or the queue's own dead-letter exchange takes over.
   */
  lemma RawIsBuried(policy: Policy, w: World, step: Step, raw: string)
    requires step.Handle? && Find(w.queues.work, step.tag) == Some(Garbled(raw))
    requires !step.publish.RaisedAfterStore? && step.settle.Applied?
    ensures var q, q' := w.queues, Apply(policy, w, step).queues;
      && q'.dlq == q.dlq + [Garbled(raw)]
      && Sum(q'.work, OfEntry(Raw(raw))) == Sum(q.work, OfEntry(Raw(raw))) - 1
      && |q'.work| == |q.work| - 1
  {
    hide Sum;
    SumWithout(w.queues.work, step.tag, Raw(raw));
    WithoutShrinks(w.queues.work, step.tag);
  }

  lemma {:induction false} WithoutShrinks(work: seq<Entry>, tag: nat)
    requires Find(work, tag).Some?
    ensures |Without(work, tag)| == |work| - 1
  {
    if work[0].status != Unacked(tag) {
      WithoutShrinks(work[1..], tag);
    }
  }

  // ---- Attempts, and the amortised number of deliveries ----

  predicate InRange(policy: Policy, body: Body) {
    body.Encoded? ==> 0 <= body.envelope.attempts < policy.maxRetries
  }

  function OutOfRange(policy: Policy): Body -> int { b => if InRange(policy, b) then 0 else 1 }

  /** The deliveries a queued message may still cost. */
  function Budget(policy: Policy): Body -> int {
    (b: Body) => if b.Garbled? then 1 else policy.maxRetries - b.envelope.attempts
  }

  predicate AllInRange(policy: Policy, w: World) {
    forall e | e in w.queues.work :: InRange(policy, e.body)
  }

  lemma RangeStep(policy: Policy, w: World, step: Step)
    requires policy.Valid() && AllInRange(policy, w)
    ensures AllInRange(policy, Apply(policy, w, step))
  {
    var w' := Apply(policy, w, step);
    var bad := OutOfRange(policy);
    SumAtMost(w.queues.work, OfEntry(bad), 0);
    SumZero(w.queues.dlq);
    SumZero(w'.queues.dlq);
    StepWeight(policy, w, step, bad, Nothing());
    if step.Handle? && Find(w.queues.work, step.tag).Some? {
      DeliveredInRange(policy, w, step.tag);
    }
    forall e | e in w'.queues.work
      ensures InRange(policy, e.body)
    {
      SumCovers(w'.queues.work, OfEntry(bad), e);
    }
  }

  lemma {:induction false} SumZero(dlq: seq<Body>)
    ensures Sum(dlq, Nothing()) == 0
  {
    if dlq != [] {
      SumZero(dlq[1..]);
    }
  }

  lemma DeliveredInRange(policy: Policy, w: World, tag: nat)
    requires AllInRange(policy, w) && Find(w.queues.work, tag).Some?
    ensures InRange(policy, Find(w.queues.work, tag).value)
  {
    FindIsMember(w.queues.work, tag);
  }

  lemma {:induction false} FindIsMember(work: seq<Entry>, tag: nat)
    requires Find(work, tag).Some?
    ensures Entry(Find(work, tag).value, Unacked(tag)) in work
  {
    if work[0].status != Unacked(tag) {
      FindIsMember(work[1..], tag);
    }
  }

  /** A delivery settled without a fault spends budget; with a fault it may add less than one message's worth. */
  lemma JudgedBudget(policy: Policy, body: Body, outcome: Outcome, publish: PublishFate, settle: SettleFate)
    requires policy.Valid() && InRange(policy, body)
    ensures var verdict := Judge(policy, body, outcome);
      Change(body, verdict, publish, settle, Budget(policy), Nothing()) + 1
      <= if Faulty(verdict, publish, settle) then policy.maxRetries else 0
  {}

  /** Between two worlds of a run, the budget has paid for the deliveries, helped by arrivals and faults. */
  predicate Paid(policy: Policy, w: World, w': World) {
    Weight(w'.queues, Budget(policy), Nothing()) - Weight(w.queues, Budget(policy), Nothing())
    + (w'.handled - w.handled)
    <= policy.maxRetries * ((w'.arrivals - w.arrivals) + (w'.faults - w.faults))
  }

  /** The budget pays for each delivery, unless the broker misbehaved during it. */
  lemma BudgetStep(policy: Policy, w: World, step: Step)
    requires policy.Valid() && AllInRange(policy, w)
    ensures Paid(policy, w, Apply(policy, w, step))
  {
    hide Weight, Find, Publish, Settle, Deliver, Redeliver, Judge, Change;
    var w' := Apply(policy, w, step);
    var paid := (w'.arrivals - w.arrivals) + (w'.faults - w.faults);
    StepWeight(policy, w, step, Budget(policy), Nothing());
    if step.Handle? && Find(w.queues.work, step.tag).Some? {
      DeliveredInRange(policy, w, step.tag);
      JudgedBudget(policy, Find(w.queues.work, step.tag).value, step.outcome, step.publish, step.settle);
    }
    assert paid == 0 || paid == 1;
    assert policy.maxRetries * paid == if paid == 0 then 0 else policy.maxRetries;
  }

  lemma PaidTransitive(policy: Policy, u: World, v: World, w: World)
    requires Paid(policy, u, v) && Paid(policy, v, w)
    ensures Paid(policy, u, w)
  {
    Distribute(policy.maxRetries, (v.arrivals - u.arrivals) + (v.faults - u.faults),
               (w.arrivals - v.arrivals) + (w.faults - v.faults));
  }

  lemma Distribute(k: int, a: int, b: int)
    ensures k * a + k * b == k * (a + b)
  {}

  lemma {:induction false} BudgetRun(policy: Policy, w: World, steps: seq<Step>)
    requires policy.Valid() && AllInRange(policy, w)
    ensures AllInRange(policy, Run(policy, w, steps)) && Paid(policy, w, Run(policy, w, steps))
  {
    if steps != [] {
      var last := |steps| - 1;
      var m := Run(policy, w, steps[..last]);
      BudgetRun(policy, w, steps[..last]);
      RangeStep(policy, m, steps[last]);
      BudgetStep(policy, m, steps[last]);
      PaidTransitive(policy, w, m, Run(policy, w, steps));
    }
  }

  /** Each message in the queue is worth between nothing and maxRetries deliveries. */
  lemma BudgetBounds(policy: Policy, w: World)
    requires policy.Valid() && AllInRange(policy, w)
    ensures 0 <= Weight(w.queues, Budget(policy), Nothing()) <= policy.maxRetries * |w.queues.work|
  {
    SumAtMost(w.queues.work, OfEntry(Budget(policy)), policy.maxRetries);
    SumNonNegative(w.queues.work, OfEntry(Budget(policy)));
    SumZero(w.queues.dlq);
  }

  /**
   The amortised bound: from any world whose messages have attempts in range, the deliveries handled
   number at most maxRetries for each message there or arriving, and maxRetries more for each fault.
   The range itself is kept.
   */
  lemma {:induction false} AmortisedDeliveries(policy: Policy, w: World, steps: seq<Step>)
    requires policy.Valid() && AllInRange(policy, w)
    ensures var w' := Run(policy, w, steps);
      && AllInRange(policy, w')
      && w'.handled - w.handled
         <= policy.maxRetries * (|w.queues.work| + (w'.arrivals - w.arrivals) + (w'.faults - w.faults))
  {
    hide Run, Weight, AllInRange;
    var w' := Run(policy, w, steps);
    BudgetRun(policy, w, steps);
    BudgetBounds(policy, w);
    BudgetBounds(policy, w');
    Distribute(policy.maxRetries, |w.queues.work|, (w'.arrivals - w.arrivals) + (w'.faults - w.faults));
  }

  // ---- The life of a job ----

  /** Copies of the job whose attempt count differs from `n`. */
  function Miscounted(job: Job, n: int): Body -> int {
    (b: Body) => if Carries(b, job) && b.envelope.attempts != n then 1 else 0
  }

  /** Copies of the job that record more attempts than `n`. */
  function Overcounted(job: Job, n: int): Body -> int {
    (b: Body) => if Carries(b, job) && b.envelope.attempts > n then 1 else 0
  }

  /** Dead-lettered copies of a runnable job that do not record an exhausted, failed job. */
  function Unexhausted(policy: Policy, job: Job): Body -> int {
    (b: Body) => if Carries(b, job) && job.kind in policy.handlers
            && !(b.envelope.attempts == policy.maxRetries && b.envelope.error.Some?)
         then 1 else 0
  }

  predicate Honest(w: World, job: Job) {
    Weight(w.queues, Overcounted(job, w.failed[job]), Overcounted(job, w.failed[job])) == 0
  }

  /** The retry of an honest delivery is honest about one more failure. */
  lemma JudgedHonest(policy: Policy, body: Body, outcome: Outcome, publish: PublishFate, settle: SettleFate,
                     job: Job, n: nat)
    requires Overcounted(job, n)(body) == 0
    ensures var n' := if Runs(policy, body) && outcome.Raised? && Carries(body, job) then n + 1 else n;
      Change(body, Judge(policy, body, outcome), publish, settle, Overcounted(job, n'), Overcounted(job, n')) <= 0
  {}

  lemma MoreFailures(q: Queues, job: Job, n: nat, n': nat)
    requires Weight(q, Overcounted(job, n), Overcounted(job, n)) == 0 && n <= n'
    ensures Weight(q, Overcounted(job, n'), Overcounted(job, n')) <= 0
  {
    var before, after := Overcounted(job, n), Overcounted(job, n');
    SumMonotone(q.work, OfEntry(after), OfEntry(before));
    SumMonotone(q.dlq, after, before);
  }

  lemma HonestCopy(q: Queues, tag: nat, job: Job, n: nat)
    requires Weight(q, Overcounted(job, n), Overcounted(job, n)) == 0 && Find(q.work, tag).Some?
    ensures Overcounted(job, n)(Find(q.work, tag).value) == 0
  {
    var g := Overcounted(job, n);
    SumWithout(q.work, tag, g);
    SumNonNegative(Without(q.work, tag), OfEntry(g));
    SumNonNegative(q.dlq, g);
  }

  lemma HonestStep(policy: Policy, w: World, step: Step, job: Job)
    requires Honest(w, job)
    ensures Honest(Apply(policy, w, step), job)
  {
    hide Publish, Settle, Deliver, Redeliver, Judge, Change, Without, Sum, Find;
    var w' := Apply(policy, w, step);
    var after := Overcounted(job, w'.failed[job]);
    StepWeight(policy, w, step, after, after);
    MoreFailures(w.queues, job, w.failed[job], w'.failed[job]);
    WeightNonNegative(w'.queues, after, after);
    if step.Handle? && Find(w.queues.work, step.tag).Some? {
      HonestCopy(w.queues, step.tag, job, w.failed[job]);
      var body := Find(w.queues.work, step.tag).value;
      JudgedHonest(policy, body, step.outcome, step.publish, step.settle, job, w.failed[job]);
    }
  }

  /** No message ever claims more attempts than its handler really failed. */
  lemma {:induction false} AttemptsAreHonest(policy: Policy, steps: seq<Step>, job: Job)
    ensures Honest(Run(policy, EMPTY, steps), job)
  {
    if steps == [] {
      BlankHonest(EMPTY, job);
    } else {
      var last := |steps| - 1;
      AttemptsAreHonest(policy, steps[..last], job);
      HonestStep(policy, Run(policy, EMPTY, steps[..last]), steps[last], job);
    }
  }

  lemma BlankHonest(w: World, job: Job)
    requires Blank(w)
    ensures Honest(w, job)
  {}

  // ---- Without faults ----

  function Queued(w: World, job: Job): int { Sum(w.queues.work, OfEntry(Copy(job))) }

  function Buried(w: World, job: Job): int { Sum(w.queues.dlq, Copy(job)) }

  /** In a fault-free world the copies of a job record exactly its failures, and burial means exhaustion. */
  predicate Exact(policy: Policy, w: World, job: Job) {
    && Weight(w.queues, Miscounted(job, w.failed[job]), Miscounted(job, w.failed[job])) == 0
    && Weight(w.queues, Nothing(), Unexhausted(policy, job)) == 0
    && (job in w.completed ==> w.failed[job] < policy.maxRetries)
    && (job.kind !in policy.handlers ==> w.failed[job] == 0)
  }

  lemma JudgedExact(policy: Policy, body: Body, outcome: Outcome, job: Job, n: nat)
    requires policy.Valid() && InRange(policy, body)
    requires Carries(body, job) ==> body.envelope.attempts == n
    ensures var verdict := Judge(policy, body, outcome);
      var failing := Runs(policy, body) && outcome.Raised? && Carries(body, job);
      var n' := if failing then n + 1 else n;
      && Change(body, verdict, Confirmed, Applied, Miscounted(job, n'), Miscounted(job, n'))
         == (if failing then -1 else 0)
      && Change(body, verdict, Confirmed, Applied, Nothing(), Unexhausted(policy, job)) == 0
  {}

  /** A fault-free delivery of the job takes its only copy, so the remaining copies cannot be miscounted. */
  lemma ExactHandle(policy: Policy, w: World, step: Step, job: Job)
    requires policy.Valid() && AllInRange(policy, w) && Accounted(w, job) && Exact(policy, w, job)
    requires step.Handle? && Find(w.queues.work, step.tag).Some? && w.faults == 0
    requires !Faulty(Judge(policy, Find(w.queues.work, step.tag).value, step.outcome), step.publish, step.settle)
    ensures Exact(policy, Apply(policy, w, step), job)
  {
    var w' := Apply(policy, w, step);
    var body := Find(w.queues.work, step.tag).value;
    DeliveredInRange(policy, w, step.tag);
    assert !Carries(body, job)
        || (body.envelope.attempts == w.failed[job] && Copies(w.queues, job) == 1 && w.completed[job] == 0)
    by {
      HandledCopyIsKnown(w, step.tag, job);
      var before := Miscounted(job, w.failed[job]);
      WeightNonNegative(w.queues, before, before);
      SumWithout(w.queues.work, step.tag, before);
      SumNonNegative(Without(w.queues.work, step.tag), OfEntry(before));
    }
    assert Weight(w'.queues, Miscounted(job, w'.failed[job]), Miscounted(job, w'.failed[job])) == 0 by {
      var after := Miscounted(job, w'.failed[job]);
      StepWeight(policy, w, step, after, after);
      WeightNonNegative(w'.queues, after, after);
      SumMonotone(w.queues.work, OfEntry(after), OfEntry(Copy(job)));
      SumMonotone(w.queues.dlq, after, Copy(job));
      SettleWithoutFault(policy, body, step, job, w.failed[job]);
    }
    assert Weight(w'.queues, Nothing(), Unexhausted(policy, job)) == 0 by {
      StepWeight(policy, w, step, Nothing(), Unexhausted(policy, job));
      SettleWithoutFault(policy, body, step, job, w.failed[job]);
    }
  }

  lemma ExactOther(policy: Policy, w: World, step: Step, job: Job)
    requires policy.Valid() && Accounted(w, job) && Exact(policy, w, job)
    requires !step.Handle? && Apply(policy, w, step).faults == 0
    ensures Exact(policy, Apply(policy, w, step), job)
  {
    var w' := Apply(policy, w, step);
    var count := Miscounted(job, w.failed[job]);
    StepWeight(policy, w, step, count, count);
    StepWeight(policy, w, step, Nothing(), Unexhausted(policy, job));
    assert w'.failed == w.failed && w'.completed == w.completed;
  }

  lemma FaultsGrow(policy: Policy, w: World, step: Step)
    ensures w.faults <= Apply(policy, w, step).faults
    ensures step.Handle? && Find(w.queues.work, step.tag).Some?
      && Faulty(Judge(policy, Find(w.queues.work, step.tag).value, step.outcome), step.publish, step.settle)
      ==> w.faults < Apply(policy, w, step).faults
  {}

  lemma ExactStep(policy: Policy, w: World, step: Step, job: Job)
    requires policy.Valid() && AllInRange(policy, w) && Accounted(w, job) && Exact(policy, w, job)
    requires Apply(policy, w, step).faults == 0
    ensures Exact(policy, Apply(policy, w, step), job)
  {
    FaultsGrow(policy, w, step);
    if !step.Handle? {
      ExactOther(policy, w, step, job);
    } else if Find(w.queues.work, step.tag).Some? {
      ExactHandle(policy, w, step, job);
    }
  }

  /** JudgedExact for a handled step that was not faulty, whatever its unused publish fate. */
  lemma SettleWithoutFault(policy: Policy, body: Body, step: Step, job: Job, n: nat)
    requires policy.Valid() && InRange(policy, body) && step.Handle?
    requires Carries(body, job) ==> body.envelope.attempts == n
    requires !Faulty(Judge(policy, body, step.outcome), step.publish, step.settle)
    ensures var verdict := Judge(policy, body, step.outcome);
      var failing := Runs(policy, body) && step.outcome.Raised? && Carries(body, job);
      var n' := if failing then n + 1 else n;
      && Change(body, verdict, step.publish, step.settle, Miscounted(job, n'), Miscounted(job, n'))
         == (if failing then -1 else 0)
      && Change(body, verdict, step.publish, step.settle, Nothing(), Unexhausted(policy, job)) == 0
  {
    JudgedExact(policy, body, step.outcome, job, n);
  }

  predicate ExactIfFaultFree(policy: Policy, w: World, job: Job) {
    AllInRange(policy, w) && Accounted(w, job) && (w.faults == 0 ==> Exact(policy, w, job))
  }

  lemma ExactIfFaultFreeStep(policy: Policy, w: World, step: Step, job: Job)
    requires policy.Valid() && ExactIfFaultFree(policy, w, job)
    ensures ExactIfFaultFree(policy, Apply(policy, w, step), job)
  {
    RangeStep(policy, w, step);
    AccountedStep(policy, w, step, job);
    FaultsGrow(policy, w, step);
    if Apply(policy, w, step).faults == 0 {
      ExactStep(policy, w, step, job);
    }
  }

  lemma {:induction false} ExactRun(policy: Policy, steps: seq<Step>, job: Job)
    requires policy.Valid()
    ensures ExactIfFaultFree(policy, Run(policy, EMPTY, steps), job)
  {
    if steps == [] {
      BlankExact(policy, EMPTY, job);
    } else {
      var last := |steps| - 1;
      ExactRun(policy, steps[..last], job);
      ExactIfFaultFreeStep(policy, Run(policy, EMPTY, steps[..last]), steps[last], job);
    }
  }

  lemma BlankExact(policy: Policy, w: World, job: Job)
    requires Blank(w)
    ensures ExactIfFaultFree(policy, w, job)
  {
    BlankAccounted(w, job);
  }

  /** A queued copy of a job records its failures. */
  lemma QueuedCopy(policy: Policy, w: World, job: Job)
    requires Exact(policy, w, job) && Queued(w, job) == 1
    ensures exists e :: e in w.queues.work && Carries(e.body, job) && e.body.envelope.attempts == w.failed[job]
  {
    var miss := Miscounted(job, w.failed[job]);
    WeightNonNegative(w.queues, miss, miss);
    SumWitness(w.queues.work, OfEntry(Copy(job)));
    var e :| e in w.queues.work && 0 < OfEntry(Copy(job))(e);
    assert Carries(e.body, job);
    SumCovers(w.queues.work, OfEntry(miss), e);
  }

  /** A buried copy of a job records its failures, and if its type has a handler they exhausted it. */
  lemma BuriedCopy(policy: Policy, w: World, job: Job)
    requires Exact(policy, w, job) && Buried(w, job) == 1
    ensures w.failed[job] == if job.kind in policy.handlers then policy.maxRetries else 0
    ensures exists b :: b in w.queues.dlq && Carries(b, job) && b.envelope.attempts == w.failed[job]
                     && (job.kind in policy.handlers ==> b.envelope.error.Some?)
  {
    var miss := Miscounted(job, w.failed[job]);
    WeightNonNegative(w.queues, miss, miss);
    WeightNonNegative(w.queues, Nothing(), Unexhausted(policy, job));
    SumZeroWork(w.queues.work);
    SumWitness(w.queues.dlq, Copy(job));
    var b :| b in w.queues.dlq && 0 < Copy(job)(b);
    assert Carries(b, job);
    SumCovers(w.queues.dlq, miss, b);
    SumCovers(w.queues.dlq, Unexhausted(policy, job), b);
  }

  lemma {:induction false} SumZeroWork(work: seq<Entry>)
    ensures Sum(work, OfEntry(Nothing())) == 0
  {
    if work != [] {
      SumZeroWork(work[1..]);
    }
  }

  /**
   Exactly once without faults. A stored job is in exactly one of three places: still queued, with its failures
   on record; completed once, before exhausting its attempts; or dead-lettered once, which for a
   registered type means after exactly maxRetries failed runs and for any other type after none.
   */
  lemma {:induction false} FaultFreeLife(policy: Policy, steps: seq<Step>, job: Job)
    requires policy.Valid()
    requires var w := Run(policy, EMPTY, steps); w.faults == 0 && job in w.stored
    ensures var w := Run(policy, EMPTY, steps);
      && Queued(w, job) + w.completed[job] + Buried(w, job) == 1
      && 0 <= Queued(w, job) && 0 <= Buried(w, job)
      && (Queued(w, job) == 1 ==>
            && w.failed[job] < policy.maxRetries
            && exists e :: e in w.queues.work && Carries(e.body, job) && e.body.envelope.attempts == w.failed[job])
      && (w.completed[job] == 1 ==> w.failed[job] < policy.maxRetries)
      && (Buried(w, job) == 1 ==>
            && w.failed[job] == (if job.kind in policy.handlers then policy.maxRetries else 0)
            && exists b :: b in w.queues.dlq && Carries(b, job) && b.envelope.attempts == w.failed[job]
                             && (job.kind in policy.handlers ==> b.envelope.error.Some?))
  {
    hide Exact, Run;
    var w := Run(policy, EMPTY, steps);
    Conservation(policy, steps, job);
    ExactRun(policy, steps, job);
    WeightNonNegative(w.queues, Copy(job), Copy(job));
    if Queued(w, job) == 1 {
      QueuedCopy(policy, w, job);
    }
    if Buried(w, job) == 1 {
      BuriedCopy(policy, w, job);
    }
    ExactBounds(policy, w, job);
  }

  /** A job with a copy in the queue, or completed, has not exhausted its attempts. */
  lemma ExactBounds(policy: Policy, w: World, job: Job)
    requires Exact(policy, w, job) && AllInRange(policy, w)
    ensures w.completed[job] == 1 ==> w.failed[job] < policy.maxRetries
    ensures Queued(w, job) == 1 ==> w.failed[job] < policy.maxRetries
  {
    if Queued(w, job) == 1 {
      QueuedCopy(policy, w, job);
    }
  }

  // ---- Two lives ----

  /** The broker holding one message and no more, after `n` deliveries. */
  predicate Holds(q: Queues, body: Body, n: nat) {
    q.work == [Entry(body, Ready)] && q.dlq == [] && q.nextTag == n
  }

  function Attempted(job: Job, n: nat): Body { Encoded(Fresh(job).(attempts := n)) }

  /** One delivery of the only message. */
  function Round(n: nat, outcome: Outcome): seq<Step> { [Hand, Handle(n, outcome, Confirmed, Applied)] }

  lemma RoundRuns(policy: Policy, w: World, steps: seq<Step>, n: nat, outcome: Outcome, body: Body)
    requires w == Run(policy, EMPTY, steps) && Holds(w.queues, body, n)
    ensures var handed := w.(queues := Queues([Entry(body, Unacked(n))], [], n + 1));
      Run(policy, EMPTY, steps + Round(n, outcome)) == Apply(policy, handed, Handle(n, outcome, Confirmed, Applied))
  {
    hide Apply;
    var handle := Handle(n, outcome, Confirmed, Applied);
    RunSnoc(policy, EMPTY, steps, Hand);
    RunSnoc(policy, EMPTY, steps + [Hand], handle);
    assert steps + Round(n, outcome) == steps + [Hand] + [handle];
    HandOnly(policy, w, body, n);
  }

  lemma HandOnly(policy: Policy, w: World, body: Body, n: nat)
    requires Holds(w.queues, body, n)
    ensures Apply(policy, w, Hand) == w.(queues := Queues([Entry(body, Unacked(n))], [], n + 1))
  {}

  lemma Stored(policy: Policy, w: World, job: Job)
    requires Blank(w) && w.queues.nextTag == 0
    ensures var w' := Apply(policy, w, Enqueue(job, Confirmed));
      && Holds(w'.queues, Attempted(job, 0), 0) && w'.failed == w.failed && w'.completed == w.completed
      && w'.handled == w.handled && w'.faults == w.faults && job in w'.accepted
  {}

  /** What one failed delivery of the only message does. */
  lemma FailOnly(policy: Policy, w: World, job: Job, n: nat, message: string)
    requires policy.Valid() && job.kind in policy.handlers
    requires w.queues == Queues([Entry(Attempted(job, n), Unacked(n))], [], n + 1)
    ensures var w' := Apply(policy, w, Handle(n, Raised(message), Confirmed, Applied));
      && w'.failed == w.failed + multiset{job} && w'.completed == w.completed
      && w'.handled == w.handled + 1 && w'.faults == w.faults
      && if n + 1 < policy.maxRetries then Holds(w'.queues, Attempted(job, n + 1), n + 1)
         else w'.queues == Queues([], [Encoded(Fresh(job).(attempts := n + 1, error := Some(message)))], n + 1)
  {
    assert w.queues.work[1..] == [];
    assert [Entry(Attempted(job, n), Unacked(n))] + [Entry(Attempted(job, n + 1), Ready)]
        == [Entry(Attempted(job, n), Unacked(n)), Entry(Attempted(job, n + 1), Ready)];
  }

  function Failing(job: Job, n: nat, message: string): seq<Step> {
    if n == 0 then [Enqueue(job, Confirmed)] else Failing(job, n - 1, message) + Round(n - 1, Raised(message))
  }

  predicate FailedSoFar(w: World, job: Job, n: nat) {
    && w.failed[job] == n && w.completed == multiset{} && w.handled == n && w.faults == 0 && job in w.accepted
  }

  lemma AcceptedStays(policy: Policy, w: World, step: Step)
    ensures w.accepted <= Apply(policy, w, step).accepted
  {}

  lemma {:induction false} FailingRun(policy: Policy, job: Job, n: nat, message: string)
    requires policy.Valid() && job.kind in policy.handlers && n <= policy.maxRetries
    ensures var w := Run(policy, EMPTY, Failing(job, n, message));
      && FailedSoFar(w, job, n)
      && if n < policy.maxRetries then Holds(w.queues, Attempted(job, n), n)
         else w.queues == Queues([], [Encoded(Fresh(job).(attempts := n, error := Some(message)))], n)
  {
    hide Apply;
    if n == 0 {
      RunSnoc(policy, EMPTY, [], Enqueue(job, Confirmed));
      assert [] + [Enqueue(job, Confirmed)] == [Enqueue(job, Confirmed)];
      Stored(policy, EMPTY, job);
    } else {
      FailingRun(policy, job, n - 1, message);
      var steps := Failing(job, n - 1, message);
      var w := Run(policy, EMPTY, steps);
      RoundRuns(policy, w, steps, n - 1, Raised(message), Attempted(job, n - 1));
      var handed := w.(queues := Queues([Entry(Attempted(job, n - 1), Unacked(n - 1))], [], n));
      FailOnly(policy, handed, job, n - 1, message);
      AcceptedStays(policy, handed, Handle(n - 1, Raised(message), Confirmed, Applied));
    }
  }

  /**
   A job that always fails on a broker that never does: after exactly maxRetries deliveries it is in the dead-letter
   queue once, with that many attempts and its error, and nowhere else.
   */
  lemma {:induction false} AlwaysFailing(policy: Policy, job: Job, message: string) returns (steps: seq<Step>)
    requires policy.Valid() && job.kind in policy.handlers
    ensures var w := Run(policy, EMPTY, steps);
      && job in w.accepted && w.handled == w.failed[job] == policy.maxRetries && w.faults == 0
      && w.queues.work == []
      && w.queues.dlq
         == [Encoded(Envelope(job.id, job.kind, job.payload, policy.maxRetries, Some(message)))]
  {
    steps := Failing(job, policy.maxRetries, message);
    FailingRun(policy, job, policy.maxRetries, message);
  }

  /** A job that succeeds at its (n + 1)-th delivery is completed once and gone. */
  lemma {:induction false} FinallySucceeding(policy: Policy, job: Job, n: nat, message: string)
    returns (steps: seq<Step>)
    requires job.kind in policy.handlers && n < policy.maxRetries
    ensures var w := Run(policy, EMPTY, steps);
      && w.completed == multiset{job} && w.failed[job] == n && w.handled == n + 1
      && w.queues.work == [] && w.queues.dlq == []
  {
    hide Apply;
    var before := Failing(job, n, message);
    FailingRun(policy, job, n, message);
    var w := Run(policy, EMPTY, before);
    RoundRuns(policy, w, before, n, Returned, Attempted(job, n));
    steps := before + Round(n, Returned);
    SucceedOnly(policy, w.(queues := Queues([Entry(Attempted(job, n), Unacked(n))], [], n + 1)), job, n);
  }

  lemma SucceedOnly(policy: Policy, w: World, job: Job, n: nat)
    requires job.kind in policy.handlers
    requires w.queues == Queues([Entry(Attempted(job, n), Unacked(n))], [], n + 1)
    ensures var w' := Apply(policy, w, Handle(n, Returned, Confirmed, Applied));
      && w'.completed == w.completed + multiset{job} && w'.failed == w.failed && w'.handled == w.handled + 1
      && w'.queues.work == [] && w'.queues.dlq == []
  {}
}
