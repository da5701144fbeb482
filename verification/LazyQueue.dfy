/**
 The process-wide queue, built on first use under double-checked locking, and its `enqueue` critical section.
 Any number of threads run the factory and then enqueue; one step is one read or write of the shared state.
 */
module LazyQueue {
  import opened Prelude

  type Thread = nat

  /** Where a thread is. The result of the factory is the identity of the queue it returns, if any. */
  datatype Pc =
    | Idle                                  // not in a call
    | FastHit                               // saw `_attempted` without the lock; about to read `_queue`
    | Blocked                               // waiting for `_init_lock`
    | Entered                               // holds it; about to re-read `_attempted`
    | SlowHit                               // saw it set; about to read `_queue`
    | Deciding                              // saw it unset; about to look at the configuration
    | Connecting(id: nat)                   // built a queue; about to connect it
    | Storing(result: Option<nat>)          // about to write `_queue`
    | Marking(result: Option<nat>)          // wrote `_queue`; about to write `_attempted`
    | Leaving(result: Option<nat>)          // about to release the lock
    | Returned(result: Option<nat>)
    | AtChannel(id: nat)                    // waiting for the queue's own lock
    | InChannel(id: nat)                    // inside ensure-channel + publish

  /** The shared variables, and what has been done with them. */
  datatype Memory = Memory(
    configured: bool,                       // queue enabled and a broker url set
    attempted: bool,
    queue: Option<nat>,
    initLock: Option<Thread>,
    channelLock: Option<Thread>,
    built: nat,                             // queues constructed so far; also the next identity
    connects: seq<(nat, bool)>,             // the factory's connects: which queue, and whether the broker answered
    returned: seq<Option<nat>>)             // results of finished factory calls

  datatype Next = Next(m: Memory, pc: Pc)

  /** The next step of one thread; `reachable` is the broker's answer, used only where it connects. */
  function Act(m: Memory, pc: Pc, th: Thread, reachable: bool): Next {
    match pc
    case Idle => Next(m, if m.attempted then FastHit else Blocked)
    case FastHit => Next(m.(returned := m.returned + [m.queue]), Returned(m.queue))
    case Blocked => if m.initLock.Some? then Next(m, Blocked) else Next(m.(initLock := Some(th)), Entered)
    case Entered => Next(m, if m.attempted then SlowHit else Deciding)
    case SlowHit => Next(m, Leaving(m.queue))
    case Deciding =>
      if !m.configured then Next(m, Storing(None))
      else Next(m.(built := m.built + 1), Connecting(m.built))
    case Connecting(id) =>
      Next(m.(connects := m.connects + [(id, reachable)]), Storing(if reachable then Some(id) else None))
    case Storing(result) => Next(m.(queue := result), Marking(result))
    case Marking(result) => Next(m.(attempted := true), Leaving(result))
    case Leaving(result) => Next(m.(initLock := None, returned := m.returned + [result]), Returned(result))
    case Returned(result) => Next(m, if result.Some? then AtChannel(result.value) else Idle)
    case AtChannel(id) =>
      if m.channelLock.Some? then Next(m, pc) else Next(m.(channelLock := Some(th)), InChannel(id))
    case InChannel(_) => Next(m.(channelLock := None), Idle)
  }

  datatype System = System(m: Memory, pcs: map<Thread, Pc>)

  function At(s: System, th: Thread): Pc { if th in s.pcs then s.pcs[th] else Idle }

  function Step(s: System, th: Thread, reachable: bool): System {
    var next := Act(s.m, At(s, th), th, reachable);
    System(next.m, s.pcs[th := next.pc])
  }

  function Start(configured: bool): System {
    System(Memory(configured, false, None, None, None, 0, [], []), map[])
  }

  function Run(s: System, schedule: seq<(Thread, bool)>): System {
    if schedule == [] then s
    else
      var last := |schedule| - 1;
      Step(Run(s, schedule[..last]), schedule[last].0, schedule[last].1)
  }

  // ---- The invariant ----

  predicate HoldsInit(pc: Pc) {
    pc.Entered? || pc.SlowHit? || pc.Deciding? || pc.Connecting? || pc.Storing? || pc.Marking? || pc.Leaving?
  }

  /** Between the unset re-read and the write of `_attempted`. */
  predicate Initializing(pc: Pc) {
    pc.Deciding? || pc.Connecting? || pc.Storing? || pc.Marking?
  }

  /** Knows the final value of the cache. */
  predicate KnowsResult(pc: Pc) {
    pc.FastHit? || pc.SlowHit? || pc.Leaving? || pc.Returned? || pc.AtChannel? || pc.InChannel?
  }

  /** What the cache ought to hold: the queue whose connect was answered, if one was made and answered. */
  function Outcome(m: Memory): Option<nat> {
    if m.connects != [] && m.connects[0].1 then Some(m.connects[0].0) else None
  }

  predicate MemoryOk(m: Memory) {
    && |m.connects| <= m.built <= 1
    && (m.connects != [] ==> m.connects[0].0 == 0)
    && (m.built == 1 ==> m.configured)
    && (m.attempted ==> m.queue == Outcome(m) && |m.connects| == if m.configured then 1 else 0)
    && (m.queue.Some? ==> m.queue.value == 0 && m.built == 1)
    && (m.attempted ==> forall i | 0 <= i < |m.returned| :: m.returned[i] == m.queue)
    && (!m.attempted ==> m.returned == [])
    && (!m.attempted && m.initLock.None? ==> m.built == 0 && m.queue.None?)
  }

  predicate ThreadOk(m: Memory, pc: Pc, th: Thread) {
    && (HoldsInit(pc) <==> m.initLock == Some(th))
    && (pc.InChannel? <==> m.channelLock == Some(th))
    && (Initializing(pc) ==> !m.attempted)
    && (KnowsResult(pc) ==> m.attempted)
    && (pc.Leaving? || pc.Returned? || pc.Marking? ==> pc.result == m.queue)
    && (pc.AtChannel? || pc.InChannel? ==> m.queue == Some(pc.id))
    && ((pc.Entered? && !m.attempted) || pc.Deciding? ==> m.built == 0 && m.queue.None?)
    && (pc.Connecting? ==> m.built == 1 && pc.id == 0 && m.connects == [] && m.queue.None?)
    && (pc.Storing? || pc.Marking? ==> pc.result == Outcome(m) && |m.connects| == if m.configured then 1 else 0)
    && (pc.Connecting? ==> m.configured)
    && (pc.Storing? && pc.result.Some? ==> pc.result.value == 0 && m.built == 1)
  }

  /** The stepping thread. */
  lemma ActSelf(m: Memory, pc: Pc, th: Thread, reachable: bool)
    requires MemoryOk(m) && ThreadOk(m, pc, th)
    ensures var next := Act(m, pc, th, reachable); MemoryOk(next.m) && ThreadOk(next.m, next.pc, th)
  {}

  /** Every other thread. */
  lemma ActOther(m: Memory, pc: Pc, th: Thread, reachable: bool, pc': Pc, other: Thread)
    requires MemoryOk(m) && ThreadOk(m, pc, th) && ThreadOk(m, pc', other) && other != th
    ensures ThreadOk(Act(m, pc, th, reachable).m, pc', other)
  {}

  ghost predicate Inv(s: System) {
    MemoryOk(s.m) && forall th: Thread :: ThreadOk(s.m, At(s, th), th)
  }

  lemma InvStep(s: System, th: Thread, reachable: bool)
    requires Inv(s)
    ensures Inv(Step(s, th, reachable))
  {
    hide Act, MemoryOk, ThreadOk;
    var s' := Step(s, th, reachable);
    ActSelf(s.m, At(s, th), th, reachable);
    forall other: Thread
      ensures ThreadOk(s'.m, At(s', other), other)
    {
      if other != th {
        ActOther(s.m, At(s, th), th, reachable, At(s, other), other);
        assert At(s', other) == At(s, other);
      }
    }
  }

  lemma {:induction false} InvRun(configured: bool, schedule: seq<(Thread, bool)>)
    ensures Inv(Run(Start(configured), schedule))
  {
    hide Step, Inv;
    if schedule == [] {
      InvStart(configured);
    } else {
      var last := |schedule| - 1;
      InvRun(configured, schedule[..last]);
      InvStep(Run(Start(configured), schedule[..last]), schedule[last].0, schedule[last].1);
    }
  }

  lemma InvStart(configured: bool)
    ensures Inv(Start(configured))
  {
    forall th: Thread
      ensures ThreadOk(Start(configured).m, At(Start(configured), th), th)
    {}
  }

  // ---- What callers may rely on ----

  /**
   Under any schedule of any number of threads: at most one queue is ever built and at most one connect attempted;
   all finished calls returned the same result; nobody saw `_attempted` before `_queue` was final; and at most
   one thread is inside the factory's locked part, and at most one inside the channel section.
   */
  lemma {:induction false} OneQueue(configured: bool, schedule: seq<(Thread, bool)>)
    ensures var s := Run(Start(configured), schedule);
      && s.m.built <= 1 && |s.m.connects| <= 1
      && (forall i, j | 0 <= i < |s.m.returned| && 0 <= j < |s.m.returned| :: s.m.returned[i] == s.m.returned[j])
      && (forall th: Thread :: KnowsResult(At(s, th)) ==> s.m.attempted)
      && (forall a: Thread, b: Thread :: HoldsInit(At(s, a)) && HoldsInit(At(s, b)) ==> a == b)
      && (forall a: Thread, b: Thread :: At(s, a).InChannel? && At(s, b).InChannel? ==> a == b)
  {
    hide Run, HoldsInit, KnowsResult;
    InvRun(configured, schedule);
  }

  /**
   Once `_attempted` is set the cache tells what became of the one connect: it holds the queue that was connected if the
   broker answered, and nothing if it did not or if no queue is configured; and every finished call returned that.
   */
  lemma {:induction false} CacheIsOutcome(configured: bool, schedule: seq<(Thread, bool)>)
    requires Run(Start(configured), schedule).m.attempted
    ensures var m := Run(Start(configured), schedule).m;
      && |m.connects| == (if configured then 1 else 0)
      && (forall id :: m.queue == Some(id) <==> (id, true) in m.connects)
      && (m.queue.None? <==> !configured || !m.connects[0].1)
      && (forall i | 0 <= i < |m.returned| :: m.returned[i] == m.queue)
  {
    InvRun(configured, schedule);
    SameConfiguration(configured, schedule);
  }

  lemma {:induction false} SameConfiguration(configured: bool, schedule: seq<(Thread, bool)>)
    ensures Run(Start(configured), schedule).m.configured == configured
  {
    if schedule != [] {
      SameConfiguration(configured, schedule[..|schedule| - 1]);
    }
  }

  /** One thread alone, with its connect answered or not. */
  lemma {:induction false} SoloCall(configured: bool, reachable: bool, th: Thread)
    returns (schedule: seq<(Thread, bool)>)
    ensures var s := Run(Start(configured), schedule);
      At(s, th) == Returned(if configured && reachable then Some(0) else None) && s.m.attempted && s.m.initLock.None?
  {
    hide Act;
    var now := (th, reachable);
    var s := Start(configured);
    schedule := [];
    for i := 0 to if configured then 8 else 7
      invariant Run(Start(configured), schedule) == s
      invariant s == Solo(configured, reachable, th, i)
    {
      RunOne(Start(configured), schedule, now);
      SoloStep(configured, reachable, th, i);
      schedule := schedule + [now];
      s := Step(s, th, reachable);
    }
  }

  lemma RunOne(s: System, schedule: seq<(Thread, bool)>, now: (Thread, bool))
    ensures Run(s, schedule + [now]) == Step(Run(s, schedule), now.0, now.1)
  {
    assert (schedule + [now])[..|schedule|] == schedule;
  }

  /** The states of that thread's call. */
  function Solo(configured: bool, reachable: bool, th: Thread, i: nat): System {
    var held := Some(th);
    var result := if configured && reachable then Some(0) else None;
    var connects := if configured then [(0, reachable)] else [];
    var built := if configured then 1 else 0;
    var k := if configured || i < 4 then i else i + 1;
    if k == 0 then Start(configured)
    else if k == 1 then System(Memory(configured, false, None, None, None, 0, [], []), map[th := Blocked])
    else if k == 2 then System(Memory(configured, false, None, held, None, 0, [], []), map[th := Entered])
    else if k == 3 then System(Memory(configured, false, None, held, None, 0, [], []), map[th := Deciding])
    else if k == 4 then System(Memory(configured, false, None, held, None, built, [], []), map[th := Connecting(0)])
    else if k == 5 then
      System(Memory(configured, false, None, held, None, built, connects, []), map[th := Storing(result)])
    else if k == 6 then
      System(Memory(configured, false, result, held, None, built, connects, []), map[th := Marking(result)])
    else if k == 7 then
      System(Memory(configured, true, result, held, None, built, connects, []), map[th := Leaving(result)])
    else System(Memory(configured, true, result, None, None, built, connects, [result]), map[th := Returned(result)])
  }

  lemma SoloStep(configured: bool, reachable: bool, th: Thread, i: nat)
    requires i < if configured then 8 else 7
    ensures Step(Solo(configured, reachable, th, i), th, reachable) == Solo(configured, reachable, th, i + 1)
  {
    if i < 3 {
      SoloEntry(configured, reachable, th, i);
    } else {
      SoloRest(configured, reachable, th, i);
    }
  }

  lemma SoloEntry(configured: bool, reachable: bool, th: Thread, i: nat)
    requires i < 3
    ensures Step(Solo(configured, reachable, th, i), th, reachable) == Solo(configured, reachable, th, i + 1)
  {
    assert forall pc: Pc, pc': Pc :: map[th := pc][th := pc'] == map[th := pc'];
  }

  lemma SoloRest(configured: bool, reachable: bool, th: Thread, i: nat)
    requires 3 <= i < if configured then 8 else 7
    ensures Step(Solo(configured, reachable, th, i), th, reachable) == Solo(configured, reachable, th, i + 1)
  {
    assert forall pc: Pc, pc': Pc :: map[th := pc][th := pc'] == map[th := pc'];
  }

  /** Once `_attempted` is set the cache is final: no step of any thread alters it, builds a queue, or connects. */
  lemma {:induction false} CacheIsFinal(configured: bool, schedule: seq<(Thread, bool)>, th: Thread, reachable: bool)
    requires Run(Start(configured), schedule).m.attempted
    ensures var s := Run(Start(configured), schedule);
      var s' := Step(s, th, reachable);
      s'.m.attempted && s'.m.queue == s.m.queue && s'.m.built == s.m.built && s'.m.connects == s.m.connects
  {
    hide Run;
    InvRun(configured, schedule);
    var s := Run(Start(configured), schedule);
    assert ThreadOk(s.m, At(s, th), th);
  }

  /** A thread in the channel section works on the one cached queue. */
  lemma {:induction false} ChannelIsCached(configured: bool, schedule: seq<(Thread, bool)>, th: Thread)
    requires At(Run(Start(configured), schedule), th).InChannel?
    ensures var s := Run(Start(configured), schedule);
      s.m.attempted && s.m.queue == Some(At(s, th).id) && s.m.built == 1 && s.m.channelLock == Some(th)
  {
    hide Run;
    InvRun(configured, schedule);
    var s := Run(Start(configured), schedule);
    assert ThreadOk(s.m, At(s, th), th);
  }
}
