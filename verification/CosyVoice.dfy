/**
 The speech subprocess and the threads that share it. Requests and responses are lines on its pipes; a lock guards
 spawning and pipe traffic, but the warm-up path looks at the process without it. One step is one access.
 */
module CosyVoice {
  import opened Prelude

  type Thread = nat

  /** Requests are numbered as they are written. A response line names the request it was computed for. */
  datatype Line = Noise | Reply(request: nat)

  datatype Process = Process(alive: bool, inbox: seq<nat>, outbox: seq<Line>)

  datatype Memory = Memory(
    procs: seq<Process>,           // every process ever spawned
    proc: Option<nat>,             // `_proc`
    lock: Option<Thread>,
    requests: nat,                 // requests written so far
    unheard: nat,                  // those of them written to a process that had exited
    answers: seq<(nat, nat)>)      // for each successful synthesis: its request, and the request it got the answer to

  datatype Pc =
    | Idle
    // synthesize
    | Queued                       // waiting for the lock
    | Checking                     // the health check of `_auto_restart`
    | Clearing                     // about to forget the dead process
    | Ensuring                     // `_ensure_worker`, re-entering the lock
    | Spawning
    | Writing
    | Reading(request: nat)
    | Forgetting                   // saw end-of-file; about to forget the process
    | Leaving
    // warm-up: `_ensure_worker` from outside the lock
    | Peeking                      // about to test `_proc is not None`
    | Polling                      // it was set; about to read it again and poll
    | WarmQueued
    | WarmChecking
    | WarmSpawning
    | WarmLeaving

  datatype Next = Next(m: Memory, pc: Pc)

  predicate Alive(m: Memory, p: Option<nat>) {
    p.Some? && p.value < |m.procs| && m.procs[p.value].alive
  }

  function Spawn(m: Memory): Memory {
    m.(procs := m.procs + [Process(true, [], [])], proc := Some(|m.procs|))
  }

  /** Write one request line; a dead process does not receive it, and the write may or may not raise. */
  function Write(m: Memory, raises: bool): Next {
    var request := m.requests;
    var m' := m.(requests := m.requests + 1);
    if Alive(m, m.proc) then
      var p := m.procs[m.proc.value];
      Next(m'.(procs := m.procs[m.proc.value := p.(inbox := p.inbox + [request])]), Reading(request))
    else Next(m'.(unheard := m.unheard + 1), if raises then Leaving else Reading(request))
  }

  /** Read one line; blocks on a living process with nothing to say, sees end-of-file on a dead one. */
  function Read(m: Memory, request: nat): Next {
    if m.proc.None? || m.proc.value >= |m.procs| then Next(m, Leaving)
    else
      var p := m.procs[m.proc.value];
      if p.outbox == [] then Next(m, if p.alive then Reading(request) else Forgetting)
      else
        var m' := m.(procs := m.procs[m.proc.value := p.(outbox := p.outbox[1..])]);
        match p.outbox[0]
        case Noise => Next(m', Reading(request))
        case Reply(answered) => Next(m'.(answers := m.answers + [(request, answered)]), Leaving)
  }

  /** The next step of one thread. `choice` decides whether an idle thread warms up or synthesizes,
      whether a spawn succeeds, and whether a write to a dead process raises. */
  function Act(m: Memory, pc: Pc, th: Thread, choice: bool): Next {
    match pc
    case Idle => Next(m, if choice then Peeking else Queued)
    case Queued => if m.lock.Some? then Next(m, Queued) else Next(m.(lock := Some(th)), Checking)
    case Checking => Next(m, if Alive(m, m.proc) then Ensuring else Clearing)
    case Clearing => Next(m.(proc := None), Ensuring)
    case Ensuring => Next(m, if Alive(m, m.proc) then Writing else Spawning)
    case Spawning => if choice then Next(Spawn(m), Writing) else Next(m, Leaving)
    case Writing => Write(m, choice)
    case Reading(request) => Read(m, request)
    case Forgetting => Next(m.(proc := None), Leaving)
    case Leaving => Next(m.(lock := None), Idle)
    case Peeking => Next(m, if m.proc.Some? then Polling else WarmQueued)
    case Polling =>
      // `_proc` may have been cleared since: the attribute error is swallowed by the warm-up thread
      Next(m, if m.proc.None? then Idle else if Alive(m, m.proc) then Queued else WarmQueued)
    case WarmQueued => if m.lock.Some? then Next(m, WarmQueued) else Next(m.(lock := Some(th)), WarmChecking)
    case WarmChecking => Next(m, if Alive(m, m.proc) then WarmLeaving else WarmSpawning)
    case WarmSpawning => if choice then Next(Spawn(m), WarmLeaving) else Next(m, Leaving)
    case WarmLeaving => Next(m.(lock := None), Queued)
  }

  datatype System = System(m: Memory, pcs: map<Thread, Pc>)

  datatype Event =
    | Run(thread: Thread, choice: bool)
    | Respond(proc: nat)           // the process's main loop answers the next request line
    | Chatter(proc: nat)           // a library prints something
    | Die(proc: nat)

  function At(s: System, th: Thread): Pc { if th in s.pcs then s.pcs[th] else Idle }

  /** The process side: one reply for each request line read, in order. */
  function Serve(p: Process): Process {
    if !p.alive || p.inbox == [] then p
    else p.(inbox := p.inbox[1..], outbox := p.outbox + [Reply(p.inbox[0])])
  }

  function Step(s: System, e: Event): System {
    match e
    case Run(th, choice) =>
      var next := Act(s.m, At(s, th), th, choice);
      System(next.m, s.pcs[th := next.pc])
    case Respond(i) => if i < |s.m.procs| then s.(m := OnProcess(s.m, i, Serve(s.m.procs[i]))) else s
    case Chatter(i) =>
      if i < |s.m.procs| && s.m.procs[i].alive
      then s.(m := OnProcess(s.m, i, s.m.procs[i].(outbox := s.m.procs[i].outbox + [Noise]))) else s
    case Die(i) => if i < |s.m.procs| then s.(m := OnProcess(s.m, i, s.m.procs[i].(alive := false))) else s
  }

  function OnProcess(m: Memory, i: nat, p: Process): Memory
    requires i < |m.procs|
  {
    m.(procs := m.procs[i := p])
  }

  const START: System := System(Memory([], None, None, 0, 0, []), map[])

  function RunAll(s: System, events: seq<Event>): System {
    if events == [] then s
    else Step(RunAll(s, events[..|events| - 1]), events[|events| - 1])
  }

  // ---- The invariant ----

  /** The requests a process has not finished with: answered but unread, then unanswered. */
  function Traffic(p: Process): seq<nat> { Unread(p.outbox) + p.inbox }

  function Unread(outbox: seq<Line>): seq<nat> {
    if outbox == [] then [] else Answered(outbox[0]) + Unread(outbox[1..])
  }

  function Answered(line: Line): seq<nat> { if line.Reply? then [line.request] else [] }

  lemma {:induction false} UnreadSnoc(outbox: seq<Line>, line: Line)
    ensures Unread(outbox + [line]) == Unread(outbox) + Answered(line)
  {
    hide Answered;
    if outbox == [] {
      assert (outbox + [line])[1..] == [];
      assert Unread([line]) == Answered(line) + Unread([]);
    } else {
      assert (outbox + [line])[1..] == outbox[1..] + [line];
      UnreadSnoc(outbox[1..], line);
      assert Answered(outbox[0]) + (Unread(outbox[1..]) + Answered(line))
          == (Answered(outbox[0]) + Unread(outbox[1..])) + Answered(line);
    }
  }

  lemma TrafficHead(p: Process)
    requires p.outbox != []
    ensures Traffic(p) == Answered(p.outbox[0]) + Traffic(p.(outbox := p.outbox[1..]))
  {
    hide Answered;
  }

  predicate Holds(pc: Pc) {
    !(pc.Idle? || pc.Queued? || pc.Peeking? || pc.Polling? || pc.WarmQueued?)
  }

  /** The process the threads use has no traffic but the lock holder's one request. */
  predicate Quiet(m: Memory, pending: seq<nat>) {
    m.proc.Some? && m.proc.value < |m.procs| ==>
      Traffic(m.procs[m.proc.value]) == [] || Traffic(m.procs[m.proc.value]) == pending
  }

  predicate MemoryOk(m: Memory) {
    && (forall i | 0 <= i < |m.procs| :: m.procs[i].alive ==> m.proc == Some(i))
    && (forall i | 0 <= i < |m.answers| :: m.answers[i].0 == m.answers[i].1)
    && (m.lock.None? ==> Quiet(m, []))
    && (m.proc.Some? ==> m.proc.value < |m.procs|)
  }

  predicate ThreadOk(m: Memory, pc: Pc, th: Thread) {
    && (Holds(pc) <==> m.lock == Some(th))
    && (Holds(pc) && !pc.Forgetting? ==> Quiet(m, if pc.Reading? then [pc.request] else []))
    && (pc.Reading? && Alive(m, m.proc) ==> Traffic(m.procs[m.proc.value]) == [pc.request])
    && (pc.Clearing? || pc.Spawning? || pc.WarmSpawning? || pc.Forgetting? ==> !Alive(m, m.proc))
  }

  lemma WriteSelf(m: Memory, th: Thread, raises: bool)
    requires MemoryOk(m) && ThreadOk(m, Writing, th)
    ensures var next := Write(m, raises); MemoryOk(next.m) && ThreadOk(next.m, next.pc, th)
  {
    if Alive(m, m.proc) {
      var p := m.procs[m.proc.value];
      assert Traffic(p) == [] && p.inbox == [];
      assert Traffic(p.(inbox := p.inbox + [m.requests])) == [m.requests];
    }
  }

  lemma OnlyOne(answered: nat, rest: seq<nat>, request: nat)
    requires [answered] + rest == [] || [answered] + rest == [request]
    ensures answered == request && rest == []
  {
    assert |[answered] + rest| == 1 + |rest|;
    assert ([answered] + rest)[0] == answered;
  }

  lemma ReadSelf(m: Memory, th: Thread, request: nat)
    requires MemoryOk(m) && ThreadOk(m, Reading(request), th)
    ensures var next := Read(m, request); MemoryOk(next.m) && ThreadOk(next.m, next.pc, th)
  {
    hide Traffic;
    if m.proc.Some? && m.procs[m.proc.value].outbox != [] {
      var p := m.procs[m.proc.value];
      var p' := p.(outbox := p.outbox[1..]);
      TrafficHead(p);
      if p.outbox[0].Reply? {
        OnlyOne(p.outbox[0].request, Traffic(p'), request);
      } else {
        assert [] + Traffic(p') == Traffic(p');
      }
    }
  }

  lemma ActSelf(m: Memory, pc: Pc, th: Thread, choice: bool)
    requires MemoryOk(m) && ThreadOk(m, pc, th)
    ensures var next := Act(m, pc, th, choice); MemoryOk(next.m) && ThreadOk(next.m, next.pc, th)
  {
    hide Traffic, Write, Read;
    match pc
    case Writing => WriteSelf(m, th, choice);
    case Reading(request) => ReadSelf(m, th, request);
    case Spawning => SpawnQuiet(m);
    case WarmSpawning => SpawnQuiet(m);
    case _ =>
  }

  lemma SpawnQuiet(m: Memory)
    ensures Quiet(Spawn(m), [])
  {
    assert Traffic(Process(true, [], [])) == [];
  }

  /** A thread that does not hold the lock is unaffected by the others. */
  lemma ActOther(m: Memory, pc: Pc, th: Thread, choice: bool, pc': Pc, other: Thread)
    requires MemoryOk(m) && ThreadOk(m, pc, th) && ThreadOk(m, pc', other) && other != th
    ensures ThreadOk(Act(m, pc, th, choice).m, pc', other)
  {
    hide Traffic, Quiet;
  }

  /** The processes' own steps keep the traffic, and never bring a process to life. */
  lemma ServeKeepsTraffic(p: Process)
    ensures Traffic(Serve(p)) == Traffic(p)
    ensures Traffic(p.(outbox := p.outbox + [Noise])) == Traffic(p)
  {
    if p.inbox != [] {
      UnreadSnoc(p.outbox, Reply(p.inbox[0]));
    }
    UnreadSnoc(p.outbox, Noise);
  }

  lemma OnProcessKeeps(m: Memory, i: nat, p: Process, pc: Pc, th: Thread)
    requires i < |m.procs| && Traffic(p) == Traffic(m.procs[i]) && (p.alive ==> m.procs[i].alive)
    requires MemoryOk(m) && ThreadOk(m, pc, th)
    ensures MemoryOk(OnProcess(m, i, p)) && ThreadOk(OnProcess(m, i, p), pc, th)
  {
    hide Traffic;
  }

  ghost predicate Inv(s: System) {
    MemoryOk(s.m) && forall th: Thread :: ThreadOk(s.m, At(s, th), th)
  }

  lemma InvProcess(s: System, i: nat, p: Process)
    requires Inv(s) && i < |s.m.procs| && Traffic(p) == Traffic(s.m.procs[i]) && (p.alive ==> s.m.procs[i].alive)
    ensures Inv(s.(m := OnProcess(s.m, i, p)))
  {
    hide MemoryOk, ThreadOk, Traffic, OnProcess;
    var s' := s.(m := OnProcess(s.m, i, p));
    forall th: Thread
      ensures MemoryOk(s'.m) && ThreadOk(s'.m, At(s', th), th)
    {
      OnProcessKeeps(s.m, i, p, At(s, th), th);
    }
    OnProcessKeeps(s.m, i, p, At(s, 0), 0);
  }

  lemma InvStep(s: System, e: Event)
    requires Inv(s)
    ensures Inv(Step(s, e))
  {
    hide Act, MemoryOk, ThreadOk, Traffic, OnProcess;
    var s' := Step(s, e);
    match e
    case Run(th, choice) =>
      ActSelf(s.m, At(s, th), th, choice);
      forall other: Thread
        ensures ThreadOk(s'.m, At(s', other), other)
      {
        if other != th {
          ActOther(s.m, At(s, th), th, choice, At(s, other), other);
          assert At(s', other) == At(s, other);
        }
      }
    case Respond(i) =>
      if i < |s.m.procs| {
        ServeKeepsTraffic(s.m.procs[i]);
        InvProcess(s, i, Serve(s.m.procs[i]));
      }
    case Chatter(i) =>
      if i < |s.m.procs| && s.m.procs[i].alive {
        ServeKeepsTraffic(s.m.procs[i]);
        InvProcess(s, i, s.m.procs[i].(outbox := s.m.procs[i].outbox + [Noise]));
      }
    case Die(i) =>
      if i < |s.m.procs| {
        assert Traffic(s.m.procs[i].(alive := false)) == Traffic(s.m.procs[i]) by { SameTraffic(s.m.procs[i]); }
        InvProcess(s, i, s.m.procs[i].(alive := false));
      }
  }

  lemma SameTraffic(p: Process)
    ensures Traffic(p.(alive := false)) == Traffic(p)
  {}

  lemma {:induction false} InvRun(events: seq<Event>)
    ensures Inv(RunAll(START, events))
  {
    hide Step;
    if events == [] {
      forall th: Thread
        ensures ThreadOk(START.m, At(START, th), th)
      {}
    } else {
      InvRun(events[..|events| - 1]);
      InvStep(RunAll(START, events[..|events| - 1]), events[|events| - 1]);
    }
  }

  // ---- What callers may rely on ----

  /** At most one process is alive, whatever threads and processes do. */
  lemma {:induction false} OneLiveProcess(events: seq<Event>)
    ensures var m := RunAll(START, events).m;
      forall i, j | 0 <= i < |m.procs| && 0 <= j < |m.procs| :: m.procs[i].alive && m.procs[j].alive ==> i == j
  {
    hide RunAll, Quiet;
    InvRun(events);
  }

  /** Every successful synthesis got the answer to its own request. */
  lemma {:induction false} AnswersPair(events: seq<Event>)
    ensures var m := RunAll(START, events).m;
      forall i | 0 <= i < |m.answers| :: m.answers[i].0 == m.answers[i].1
  {
    hide RunAll, Quiet;
    InvRun(events);
  }

  /**
   A thread that waits for a living process is owed exactly one answer: once the noise before it is read, the process
   has answered or has just this request to answer.
   */
  lemma {:induction false} ReaderIsServed(events: seq<Event>, th: Thread, request: nat)
    requires var s := RunAll(START, events); At(s, th) == Reading(request) && Alive(s.m, s.m.proc)
    ensures var s := RunAll(START, events); var p := s.m.procs[s.m.proc.value];
      Unread(p.outbox) + p.inbox == [request]
  {
    hide RunAll, Quiet;
    InvRun(events);
  }

  /** When the process answers, the thread gets the answer. */
  lemma {:induction false} AnswerArrives(events: seq<Event>, th: Thread, request: nat, choice: bool)
    requires var s := RunAll(START, events);
      && At(s, th) == Reading(request) && Alive(s.m, s.m.proc) && s.m.procs[s.m.proc.value].outbox == []
    ensures var s := RunAll(START, events);
      var s' := RunAll(START, events + [Respond(s.m.proc.value), Run(th, choice)]);
      s'.m.answers == s.m.answers + [(request, request)] && At(s', th).Leaving?
  {
    hide Quiet, MemoryOk, ThreadOk;
    var s := RunAll(START, events);
    var i := s.m.proc.value;
    ReaderIsServed(events, th, request);
    assert s.m.procs[i].inbox == [request];
    RunSnoc(events, Respond(i));
    RunSnoc(events + [Respond(i)], Run(th, choice));
    assert events + [Respond(i), Run(th, choice)] == events + [Respond(i)] + [Run(th, choice)];
  }

  lemma RunSnoc(events: seq<Event>, e: Event)
    ensures RunAll(START, events + [e]) == Step(RunAll(START, events), e)
  {
    assert (events + [e])[..|events|] == events;
  }

  function Waiting(): Process -> int { (p: Process) => |Traffic(p)| }

  predicate Balanced(m: Memory) { m.requests == |m.answers| + Sum(m.procs, Waiting()) + m.unheard }

  lemma BalancedProcess(m: Memory, i: nat, p: Process)
    requires Balanced(m) && i < |m.procs| && |Traffic(p)| == |Traffic(m.procs[i])|
    ensures Balanced(OnProcess(m, i, p))
  {
    hide Traffic;
    SumUpdate(m.procs, Waiting(), i, p);
  }

  lemma BalancedWrite(m: Memory, raises: bool)
    requires Balanced(m)
    ensures Balanced(Write(m, raises).m)
  {
    if Alive(m, m.proc) {
      var i := m.proc.value;
      var p := m.procs[i];
      SumUpdate(m.procs, Waiting(), i, p.(inbox := p.inbox + [m.requests]));
    }
  }

  lemma BalancedRead(m: Memory, request: nat)
    requires Balanced(m)
    ensures Balanced(Read(m, request).m)
  {
    hide Traffic;
    if m.proc.Some? && m.proc.value < |m.procs| && m.procs[m.proc.value].outbox != [] {
      var i := m.proc.value;
      var p := m.procs[i];
      TrafficHead(p);
      SumUpdate(m.procs, Waiting(), i, p.(outbox := p.outbox[1..]));
    }
  }

  lemma BalancedSpawn(m: Memory)
    requires Balanced(m)
    ensures Balanced(Spawn(m))
  {
    SumSnoc(m.procs, Process(true, [], []), Waiting());
    assert Traffic(Process(true, [], [])) == [];
  }

  lemma BalancedStep(s: System, e: Event)
    requires Balanced(s.m)
    ensures Balanced(Step(s, e).m)
  {
    hide Traffic, Write, Read, Spawn, OnProcess;
    match e
    case Run(th, choice) =>
      BalancedSpawn(s.m);
      BalancedWrite(s.m, choice);
      if At(s, th).Reading? {
        BalancedRead(s.m, At(s, th).request);
      }
    case Respond(i) =>
      if i < |s.m.procs| {
        ServeKeepsTraffic(s.m.procs[i]);
        BalancedProcess(s.m, i, Serve(s.m.procs[i]));
      }
    case Chatter(i) =>
      if i < |s.m.procs| && s.m.procs[i].alive {
        ServeKeepsTraffic(s.m.procs[i]);
        BalancedProcess(s.m, i, s.m.procs[i].(outbox := s.m.procs[i].outbox + [Noise]));
      }
    case Die(i) =>
      if i < |s.m.procs| {
        SameTraffic(s.m.procs[i]);
        BalancedProcess(s.m, i, s.m.procs[i].(alive := false));
      }
  }

  /**
   No answer is dropped: in every run each request written is answered to its thread, or is still on the pipes of some
   process, as a request or an answer, or was written to a process that had exited.
   */
  lemma {:induction false} RequestsBalance(events: seq<Event>)
    ensures Balanced(RunAll(START, events).m)
  {
    hide Step, Balanced;
    if events == [] {
      BalancedStart();
    } else {
      RequestsBalance(events[..|events| - 1]);
      BalancedStep(RunAll(START, events[..|events| - 1]), events[|events| - 1]);
    }
  }

  lemma BalancedStart()
    ensures Balanced(START.m)
  {}

  /** One thread alone: it spawns a process, asks it, and gets its answer. */
  lemma {:induction false} SoloSynthesis(th: Thread) returns (events: seq<Event>)
    ensures var s := RunAll(START, events);
      s.m.answers == [(0, 0)] && s.m.procs == [Process(true, [], [])] && s.m.lock.None? && At(s, th).Idle?
  {
    hide Act, Serve;
    events := [];
    for k := 0 to 10
      invariant RunAll(START, events) == Solo(th, k)
    {
      SoloStep(th, k);
      RunSnoc(events, SoloEvent(th, k));
      events := events + [SoloEvent(th, k)];
    }
  }

  function SoloEvent(th: Thread, k: nat): Event {
    if k == 7 then Respond(0) else Run(th, k == 5)
  }

  function Solo(th: Thread, k: nat): System {
    var none, idle := Memory([], None, Some(th), 0, 0, []), Process(true, [], []);
    if k == 0 then START
    else if k == 1 then System(none.(lock := None), map[th := Queued])
    else if k == 2 then System(none, map[th := Checking])
    else if k == 3 then System(none, map[th := Clearing])
    else if k == 4 then System(none, map[th := Ensuring])
    else if k == 5 then System(none, map[th := Spawning])
    else if k == 6 then System(none.(procs := [idle], proc := Some(0)), map[th := Writing])
    else if k == 7 then
      System(Memory([Process(true, [0], [])], Some(0), Some(th), 1, 0, []), map[th := Reading(0)])
    else if k == 8 then
      System(Memory([Process(true, [], [Reply(0)])], Some(0), Some(th), 1, 0, []), map[th := Reading(0)])
    else if k == 9 then System(Memory([idle], Some(0), Some(th), 1, 0, [(0, 0)]), map[th := Leaving])
    else System(Memory([idle], Some(0), None, 1, 0, [(0, 0)]), map[th := Idle])
  }

  lemma SoloStep(th: Thread, k: nat)
    requires k < 10
    ensures Step(Solo(th, k), SoloEvent(th, k)) == Solo(th, k + 1)
  {
    if k < 5 {
      SoloStart(th, k);
    } else if k < 7 {
      SoloRequest(th, k);
    } else {
      SoloReply(th, k);
    }
  }

  lemma SoloStart(th: Thread, k: nat)
    requires k < 5
    ensures Step(Solo(th, k), SoloEvent(th, k)) == Solo(th, k + 1)
  {
    assert forall pc: Pc, pc': Pc :: map[th := pc][th := pc'] == map[th := pc'];
  }

  lemma SoloRequest(th: Thread, k: nat)
    requires 5 <= k < 7
    ensures Step(Solo(th, k), SoloEvent(th, k)) == Solo(th, k + 1)
  {
    assert forall pc: Pc, pc': Pc :: map[th := pc][th := pc'] == map[th := pc'];
    assert [] + [0] == [0];
  }

  lemma SoloReply(th: Thread, k: nat)
    requires 7 <= k < 10
    ensures Step(Solo(th, k), SoloEvent(th, k)) == Solo(th, k + 1)
  {
    assert forall pc: Pc, pc': Pc :: map[th := pc][th := pc'] == map[th := pc'];
    assert [0][1..] == [] && [Reply(0)][1..] == [] && [] + [Reply(0)] == [Reply(0)] && [] + [0] == [0];
  }

  // ---- The process's own loop ----

  /** An input line: blank, no JSON, a request with its stripped text, or JSON of any other shape. */
  datatype Input = Blank | Malformed | Request(text: string) | Odd

  /** A reply line, tagged with the input line it answers. */
  datatype Output = Output(line: nat, ok: bool)

  /** The positions of the input lines that get an answer. */
  function Answerable(lines: seq<Input>): seq<nat> {
    if lines == [] then []
    else
      var k := |lines| - 1;
      Answerable(lines[..k]) + if lines[k].Blank? then [] else [k]
  }

  /** How the k-th attempt to load the model goes, and whether the n-th text given to the model comes out as audio. */
  datatype Model = Model(loads: nat -> bool, speaks: (nat, string) -> bool)

  /** The process's state: whether the model is loaded, the attempts to load it, and the texts given to it. */
  datatype Voice = Voice(loaded: bool, attempts: nat, spoken: seq<string>)

  /** The state after a line is taken up: the first request that gets there loads the model. */
  function Loaded(model: Model, v: Voice): Voice {
    if v.loaded then v else v.(loaded := model.loads(v.attempts), attempts := v.attempts + 1)
  }

  function After(model: Model, v: Voice, line: Input): Voice {
    if line.Blank? || line.Malformed? then v
    else
      var v' := Loaded(model, v);
      if v'.loaded && line.Request? && line.text != "" then v'.(spoken := v'.spoken + [line.text]) else v'
  }

  /** Is the line answered by audio? */
  predicate IsSpoken(model: Model, v: Voice, line: Input) {
    line.Request? && line.text != "" && Loaded(model, v).loaded && model.speaks(|v.spoken|, line.text)
  }

  predicate Ends(model: Model, v: Voice, line: Input) { line.Odd? && Loaded(model, v).loaded }

  function VoiceAt(model: Model, lines: seq<Input>): Voice {
    if lines == [] then Voice(false, 0, [])
    else After(model, VoiceAt(model, lines[..|lines| - 1]), lines[|lines| - 1])
  }

  /** Is this the right reply to its line? */
  predicate Right(model: Model, lines: seq<Input>, o: Output) {
    && o.line < |lines| && !lines[o.line].Blank?
    && (o.ok <==> IsSpoken(model, VoiceAt(model, lines[..o.line]), lines[o.line]))
  }

  /** The replies to the first `n` lines: one for each that is not blank, in order. */
  predicate Replies(model: Model, lines: seq<Input>, n: nat, out: seq<Output>)
    requires n <= |lines|
  {
    && |out| == |Answerable(lines[..n])|
    && forall k | 0 <= k < |out| :: out[k].line == Answerable(lines[..n])[k] && Right(model, lines, out[k])
  }

  lemma MoreLines(model: Model, lines: seq<Input>, n: nat)
    requires n < |lines|
    ensures Answerable(lines[..n + 1]) == Answerable(lines[..n]) + if lines[n].Blank? then [] else [n]
    ensures VoiceAt(model, lines[..n + 1]) == After(model, VoiceAt(model, lines[..n]), lines[n])
  {
    hide After;
    assert lines[..n + 1][..n] == lines[..n];
  }

  lemma MoreReplies(model: Model, lines: seq<Input>, n: nat, out: seq<Output>, ok: bool)
    requires n < |lines| && Replies(model, lines, n, out)
    requires !lines[n].Blank? ==> (ok <==> IsSpoken(model, VoiceAt(model, lines[..n]), lines[n]))
    ensures Replies(model, lines, n + 1, if lines[n].Blank? then out else out + [Output(n, ok)])
  {
    hide IsSpoken, Answerable, VoiceAt;
    MoreLines(model, lines, n);
  }

  class VoiceWorker {
    const model: Model
    var modelLoaded: bool
    var attempts: nat
    var spoken: seq<string>

    constructor (model: Model)
      ensures this.model == model && State() == Voice(false, 0, [])
    {
      this.model := model;
      modelLoaded, attempts, spoken := false, 0, [];
    }

    function State(): Voice
      reads this
    {
      Voice(modelLoaded, attempts, spoken)
    }

    /** Load the model once; a failed load is retried on the next request. */
    method LoadModel() returns (ok: bool)
      modifies this
      ensures State() == Loaded(model, old(State())) && ok == modelLoaded
      ensures old(modelLoaded) ==> ok
    {
      if modelLoaded {
        return true;
      }
      modelLoaded := model.loads(attempts);
      attempts := attempts + 1;
      return modelLoaded;
    }

    /**
     A request's outcome: errors become a reply, except that with the model loaded an odd request is read outside the
     guarded part, and raises.
     */
    method Synthesize(req: Input) returns (ok: bool, raised: bool)
      requires req.Request? || req.Odd?
      modifies this
      ensures State() == After(model, old(State()), req)
      ensures ok <==> IsSpoken(model, old(State()), req)
      ensures raised <==> Ends(model, old(State()), req)
      ensures raised <==> req.Odd? && modelLoaded
    {
      ok, raised := false, false;
      var loaded := LoadModel();
      if !loaded {
        return;
      }
      if req.Odd? {
        raised := true;
        return;
      }
      if req.text != "" {
        ok := model.speaks(|spoken|, req.text);
        spoken := spoken + [req.text];
      }
    }

    /**
     Answer each non-blank input line by exactly one output line, in order, with audio exactly where the model gives
     some. The loop reads `consumed` lines: all of them, unless with the model loaded it comes to an odd one, which
     ends it.
     */
    method Loop(lines: seq<Input>) returns (out: seq<Output>, consumed: nat)
      requires State() == Voice(false, 0, [])
      modifies this
      ensures consumed <= |lines| && Replies(model, lines, consumed, out)
      ensures consumed < |lines| ==> Ends(model, VoiceAt(model, lines[..consumed]), lines[consumed])
      ensures forall i | 0 <= i < consumed :: !Ends(model, VoiceAt(model, lines[..i]), lines[i])
    {
      hide IsSpoken, Ends, After, Replies, VoiceAt;
      out, consumed := [], 0;
      assert Replies(model, lines, 0, []) && VoiceAt(model, lines[..0]) == State() by { NothingYet(model, lines); }
      while consumed < |lines|
        invariant consumed <= |lines| && Replies(model, lines, consumed, out)
        invariant forall i | 0 <= i < consumed :: !Ends(model, VoiceAt(model, lines[..i]), lines[i])
        invariant State() == VoiceAt(model, lines[..consumed])
      {
        var line := lines[consumed];
        MoreLines(model, lines, consumed);
        NoRequest(model, State(), line);
        MoreReplies(model, lines, consumed, out, IsSpoken(model, State(), line));
        match line {
          case Blank =>
          case Malformed => out := out + [Output(consumed, false)];
          case _ =>
            var ok, raised := Synthesize(line);
            if raised {
              return;
            }
            out := out + [Output(consumed, ok)];
        }
        consumed := consumed + 1;
      }
    }
  }

  lemma NothingYet(model: Model, lines: seq<Input>)
    ensures Replies(model, lines, 0, []) && VoiceAt(model, lines[..0]) == Voice(false, 0, [])
  {}

  lemma NoRequest(model: Model, v: Voice, line: Input)
    ensures line.Blank? || line.Malformed? ==>
      After(model, v, line) == v && !IsSpoken(model, v, line) && !Ends(model, v, line)
  {}

  /** The model is loaded at most once: after the first attempt that works there is no other. */
  lemma {:induction false} LoadedOnce(model: Model, lines: seq<Input>)
    ensures var v := VoiceAt(model, lines);
      && (forall k | 0 <= k < v.attempts :: model.loads(k) <==> v.loaded && k == v.attempts - 1)
      && (v.loaded ==> v.attempts >= 1)
      && (v.spoken != [] ==> v.loaded)
  {
    if lines != [] {
      LoadedOnce(model, lines[..|lines| - 1]);
    }
  }

  /** Only requests with text are answered by audio, and after one no odd line is answered. */
  lemma OddEnds(model: Model, lines: seq<Input>, i: nat, j: nat)
    requires i < j < |lines| && IsSpoken(model, VoiceAt(model, lines[..i]), lines[i])
    ensures lines[i].Request? && lines[i].text != ""
    ensures lines[j].Odd? ==> Ends(model, VoiceAt(model, lines[..j]), lines[j])
  {
    assert lines[..i + 1][..i] == lines[..i];
    StaysLoaded(model, lines, i + 1, j);
  }

  lemma {:induction false} StaysLoaded(model: Model, lines: seq<Input>, i: nat, j: nat)
    requires i <= j <= |lines| && VoiceAt(model, lines[..i]).loaded
    ensures VoiceAt(model, lines[..j]).loaded
  {
    if i < j {
      StaysLoaded(model, lines, i, j - 1);
      assert lines[..j][..j - 1] == lines[..j - 1];
    }
  }
}
