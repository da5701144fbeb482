/** The two consumers of the work queue, and the producer side of the queue. */
module Consumers {
  import opened Prelude
  import opened Broker
  import opened Delivery
  import opened QueueRuns
  import opened Channels

  /** The number of deliveries settled by a command sequence. */
  function Settlements(sent: seq<Command>): int { Sum(sent, SettlesOne()) }

  function SettlesOne(): Command -> int { (c: Command) => if c.PublishTo? then 0 else 1 }

  /** Every delivery is settled exactly once, by the last command of its sequence. */
  lemma OneSettlement(tag: nat, verdict: Verdict, publish: PublishFate)
    ensures Settlements(Commands(tag, verdict, publish)) == 1
  {
    var commands := Commands(tag, verdict, publish);
    if verdict.Succeeded? {
      assert commands == [AckTag(tag)] && commands[1..] == [];
      assert Sum(commands[1..], SettlesOne()) == 0;
    } else {
      assert commands[1..] == [commands[1]] && commands[1..][1..] == [];
      assert Sum(commands[1..], SettlesOne()) == 1;
    }
  }

  lemma SettlementsGrow(start: seq<Command>, sent: seq<Command>, tag: nat, verdict: Verdict, publish: PublishFate)
    requires start <= sent
    ensures Settlements((sent + Commands(tag, verdict, publish))[|start|..]) == Settlements(sent[|start|..]) + 1
  {
    var more := Commands(tag, verdict, publish);
    assert (sent + more)[|start|..] == sent[|start|..] + more;
    SumAppend(sent[|start|..], more, SettlesOne());
    OneSettlement(tag, verdict, publish);
  }

  /** The deliveries settled by a command sequence, in order. */
  function Settled(sent: seq<Command>): seq<nat> {
    if sent == [] then []
    else
      var last := sent[|sent| - 1];
      Settled(sent[..|sent| - 1]) + if last.PublishTo? then [] else [last.tag]
  }

  /** The deliveries among the items yielded, in order. */
  function Deliveries(items: seq<Yielded>): seq<nat> {
    if items == [] then []
    else
      var last := items[|items| - 1];
      Deliveries(items[..|items| - 1]) + if last.Message? then [last.tag] else []
  }

  lemma DeliveriesSnoc(items: seq<Yielded>, item: Yielded)
    ensures Deliveries(items + [item]) == Deliveries(items) + if item.Message? then [item.tag] else []
  {
    assert (items + [item])[..|items|] == items;
  }

  lemma SettledSnoc(sent: seq<Command>, c: Command)
    ensures Settled(sent + [c]) == Settled(sent) + if c.PublishTo? then [] else [c.tag]
  {
    assert (sent + [c])[..|sent|] == sent;
  }

  /** The commands for a delivery settle that delivery and no other. */
  lemma SettledGrows(start: seq<Command>, sent: seq<Command>, tag: nat, verdict: Verdict, publish: PublishFate)
    requires start <= sent
    ensures Settled((sent + Commands(tag, verdict, publish))[|start|..]) == Settled(sent[|start|..]) + [tag]
  {
    hide Settled;
    var before, more := sent[|start|..], Commands(tag, verdict, publish);
    assert (sent + more)[|start|..] == before + more;
    if verdict.Succeeded? {
      SettledSnoc(before, more[0]);
      assert more == [more[0]];
    } else {
      SettledSnoc(before, more[0]);
      SettledSnoc(before + [more[0]], more[1]);
      assert before + more == before + [more[0]] + [more[1]];
      assert Settled(before) + [] == Settled(before);
    }
  }

  /** What was settled since some point is what was yielded, `n` deliveries in all. */
  predicate Matched(sent0: seq<Command>, sent: seq<Command>, items0: seq<Yielded>, items: seq<Yielded>, n: nat) {
    && sent0 <= sent && items0 <= items
    && Settled(sent[|sent0|..]) == Deliveries(items[|items0|..])
    && n == Settlements(sent[|sent0|..]) == |Settled(sent[|sent0|..])|
  }

  lemma MatchedNone(sent: seq<Command>, items: seq<Yielded>)
    ensures Matched(sent, sent, items, items, 0)
  {
    assert sent[|sent|..] == [] && items[|items|..] == [];
  }

  lemma MatchedHandled(sent0: seq<Command>, sent: seq<Command>, items0: seq<Yielded>, items: seq<Yielded>, n: nat,
                       item: Yielded, verdict: Verdict, publish: PublishFate)
    requires Matched(sent0, sent, items0, items, n) && item.Message?
    ensures Matched(sent0, sent + Commands(item.tag, verdict, publish), items0, items + [item], n + 1)
  {
    hide Settled, Deliveries, Settlements, Commands;
    SettlementsGrow(sent0, sent, item.tag, verdict, publish);
    SettledGrows(sent0, sent, item.tag, verdict, publish);
    assert (items + [item])[|items0|..] == items[|items0|..] + [item];
    DeliveriesSnoc(items[|items0|..], item);
  }

  lemma MatchedOther(sent0: seq<Command>, sent: seq<Command>, items0: seq<Yielded>, items: seq<Yielded>, n: nat,
                     item: Yielded)
    requires Matched(sent0, sent, items0, items, n) && !item.Message?
    ensures Matched(sent0, sent, items0, items + [item], n)
  {
    hide Settled, Deliveries, Settlements;
    assert (items + [item])[|items0|..] == items[|items0|..] + [item];
    DeliveriesSnoc(items[|items0|..], item);
  }

  /** The last item yielded since some point. */
  predicate Ends(items0: seq<Yielded>, items: seq<Yielded>, item: Yielded) {
    |items0| < |items| && items[|items| - 1] == item
  }

  /** The registered job handlers. What the n-th run of one does is not theirs to promise. */
  class Handlers {
    const types: set<string>
    const behaviour: (nat, string, Payload) -> Outcome
    var runs: seq<(string, Payload)>

    constructor (types: set<string>, behaviour: (nat, string, Payload) -> Outcome)
      ensures this.types == types && this.behaviour == behaviour && runs == []
    {
      this.types, this.behaviour := types, behaviour;
      runs := [];
    }

    method Invoke(kind: string, payload: Payload) returns (outcome: Outcome)
      requires kind in types
      modifies this`runs
      ensures runs == old(runs) + [(kind, payload)] && outcome == behaviour(|old(runs)|, kind, payload)
    {
      outcome := behaviour(|runs|, kind, payload);
      runs := runs + [(kind, payload)];
    }

    /** A delivery of a registered type has its handler run once on its payload; any other delivery runs none. */
    ghost predicate Ran(before: seq<(string, Payload)>, body: Body, outcome: Outcome)
      reads this`runs
    {
      if body.Encoded? && body.envelope.kind in types then
        && runs == before + [(body.envelope.kind, body.envelope.payload)]
        && outcome == behaviour(|before|, body.envelope.kind, body.envelope.payload)
      else runs == before
    }
  }

  class TaskQueue {
    const maxRetries: nat
    const server: Channel
    var connected: bool
    var consumeAborted: bool

    constructor (server: Channel, maxRetries: int)
      ensures this.server == server && this.maxRetries == Max(1, maxRetries) && !connected && !consumeAborted
    {
      this.server := server;
      this.maxRetries := Max(1, maxRetries);
      connected, consumeAborted := false, false;
    }

    /** Reuse an open channel, else connect once; `reachable` says whether the broker answers. */
    method EnsureChannel(reachable: bool) returns (open: bool)
      modifies this`connected
      ensures open == connected == (old(connected) || reachable)
    {
      if connected {
        return true;
      }
      connected := reachable;
      open := connected;
    }

    /** Publish a new job under a fresh id; true exactly when a channel is open and the broker confirmed the publish. */
    method Enqueue(id: string, kind: string, payload: Payload, reachable: bool) returns (accepted: bool)
      requires server.Valid()
      requires forall j | j in server.world.stored :: j.id != id
      modifies this`connected, server
      ensures server.Valid()
      ensures accepted <==> (old(connected) || reachable) && server.published.Confirmed?
      ensures accepted ==> Job(id, kind, payload) in server.world.accepted
      ensures !accepted ==> server.world.accepted == old(server.world).accepted
      ensures connected == accepted
      ensures if old(connected) || reachable then
          && server.steps == old(server.steps) + [Step.Enqueue(Job(id, kind, payload), server.published)]
          && server.sent == old(server.sent)
             + [PublishTo(Tasks, Encoded(Envelope(id, kind, payload, 0, None)), Some(0), None)]
        else server.steps == old(server.steps) && server.sent == old(server.sent)
    {
      var open := EnsureChannel(reachable);
      if !open {
        return false;
      }
      ghost var before := server.world;
      var job := Job(id, kind, payload);
      var raised := server.BasicPublish(Tasks, Encoded(Fresh(job)), Some(0), None);
      server.BookEnqueue(job, before);
      if raised {
        connected := false;
        return false;
      }
      return true;
    }

    method ToDlq(body: Body, reason: string) returns (ok: bool)
      modifies server`world, server`sent, server`published
      ensures ok == server.published.Confirmed?
      ensures server.world == old(server.world).(queues :=
        Publish(old(server.world).queues, DeadLetters, body, server.published))
      ensures server.sent == old(server.sent) + [PublishTo(DeadLetters, body, None, Some(reason))]
    {
      var raised := server.BasicPublish(DeadLetters, body, None, Some(reason));
      return !raised;
    }

    /** Dead-letter the body, then ack; when the publish failed, let the queue's own dead-letter exchange route it. */
    method BuryDelivery(tag: nat, body: Body, reason: string)
      modifies server`world, server`sent, server`published, server`settled
      ensures server.sent == old(server.sent) + Commands(tag, Bury(body, reason), server.published)
      ensures server.world == old(server.world).(queues :=
        Settle(old(server.world).queues, tag, Bury(body, reason), server.published, server.settled))
    {
      var ok := ToDlq(body, reason);
      if ok {
        var _ := server.BasicAck(tag);
      } else {
        var _ := server.BasicNack(tag, false);
      }
    }

    /** Republish with one more attempt on record, then ack; when the publish failed, nack and requeue. */
    method RetryDelivery(tag: nat, envelope: Envelope)
      modifies server`world, server`sent, server`published, server`settled
      ensures server.sent == old(server.sent) + Commands(tag, Retry(Encoded(envelope)), server.published)
      ensures server.world == old(server.world).(queues :=
        Settle(old(server.world).queues, tag, Retry(Encoded(envelope)), server.published, server.settled))
    {
      var raised := server.BasicPublish(Tasks, Encoded(envelope), Some(envelope.attempts), None);
      if raised {
        var _ := server.BasicNack(tag, true);
      } else {
        var _ := server.BasicAck(tag);
      }
    }

    /** Dispatch one delivery: ack on success; retry, then the dead-letter queue, on failure. */
    method HandleDelivery(tag: nat, body: Body, handlers: Handlers) returns (ghost outcome: Outcome)
      requires server.Valid() && server.policy == Policy(handlers.types, maxRetries)
      requires Find(server.world.queues.work, tag) == Some(body)
      modifies server, handlers`runs
      ensures server.Valid() && server.yielded == old(server.yielded)
      ensures handlers.Ran(old(handlers.runs), body, outcome)
      ensures server.steps == old(server.steps) + [Handle(tag, outcome, server.published, server.settled)]
      ensures server.sent == old(server.sent) + Commands(tag, Judge(server.policy, body, outcome), server.published)
    {
      ghost var before := server.world;
      var result := Returned;
      if body.Garbled? {
        BuryDelivery(tag, body, "decode-error");
      } else if body.envelope.kind !in handlers.types {
        BuryDelivery(tag, body, "no-handler");
      } else {
        var envelope := body.envelope;
        result := handlers.Invoke(envelope.kind, envelope.payload);
        if result.Raised? {
          envelope := envelope.(attempts := envelope.attempts + 1);
          if envelope.attempts >= maxRetries {
            BuryDelivery(tag, Encoded(envelope.(error := Some(result.message))), "max-retries");
          } else {
            RetryDelivery(tag, envelope);
          }
        } else {
          var _ := server.BasicAck(tag);
        }
      }
      server.BookDelivery(tag, body, result, before);
      outcome := result;
    }

    /**
     Drain the queue. Every message yielded is handled, in order, and the number of them is returned. The drain goes on
     until the generator yields something else, `maxMessages` is reached, or, after `patience` items, it is interrupted
     from outside. It is aborted exactly when there is no channel or the channel is lost.
     */
    method Consume(handlers: Handlers, maxMessages: Option<int>, reachable: bool, patience: nat)
      returns (processed: nat)
      requires server.Valid() && server.policy == Policy(handlers.types, maxRetries)
      modifies this`connected, this`consumeAborted, server, handlers`runs
      ensures server.Valid() && old(server.steps) <= server.steps
      ensures old(server.sent) <= server.sent && old(server.yielded) <= server.yielded
      ensures connected == (old(connected) || reachable)
      ensures !connected ==> consumeAborted && processed == 0 && server.steps == old(server.steps)
      ensures maxMessages.Some? ==> processed <= Max(1, maxMessages.value)
      ensures Matched(old(server.sent), server.sent, old(server.yielded), server.yielded, processed)
      ensures connected ==> (consumeAborted <==> Ends(old(server.yielded), server.yielded, AmqpError))
      ensures connected ==>
        || |server.yielded| == |old(server.yielded)| + patience
        || Ends(old(server.yielded), server.yielded, AmqpError) || Ends(old(server.yielded), server.yielded, Inactive)
        || (maxMessages.Some? && 1 <= processed && maxMessages.value <= processed)
    {
      hide Judge, Commands, Find, Matched, QueueRuns.Run;
      consumeAborted := false;
      processed := 0;
      ghost var sent0, items0 := server.sent, server.yielded;
      MatchedNone(sent0, items0);
      var open := EnsureChannel(reachable);
      if !open {
        consumeAborted := true;
        return;
      }
      for tick := 0 to patience
        invariant server.Valid() && old(server.steps) <= server.steps && connected && !consumeAborted
        invariant sent0 <= server.sent && items0 <= server.yielded && |server.yielded| == |items0| + tick
        invariant Matched(sent0, server.sent, items0, server.yielded, processed)
        invariant tick > 0 ==> server.yielded[|server.yielded| - 1].Message?
        invariant maxMessages.Some? ==> processed == 0 || processed < maxMessages.value
      {
        ghost var items1 := server.yielded;
        var item := server.Next();
        if !item.Message? {
          MatchedOther(sent0, server.sent, items0, items1, processed, item);
          consumeAborted := item.AmqpError?;
          break;
        }
        ghost var sent1 := server.sent;
        var outcome := HandleDelivery(item.tag, item.body, handlers);
        ghost var verdict := Judge(server.policy, item.body, outcome);
        MatchedHandled(sent0, sent1, items0, items1, processed, item, verdict, server.published);
        processed := processed + 1;
        if maxMessages.Some? && processed >= maxMessages.value {
          break;
        }
      }
      server.Environment();
    }
  }

  // ---- The standalone worker and its counters ----

  /** One delivery the worker dealt with: its verdict, and how the publish it needed went. */
  datatype Dealt = Dealt(verdict: Verdict, publish: PublishFate)
  {
    predicate Nacked() { !verdict.Succeeded? && !publish.Confirmed? }
    predicate HandlerFailed() { verdict.Retry? || (verdict.Bury? && verdict.reason == "max-retries") }
    predicate Retried() { verdict.Retry? && publish.Confirmed? }
    predicate DeadLettered() { verdict.Bury? && publish.Confirmed? }
  }

  function CountDealt(history: seq<Dealt>, p: Dealt -> bool): int {
    Sum(history, (d: Dealt) => if p(d) then 1 else 0)
  }

  function Done(): Dealt -> bool { (d: Dealt) => d.verdict.Succeeded? }
  function Nacks(): Dealt -> bool { (d: Dealt) => d.Nacked() }
  function Failures(): Dealt -> bool { (d: Dealt) => d.HandlerFailed() }
  function Retries(): Dealt -> bool { (d: Dealt) => d.Retried() }
  function DeadLetterings(): Dealt -> bool { (d: Dealt) => d.DeadLettered() }
  function Exhaustions(): Dealt -> bool { (d: Dealt) => d.HandlerFailed() && d.DeadLettered() }
  function NackedFailures(): Dealt -> bool { (d: Dealt) => d.HandlerFailed() && d.Nacked() }

  lemma CountSnoc(history: seq<Dealt>, d: Dealt, p: Dealt -> bool)
    ensures CountDealt(history + [d], p) == CountDealt(history, p) + if p(d) then 1 else 0
  {
    SumSnoc(history, d, (d: Dealt) => if p(d) then 1 else 0);
  }

  /** The counters balance: each delivery is counted under one outcome, each failure under one. */
  lemma {:induction false} CountersBalance(history: seq<Dealt>)
    ensures |history| == CountDealt(history, Done()) + CountDealt(history, Retries())
                         + CountDealt(history, DeadLetterings()) + CountDealt(history, Nacks())
    ensures CountDealt(history, Failures())
         == CountDealt(history, Retries()) + CountDealt(history, Exhaustions()) + CountDealt(history, NackedFailures())
  {
    if history != [] {
      CountersBalance(history[1..]);
    }
  }

  class Worker {
    const maxRetries: nat
    const server: Channel
    var stopping: bool
    var processed: int
    var failed: int
    var retried: int
    var deadLettered: int
    ghost var history: seq<Dealt>
    /** How many items had been yielded when the stop came. */
    ghost var stoppedAt: nat

    ghost predicate Counted()
      reads this
    {
      && processed == CountDealt(history, Done())
      && failed == CountDealt(history, Failures())
      && retried == CountDealt(history, Retries())
      && deadLettered == CountDealt(history, DeadLetterings())
    }

    constructor (server: Channel, maxRetries: int)
      ensures Counted() && history == [] && !stopping
      ensures this.server == server && this.maxRetries == Max(1, maxRetries)
    {
      this.server := server;
      this.maxRetries := Max(1, maxRetries);
      stopping := false;
      processed, failed, retried, deadLettered, history, stoppedAt := 0, 0, 0, 0, [], 0;
    }

    method Stop()
      modifies this`stopping, this`stoppedAt
      ensures stopping && stoppedAt == if old(stopping) then old(stoppedAt) else |server.yielded|
    {
      if !stopping {
        stoppedAt := |server.yielded|;
      }
      stopping := true;
    }

    /** A signal handler may run here. */
    method MaybeSignal()
      modifies this`stopping, this`stoppedAt
      ensures old(stopping) ==> stopping && stoppedAt == old(stoppedAt)
      ensures stopping && !old(stopping) ==> stoppedAt == |server.yielded|
    {
      var signal: bool := *;
      if signal {
        Stop();
      }
    }

    method ToDlq(body: Body, reason: string) returns (ok: bool)
      modifies server`world, server`sent, server`published
      ensures ok == server.published.Confirmed?
      ensures server.world == old(server.world).(queues :=
        Publish(old(server.world).queues, DeadLetters, body, server.published))
      ensures server.sent == old(server.sent) + [PublishTo(DeadLetters, body, None, Some(reason))]
    {
      var raised := server.BasicPublish(DeadLetters, body, None, Some(reason));
      return !raised;
    }

    /** Dead-letter the body; ack and count it, or nack it to the queue's own dead-letter exchange. */
    method BuryDelivery(tag: nat, body: Body, reason: string)
      modifies server`world, server`sent, server`published, server`settled, this`deadLettered
      ensures server.sent == old(server.sent) + Commands(tag, Bury(body, reason), server.published)
      ensures server.world == old(server.world).(queues :=
        Settle(old(server.world).queues, tag, Bury(body, reason), server.published, server.settled))
      ensures deadLettered == old(deadLettered) + if server.published.Confirmed? then 1 else 0
    {
      var ok := ToDlq(body, reason);
      if ok {
        var _ := server.BasicAck(tag);
        deadLettered := deadLettered + 1;
      } else {
        var _ := server.BasicNack(tag, false);
      }
    }

    method RetryDelivery(tag: nat, envelope: Envelope)
      modifies server`world, server`sent, server`published, server`settled, this`retried
      ensures server.sent == old(server.sent) + Commands(tag, Retry(Encoded(envelope)), server.published)
      ensures server.world == old(server.world).(queues :=
        Settle(old(server.world).queues, tag, Retry(Encoded(envelope)), server.published, server.settled))
      ensures retried == old(retried) + if server.published.Confirmed? then 1 else 0
    {
      var raised := server.BasicPublish(Tasks, Encoded(envelope), Some(envelope.attempts), None);
      if raised {
        var _ := server.BasicNack(tag, true);
        return;
      }
      var _ := server.BasicAck(tag);
      retried := retried + 1;
    }

    /** Judge one delivery, send its commands, and count it. */
    method Dispatch(tag: nat, body: Body, handlers: Handlers) returns (outcome: Outcome)
      modifies server`world, server`sent, server`published, server`settled
      modifies this`processed, this`failed, this`retried, this`deadLettered, handlers`runs
      ensures handlers.Ran(old(handlers.runs), body, outcome)
      ensures var verdict := Judge(Policy(handlers.types, maxRetries), body, outcome);
        && server.world == old(server.world).(queues :=
             Settle(old(server.world).queues, tag, verdict, server.published, server.settled))
        && server.sent == old(server.sent) + Commands(tag, verdict, server.published)
        && var d := Dealt(verdict, server.published);
        && processed == old(processed) + (if verdict.Succeeded? then 1 else 0)
        && failed == old(failed) + (if d.HandlerFailed() then 1 else 0)
        && retried == old(retried) + (if d.Retried() then 1 else 0)
        && deadLettered == old(deadLettered) + (if d.DeadLettered() then 1 else 0)
    {
      outcome := Returned;
      if body.Garbled? {
        BuryDelivery(tag, body, "decode-error");
        return;
      }
      var envelope := body.envelope;
      if envelope.kind !in handlers.types {
        BuryDelivery(tag, Encoded(envelope), "no-handler");
        return;
      }
      outcome := handlers.Invoke(envelope.kind, envelope.payload);
      if outcome.Raised? {
        failed := failed + 1;
        envelope := envelope.(attempts := envelope.attempts + 1);
        if envelope.attempts >= maxRetries {
          BuryDelivery(tag, Encoded(envelope.(error := Some(outcome.message))), "max-retries");
        } else {
          RetryDelivery(tag, envelope);
        }
        return;
      }
      var _ := server.BasicAck(tag);
      processed := processed + 1;
    }

    /** The same policy as TaskQueue.HandleDelivery, with a counter for each terminal branch. */
    method HandleDelivery(tag: nat, body: Body, handlers: Handlers) returns (ghost outcome: Outcome)
      requires server.Valid() && server.policy == Policy(handlers.types, maxRetries) && Counted()
      requires Find(server.world.queues.work, tag) == Some(body)
      modifies server, this`processed, this`failed, this`retried, this`deadLettered, this`history, handlers`runs
      ensures server.Valid() && Counted() && server.yielded == old(server.yielded)
      ensures handlers.Ran(old(handlers.runs), body, outcome)
      ensures server.steps == old(server.steps) + [Handle(tag, outcome, server.published, server.settled)]
      ensures server.sent == old(server.sent) + Commands(tag, Judge(server.policy, body, outcome), server.published)
      ensures history == old(history) + [Dealt(Judge(server.policy, body, outcome), server.published)]
    {
      ghost var before := server.world;
      var result := Dispatch(tag, body, handlers);
      server.BookDelivery(tag, body, result, before);
      outcome := result;
      ghost var d := Dealt(Judge(server.policy, body, result), server.published);
      CountSnoc(history, d, Done());
      CountSnoc(history, d, Failures());
      CountSnoc(history, d, Retries());
      CountSnoc(history, d, DeadLetterings());
      history := history + [d];
    }

    /** Handle one message of the generator. */
    method Serve(item: Yielded, handlers: Handlers, ghost sent0: seq<Command>, ghost items0: seq<Yielded>,
                 ghost items: seq<Yielded>, n: nat)
      requires server.Valid() && server.policy == Policy(handlers.types, maxRetries) && Counted()
      requires item.Message? && Find(server.world.queues.work, item.tag) == Some(item.body)
      requires Matched(sent0, server.sent, items0, items, n)
      modifies server, this`processed, this`failed, this`retried, this`deadLettered, this`history, handlers`runs
      ensures server.Valid() && Counted() && server.yielded == old(server.yielded)
      ensures old(server.steps) <= server.steps && old(server.sent) <= server.sent
      ensures old(history) <= history && |history| == |old(history)| + 1
      ensures Matched(sent0, server.sent, items0, items + [item], n + 1)
    {
      hide Judge, Commands, CountDealt, Find, Matched, QueueRuns.Run;
      ghost var sent := server.sent;
      var outcome := HandleDelivery(item.tag, item.body, handlers);
      ghost var verdict := Judge(server.policy, item.body, outcome);
      MatchedHandled(sent0, sent, items0, items, n, item, verdict, server.published);
    }

    /**
     Drain the queue until stopped. Every message yielded is handled, in order, except one that comes after the stop;
     the number handled is returned. `handled` is what was yielded up to the stop; `patience` is how many items the
     consume generator yields before it ends.
     */
    method Run(handlers: Handlers, patience: nat) returns (deliveries: nat, ghost handled: seq<Yielded>)
      requires server.Valid() && server.policy == Policy(handlers.types, maxRetries) && Counted()
      modifies this, server, handlers`runs
      ensures server.Valid() && Counted() && old(server.steps) <= server.steps
      ensures old(server.sent) <= server.sent && old(history) <= history && old(server.yielded) <= server.yielded
      ensures deliveries == |history| - |old(history)|
      ensures old(stopping) ==> stopping && deliveries == 0
      ensures Matched(old(server.sent), server.sent, old(server.yielded), handled, deliveries)
      ensures stopping && !old(stopping) ==> |handled| <= stoppedAt
      ensures handled == server.yielded
        || (stopping && handled < server.yielded && |server.yielded| == |handled| + 1)
      ensures |server.yielded| == |old(server.yielded)| + patience || stopping
        || Ends(old(server.yielded), server.yielded, AmqpError)
    {
      hide CountDealt, Find, Matched, QueueRuns.Run;
      deliveries := 0;
      ghost var sent0, history0, items0 := server.sent, history, server.yielded;
      handled := items0;
      MatchedNone(sent0, items0);
      for tick := 0 to patience
        invariant server.Valid() && Counted() && old(server.steps) <= server.steps
        invariant sent0 <= server.sent && history0 <= history && deliveries == |history| - |history0|
        invariant items0 <= handled == server.yielded && |server.yielded| == |items0| + tick
        invariant Matched(sent0, server.sent, items0, handled, deliveries)
        invariant old(stopping) ==> stopping && deliveries == 0
        invariant stopping ==> old(stopping)
      {
        var item := server.Next();
        MaybeSignal();
        if !item.Message? {
          MatchedOther(sent0, server.sent, items0, handled, deliveries, item);
          handled := handled + [item];
        }
        if item.AmqpError? || stopping {
          break;
        }
        if item.Inactive? {
          continue;
        }
        Serve(item, handlers, sent0, items0, handled, deliveries);
        handled := handled + [item];
        deliveries := deliveries + 1;
        MaybeSignal();
        if stopping {
          break;
        }
      }
      server.Environment();
    }
  }
}
