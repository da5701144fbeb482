/** The channel a consumer or producer holds, with the broker's freedom to misbehave left open. */
module Channels {
  import opened Prelude
  import opened Broker
  import opened Delivery
  import opened QueueRuns

  /** What the consume generator yields. */
  datatype Yielded = Message(tag: nat, body: Body) | Inactive | AmqpError

  class Channel {
    const policy: Policy
    /** The broker, and the ledger of everything that happened to it. */
    var world: World
    /** The commands sent over this channel, in order. */
    var sent: seq<Command>
    /** How the last publish and the last settlement really went; clients must not look. */
    var published: PublishFate
    var settled: SettleFate
    /** What the consume generator has yielded, in order. */
    ghost var yielded: seq<Yielded>
    /** Every step so far, from the empty broker. */
    ghost var steps: seq<Step>

    ghost predicate Valid()
      reads this
    {
      world == Run(policy, EMPTY, steps)
    }

    constructor (policy: Policy)
      ensures Valid() && this.policy == policy && steps == [] && sent == [] && yielded == []
    {
      this.policy := policy;
      world := EMPTY;
      sent, steps, yielded := [], [], [];
      published, settled := Confirmed, Applied;
    }

    method BasicPublish(exchange: Exchange, body: Body, attempts: Option<int>, reason: Option<string>)
      returns (raised: bool)
      modifies this`world, this`sent, this`published
      ensures raised == !published.Confirmed?
      ensures world == old(world).(queues := Publish(old(world).queues, exchange, body, published))
      ensures sent == old(sent) + [PublishTo(exchange, body, attempts, reason)]
    {
      published := *;
      world := world.(queues := Publish(world.queues, exchange, body, published));
      sent := sent + [PublishTo(exchange, body, attempts, reason)];
      raised := published != Confirmed;
    }

    /** May raise or not, whether or not the broker hears it. */
    method BasicAck(tag: nat) returns (raised: bool)
      modifies this`world, this`sent, this`settled
      ensures world == old(world).(queues := Ack(old(world).queues, tag, settled))
      ensures sent == old(sent) + [AckTag(tag)]
    {
      settled := *;
      world := world.(queues := Ack(world.queues, tag, settled));
      sent := sent + [AckTag(tag)];
      raised := *;
    }

    method BasicNack(tag: nat, requeue: bool) returns (raised: bool)
      modifies this`world, this`sent, this`settled
      ensures world == old(world).(queues := Nack(old(world).queues, tag, requeue, settled))
      ensures sent == old(sent) + [NackTag(tag, requeue)]
    {
      settled := *;
      world := world.(queues := Nack(world.queues, tag, requeue, settled));
      sent := sent + [NackTag(tag, requeue)];
      raised := *;
    }

    /** Enter a handled delivery in the ledger, once its commands have been sent. */
    method BookDelivery(tag: nat, body: Body, outcome: Outcome, ghost before: World)
      requires before == Run(policy, EMPTY, steps) && Find(before.queues.work, tag) == Some(body)
      requires world == before.(queues := Settle(before.queues, tag, Judge(policy, body, outcome), published, settled))
      modifies this`world, this`steps
      ensures Valid() && steps == old(steps) + [Handle(tag, outcome, published, settled)]
    {
      hide Judge, Settle, Faulty, Record, Apply, Find;
      var verdict := Judge(policy, body, outcome);
      HandleApplied(policy, before, tag, outcome, published, settled);
      RecordSame(policy, before, world.queues, body, outcome, Faulty(verdict, published, settled));
      RunSnoc(policy, EMPTY, steps, Handle(tag, outcome, published, settled));
      steps := steps + [Handle(tag, outcome, published, settled)];
      world := Record(policy, world, body, outcome, Faulty(verdict, published, settled));
    }

    /** Enter an accepted or half-accepted publish of a new job in the ledger. */
    method BookEnqueue(job: Job, ghost before: World)
      requires before == Run(policy, EMPTY, steps)
      requires forall j | j in before.stored :: j.id != job.id
      requires world == before.(queues := Publish(before.queues, Tasks, Encoded(Fresh(job)), published))
      modifies this`world, this`steps
      ensures Valid() && steps == old(steps) + [Enqueue(job, published)]
    {
      hide Publish, Apply;
      RunSnoc(policy, EMPTY, steps, Enqueue(job, published));
      EnqueueApplied(policy, before, job, published);
      steps := steps + [Enqueue(job, published)];
      if published != RaisedUnstored {
        world := world.(stored := world.stored + {job},
                        accepted := if published == Confirmed then world.accepted + {job} else world.accepted,
                        arrivals := world.arrivals + 1);
      }
    }

    /** Other producers, other consumers and the broker act, in any way the step machine allows. */
    method Environment()
      requires Valid()
      modifies this`world, this`steps
      ensures Valid() && old(steps) <= steps
    {
      var others: seq<Step> := *;
      for i := 0 to |others|
        invariant Valid() && old(steps) <= steps
      {
        RunSnoc(policy, EMPTY, steps, others[i]);
        steps := steps + [others[i]];
        world := Apply(policy, world, others[i]);
      }
    }

    /** The next item of the consume generator. */
    method Next() returns (item: Yielded)
      requires Valid()
      modifies this`world, this`steps, this`yielded
      ensures Valid() && old(steps) <= steps && yielded == old(yielded) + [item]
      ensures item.Message? ==> Find(world.queues.work, item.tag) == Some(item.body)
    {
      Environment();
      item := *;
      if item.Message? && Find(world.queues.work, item.tag) != Some(item.body) {
        item := Inactive;
      }
      yielded := yielded + [item];
    }
  }
}
