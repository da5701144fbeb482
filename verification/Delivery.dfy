/**
 What a consumer does with one delivery: run the handler, then succeed, retry with one
 more attempt on record, or bury the message in the dead-letter queue.
 Both consumers (TaskQueue and Worker) are proved against these functions.
 */
module Delivery {
  import opened Prelude
  import opened Broker

  /** What a job handler did. */
  datatype Outcome = Returned | Raised(message: string)

  /** The registered task types, and the total number of attempts before a job is buried. */
  datatype Policy = Policy(handlers: set<string>, maxRetries: nat)
  {
    predicate Valid() { maxRetries >= 1 }
  }

  datatype Verdict = Succeeded | Retry(body: Body) | Bury(body: Body, reason: string)

  datatype Command =
    | PublishTo(exchange: Exchange, body: Body, attempts: Option<int>, reason: Option<string>)
    | AckTag(tag: nat)
    | NackTag(tag: nat, requeue: bool)

  predicate Runs(policy: Policy, body: Body) {
    body.Encoded? && body.envelope.kind in policy.handlers
  }

  function Judge(policy: Policy, body: Body, outcome: Outcome): Verdict {
    if body.Garbled? then Bury(body, "decode-error")
    else if body.envelope.kind !in policy.handlers then Bury(body, "no-handler")
    else match outcome
      case Returned => Succeeded
      case Raised(message) =>
        var failed := body.envelope.(attempts := body.envelope.attempts + 1);
        if failed.attempts >= policy.maxRetries
        then Bury(Encoded(failed.(error := Some(message))), "max-retries")
        else Retry(Encoded(failed))
  }

  /** The commands a consumer issues, given how its one publish (if any) went. */
  function Commands(tag: nat, verdict: Verdict, publish: PublishFate): seq<Command> {
    match verdict
    case Succeeded => [AckTag(tag)]
    case Retry(body) =>
      [PublishTo(Tasks, body, AttemptsOf(body), None),
       if publish.Confirmed? then AckTag(tag) else NackTag(tag, true)]
    case Bury(body, reason) =>
      [PublishTo(DeadLetters, body, None, Some(reason)),
       if publish.Confirmed? then AckTag(tag) else NackTag(tag, false)]
  }

  /** What is sent for each kind of delivery, when the broker confirms the publish and when it does not. */
  lemma CommandsSent(policy: Policy, tag: nat, e: Envelope, raw: string, message: string, publish: PublishFate)
    ensures var undecoded := Commands(tag, Judge(policy, Garbled(raw), Returned), publish);
      undecoded == [PublishTo(DeadLetters, Garbled(raw), None, Some("decode-error")),
                    if publish.Confirmed? then AckTag(tag) else NackTag(tag, false)]
    ensures e.kind !in policy.handlers ==>
      Commands(tag, Judge(policy, Encoded(e), Returned), publish)
      == [PublishTo(DeadLetters, Encoded(e), None, Some("no-handler")),
          if publish.Confirmed? then AckTag(tag) else NackTag(tag, false)]
    ensures e.kind in policy.handlers ==> Commands(tag, Judge(policy, Encoded(e), Returned), publish) == [AckTag(tag)]
    ensures e.kind in policy.handlers && e.attempts + 1 < policy.maxRetries ==>
      Commands(tag, Judge(policy, Encoded(e), Raised(message)), publish)
      == [PublishTo(Tasks, Encoded(e.(attempts := e.attempts + 1)), Some(e.attempts + 1), None),
          if publish.Confirmed? then AckTag(tag) else NackTag(tag, true)]
    ensures e.kind in policy.handlers && e.attempts + 1 >= policy.maxRetries ==>
      Commands(tag, Judge(policy, Encoded(e), Raised(message)), publish)
      == [PublishTo(DeadLetters, Encoded(e.(attempts := e.attempts + 1, error := Some(message))), None,
                    Some("max-retries")),
          if publish.Confirmed? then AckTag(tag) else NackTag(tag, false)]
  {}

  function AttemptsOf(body: Body): Option<int> {
    if body.Encoded? then Some(body.envelope.attempts) else None
  }

  /** The queues after those commands. */
  function Settle(q: Queues, tag: nat, verdict: Verdict, publish: PublishFate, settle: SettleFate): Queues {
    match verdict
    case Succeeded => Ack(q, tag, settle)
    case Retry(body) =>
      var q' := Publish(q, Tasks, body, publish);
      if publish.Confirmed? then Ack(q', tag, settle) else Nack(q', tag, true, settle)
    case Bury(body, _) =>
      var q' := Publish(q, DeadLetters, body, publish);
      if publish.Confirmed? then Ack(q', tag, settle) else Nack(q', tag, false, settle)
  }

  /** Did the broker misbehave while this delivery was being settled? */
  predicate Faulty(verdict: Verdict, publish: PublishFate, settle: SettleFate) {
    settle.Lost? || (!verdict.Succeeded? && !publish.Confirmed?)
  }

  // ---- Conservation ----

  /** How settling changes any measure of the queues. */
  function Change(body: Body, verdict: Verdict, publish: PublishFate, settle: SettleFate,
                  g: Body -> int, h: Body -> int): int {
    var added :=
      if verdict.Succeeded? || publish.RaisedUnstored? then 0
      else if verdict.Retry? then g(verdict.body) else h(verdict.body);
    var taken :=
      if settle.Lost? then 0
      else if verdict.Succeeded? || publish.Confirmed? then g(body)
      else if verdict.Retry? then 0
      else g(body) - h(body);
    added - taken
  }

  lemma FindAppend(work: seq<Entry>, e: Entry, tag: nat)
    requires Find(work, tag).Some?
    ensures Find(work + [e], tag) == Find(work, tag)
  {
    if work[0].status != Unacked(tag) {
      assert (work + [e])[1..] == work[1..] + [e];
      FindAppend(work[1..], e, tag);
    } else {
      assert (work + [e])[0] == work[0];
    }
  }

  lemma PublishWeight(q: Queues, exchange: Exchange, body: Body, fate: PublishFate, g: Body -> int, h: Body -> int)
    ensures Weight(Publish(q, exchange, body, fate), g, h) == Weight(q, g, h)
      + (if fate.RaisedUnstored? then 0 else if exchange.Tasks? then g(body) else h(body))
  {
    SumSnoc(q.work, Entry(body, Ready), OfEntry(g));
    SumSnoc(q.dlq, body, h);
  }

  lemma SettleWeight(q: Queues, tag: nat, verdict: Verdict, publish: PublishFate, settle: SettleFate,
                     g: Body -> int, h: Body -> int)
    requires Find(q.work, tag).Some?
    ensures Weight(Settle(q, tag, verdict, publish, settle), g, h)
         == Weight(q, g, h) + Change(Find(q.work, tag).value, verdict, publish, settle, g, h)
  {
    var q' :=
      match verdict
      case Succeeded => q
      case Retry(body) => Publish(q, Tasks, body, publish)
      case Bury(body, _) => Publish(q, DeadLetters, body, publish);
    if !verdict.Succeeded? {
      PublishWeight(q, if verdict.Retry? then Tasks else DeadLetters, verdict.body, publish, g, h);
      FindAppend(q.work, Entry(verdict.body, Ready), tag);
    }
    assert Find(q'.work, tag) == Find(q.work, tag);
    SumWithout(q'.work, tag, g);
    SumMark(q'.work, tag, Orphaned, g);
    SumMark(q'.work, tag, Ready, g);
    SumSnoc(q'.dlq, Find(q.work, tag).value, h);
  }
}
