/**
 The wire format and the broker behind both consumers: a durable work queue that
 names a dead-letter exchange, and the dead-letter queue bound to it.
 The broker's answers to a publish or an acknowledgement are "fates": parameters
 of every operation, so that statements about all fates cover all faults.
 */
module Broker {
  import opened Prelude

  type Payload = map<string, string>

  datatype Envelope = Envelope(id: string, kind: string, payload: Payload, attempts: int, error: Option<string>)

  /** A message body: bytes that do not decode, or an encoded envelope. */
  datatype Body = Garbled(raw: string) | Encoded(envelope: Envelope)

  datatype Exchange = Tasks | DeadLetters

  /** `Unacked` is with a consumer that has not settled it; `Orphaned` is one whose settlement was lost. */
  datatype Status = Ready | Unacked(tag: nat) | Orphaned

  datatype Entry = Entry(body: Body, status: Status)

  datatype Queues = Queues(work: seq<Entry>, dlq: seq<Body>, nextTag: nat)

  /** A publish with confirms returns, or raises after the broker stored the message, or raises without. */
  datatype PublishFate = Confirmed | RaisedAfterStore | RaisedUnstored

  /** An ack or nack reaches the broker or not; the caller swallows the error either way. */
  datatype SettleFate = Applied | Lost

  function Find(work: seq<Entry>, tag: nat): Option<Body> {
    if work == [] then None
    else if work[0].status == Unacked(tag) then Some(work[0].body)
    else Find(work[1..], tag)
  }

  function Without(work: seq<Entry>, tag: nat): seq<Entry> {
    if work == [] then []
    else if work[0].status == Unacked(tag) then work[1..]
    else [work[0]] + Without(work[1..], tag)
  }

  function Mark(work: seq<Entry>, tag: nat, status: Status): seq<Entry> {
    if work == [] then []
    else if work[0].status == Unacked(tag) then [work[0].(status := status)] + work[1..]
    else [work[0]] + Mark(work[1..], tag, status)
  }

  function Publish(q: Queues, exchange: Exchange, body: Body, fate: PublishFate): Queues {
    if fate == RaisedUnstored then q
    else match exchange
      case Tasks => q.(work := q.work + [Entry(body, Ready)])
      case DeadLetters => q.(dlq := q.dlq + [body])
  }

  function Ack(q: Queues, tag: nat, fate: SettleFate): Queues {
    match fate
    case Applied => q.(work := Without(q.work, tag))
    case Lost => q.(work := Mark(q.work, tag, Orphaned))
  }

  /** A rejected delivery returns to its place in the queue, or goes through the queue's dead-letter exchange. */
  function Nack(q: Queues, tag: nat, requeue: bool, fate: SettleFate): Queues {
    match fate
    case Lost => q.(work := Mark(q.work, tag, Orphaned))
    case Applied =>
      if requeue then q.(work := Mark(q.work, tag, Ready))
      else match Find(q.work, tag)
        case None => q
        case Some(body) => q.(work := Without(q.work, tag), dlq := q.dlq + [body])
  }

  /** The position of the first ready entry, or the length of the queue. */
  function FirstReady(work: seq<Entry>): (k: nat)
    ensures k <= |work|
    ensures k < |work| ==> work[k].status == Ready
    ensures forall i | 0 <= i < k :: work[i].status != Ready
  {
    if work == [] then 0
    else if work[0].status == Ready then 0
    else 1 + FirstReady(work[1..])
  }

  /** Hand the oldest ready message to a consumer under a fresh delivery tag. */
  function Deliver(q: Queues): Queues {
    var k := FirstReady(q.work);
    if k == |q.work| then q
    else q.(work := q.work[k := q.work[k].(status := Unacked(q.nextTag))], nextTag := q.nextTag + 1)
  }

  /** The broker takes back one message: its channel died, or its consumer was cancelled. */
  function Redeliver(q: Queues, k: nat): Queues {
    if k < |q.work| then q.(work := q.work[k := q.work[k].(status := Ready)]) else q
  }

  // ---- Measures over message bodies ----

  /** Sum a measure `g` of the queued bodies and a measure `h` of the dead-lettered ones. */
  function Weight(q: Queues, g: Body -> int, h: Body -> int): int {
    Sum(q.work, OfEntry(g)) + Sum(q.dlq, h)
  }

  function OfEntry(g: Body -> int): Entry -> int { (e: Entry) => g(e.body) }

  lemma {:induction false} SumWithout(work: seq<Entry>, tag: nat, g: Body -> int)
    requires Find(work, tag).Some?
    ensures Sum(Without(work, tag), OfEntry(g)) == Sum(work, OfEntry(g)) - g(Find(work, tag).value)
  {
    if work[0].status != Unacked(tag) {
      SumWithout(work[1..], tag, g);
      assert Without(work, tag)[1..] == Without(work[1..], tag);
    }
  }

  lemma {:induction false} SumMark(work: seq<Entry>, tag: nat, status: Status, g: Body -> int)
    ensures Sum(Mark(work, tag, status), OfEntry(g)) == Sum(work, OfEntry(g))
  {
    if work != [] {
      if work[0].status == Unacked(tag) {
        assert Mark(work, tag, status)[1..] == work[1..];
      } else {
        SumMark(work[1..], tag, status, g);
        assert Mark(work, tag, status)[1..] == Mark(work[1..], tag, status);
      }
    }
  }

  lemma {:induction false} SumRestatus(work: seq<Entry>, k: nat, status: Status, g: Body -> int)
    requires k < |work|
    ensures Sum(work[k := work[k].(status := status)], OfEntry(g)) == Sum(work, OfEntry(g))
  {
    var work' := work[k := work[k].(status := status)];
    if k == 0 {
      assert work'[1..] == work[1..];
    } else {
      assert work'[1..] == work[1..][k - 1 := work[1..][k - 1].(status := status)];
      SumRestatus(work[1..], k - 1, status, g);
    }
  }
}
