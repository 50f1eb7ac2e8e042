/** The span-naming rules of the channel (channel.go). */
module Names {

  /** Queues whose names the broker generated start with this prefix. */
  const AnonymousPrefix := "amq.gen-"
  const PublishSuffix := " publish"
  const ConsumeSuffix := " process"

  /**
    Whether a queue's name is one the broker generated: it starts with
    "amq.gen-". The prefix is compared character by character; the lemma below
    shows this is the prefix test.
  */
  function QueueAnonymous(queue: string): bool
  {
    |queue| >= 8 && queue[0] == 'a' && queue[1] == 'm' && queue[2] == 'q' && queue[3] == '.'
    && queue[4] == 'g' && queue[5] == 'e' && queue[6] == 'n' && queue[7] == '-'
  }

  /** A queue is anonymous iff its name starts with "amq.gen-". */
  lemma QueueAnonymousMeansPrefix(queue: string)
    ensures QueueAnonymous(queue) <==> AnonymousPrefix <= queue
    ensures QueueAnonymous(queue) <==> |queue| >= |AnonymousPrefix| && queue[..|AnonymousPrefix|] == AnonymousPrefix
  {
    if |queue| >= 8 && queue[..8] == AnonymousPrefix {
      assert forall i :: 0 <= i < 8 ==> queue[i] == queue[..8][i];
    }
  }

  /** The span name of a publish: the exchange, "(default)" for the default exchange, then " publish". */
  function NameWhenPublish(exchange: string): (r: string)
    ensures exchange == "" ==> r == "(default) publish"
    ensures exchange != "" ==> |r| == |exchange| + 8 && r[..|exchange|] == exchange
    ensures |r| >= 8 && r[|r| - 8..] == " publish"
  {
    (if exchange == "" then "(default)" else exchange) + PublishSuffix
  }

  /** The span name of processing a delivery: the queue, "(anonymous)" for a generated queue, then " process". */
  function NameWhenConsume(queue: string): (r: string)
    ensures QueueAnonymous(queue) ==> r == "(anonymous) process"
    ensures !QueueAnonymous(queue) ==> |r| == |queue| + 8 && r[..|queue|] == queue
    ensures |r| >= 8 && r[|r| - 8..] == " process"
  {
    (if QueueAnonymous(queue) then "(anonymous)" else queue) + ConsumeSuffix
  }

  /**
    A publish span name identifies its exchange, except that the default
    exchange and an exchange literally called "(default)" share one name.
  */
  lemma PublishNameIdentifiesExchange(a: string, b: string)
    requires NameWhenPublish(a) == NameWhenPublish(b)
    ensures a != "" && b != "" ==> a == b
    ensures a == "" && b != "" ==> b == "(default)"
  {
    var ea := if a == "" then "(default)" else a;
    var eb := if b == "" then "(default)" else b;
    assert ea == NameWhenPublish(a)[..|NameWhenPublish(a)| - 8];
    assert eb == NameWhenPublish(b)[..|NameWhenPublish(b)| - 8];
  }

  /**
    A consume span name identifies its queue when the queue is not anonymous;
    every anonymous queue gets the same name, so generated names never reach
    the span name.
  */
  lemma ConsumeNameIdentifiesQueue(a: string, b: string)
    requires NameWhenConsume(a) == NameWhenConsume(b)
    ensures !QueueAnonymous(a) && !QueueAnonymous(b) ==> a == b
    ensures QueueAnonymous(a) && !QueueAnonymous(b) ==> b == "(anonymous)"
  {
    var qa := if QueueAnonymous(a) then "(anonymous)" else a;
    var qb := if QueueAnonymous(b) then "(anonymous)" else b;
    assert qa == NameWhenConsume(a)[..|NameWhenConsume(a)| - 8];
    assert qb == NameWhenConsume(b)[..|NameWhenConsume(b)| - 8];
  }

  lemma AnonymousQueuesShareName(a: string, b: string)
    requires QueueAnonymous(a) && QueueAnonymous(b)
    ensures NameWhenConsume(a) == NameWhenConsume(b) == "(anonymous) process"
  {
  }
}
