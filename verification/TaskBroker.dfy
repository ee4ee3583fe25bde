/**
 The message stream of the workers' consumer group: entries not delivered yet, in stream order,
 and the pending-entries list of deliveries nobody acknowledged.
 */
module TaskBroker {
  import opened Wrappers
  import opened TaskTable

  type MessageId = nat

  datatype Message = Message(id: MessageId, task: TaskId)

  /** A delivery: who has it and since when (ms). */
  datatype Entry = Entry(message: Message, consumer: string, deliveredAt: int)

  const PENDING_RECLAIM_MIN_IDLE_MS := 60_000
  const STREAM_MAXLEN := 10_000

  /** The undelivered messages after one more; trimming may drop some of the oldest, but the newest STREAM_MAXLEN always stay. */
  predicate Queued(before: seq<Message>, after: seq<Message>, m: Message) {
    exists k :: 0 <= k <= |before| && after == (before + [m])[k..] && (k > 0 ==> |after| >= STREAM_MAXLEN)
  }

  function MessagesOf(entries: seq<Entry>): (ms: seq<Message>)
    ensures |ms| == |entries|
  {
    seq(|entries|, k requires 0 <= k < |entries| => entries[k].message)
  }

  /** The entries among the first `count` that have been idle long enough, in list order. */
  function IdleMessages(entries: seq<Entry>, now: int, minIdle: int): seq<Message> {
    if entries == [] then []
    else if now - entries[0].deliveredAt >= minIdle
      then [entries[0].message] + IdleMessages(entries[1..], now, minIdle)
    else IdleMessages(entries[1..], now, minIdle)
  }

  lemma {:induction false} IdleAppend(entries: seq<Entry>, e: Entry, now: int, minIdle: int)
    ensures IdleMessages(entries + [e], now, minIdle)
         == IdleMessages(entries, now, minIdle) + if now - e.deliveredAt >= minIdle then [e.message] else []
  {
    if entries == [] {
      assert [e][1..] == [];
    } else {
      assert (entries + [e])[1..] == entries[1..] + [e];
      IdleAppend(entries[1..], e, now, minIdle);
    }
  }

  /** The deliveries left once message `id` is acknowledged. */
  function Unacknowledged(entries: seq<Entry>, id: MessageId): (left: seq<Entry>)
    ensures forall e :: e in left <==> e in entries && e.message.id != id
  {
    if entries == [] then []
    else if entries[0].message.id == id then Unacknowledged(entries[1..], id)
    else [entries[0]] + Unacknowledged(entries[1..], id)
  }

  predicate DistinctIds(entries: seq<Entry>) {
    forall j, k :: 0 <= j < k < |entries| ==> entries[j].message.id != entries[k].message.id
  }

  lemma {:induction false} UnacknowledgedDistinct(entries: seq<Entry>, id: MessageId)
    requires DistinctIds(entries)
    ensures DistinctIds(Unacknowledged(entries, id))
  {
    if entries != [] {
      UnacknowledgedDistinct(entries[1..], id);
      assert forall k :: 1 <= k < |entries| ==> entries[k] == entries[1..][k - 1];
      forall e | e in entries[1..]
        ensures e.message.id != entries[0].message.id
      {
      }
    }
  }

  class Broker {
    var enabled: bool
    var undelivered: seq<Message>
    var pending: seq<Entry>
    var nextId: MessageId
    var consumer: string

    ghost predicate Valid()
      reads this
    {
      && (forall k :: 0 <= k < |undelivered| ==> undelivered[k].id < nextId)
      && (forall k :: 0 <= k < |pending| ==> pending[k].message.id < nextId)
      && DistinctIds(pending)
      && (forall j, k :: 0 <= j < |pending| && 0 <= k < |undelivered| ==> pending[j].message.id != undelivered[k].id)
      && (forall j, k :: 0 <= j < k < |undelivered| ==> undelivered[j].id != undelivered[k].id)
    }

    /** A stream that nothing has been published to yet. */
    constructor (enabled: bool, consumer: string)
      ensures Valid() && undelivered == [] && pending == [] && this.enabled == enabled && this.consumer == consumer
    {
      this.enabled, this.consumer := enabled, consumer;
      undelivered, pending, nextId := [], [], 0;
    }

    method PublishTask(task: TaskId) returns (published: bool)
      requires Valid()
      modifies this`undelivered, this`nextId
      ensures Valid() && published == enabled
      ensures !enabled ==> undelivered == old(undelivered)
      ensures enabled ==> Queued(old(undelivered), undelivered, Message(old(nextId), task))
    {
      published := enabled;
      if enabled {
        var queue := undelivered + [Message(nextId, task)];
        var trimmed :| 0 <= trimmed && (trimmed == 0 || |queue| - trimmed >= STREAM_MAXLEN);
        undelivered, nextId := queue[trimmed..], nextId + 1;
      }
    }

    method ConsumeTask(now: int) returns (m: Option<Message>)
      requires Valid()
      modifies this`undelivered, this`pending
      ensures Valid()
      ensures m == if enabled && old(undelivered) != [] then Some(old(undelivered)[0]) else None
      ensures m.None? ==> undelivered == old(undelivered) && pending == old(pending)
      ensures m.Some? ==> undelivered == old(undelivered)[1..]
                          && pending == old(pending) + [Entry(m.value, consumer, now)]
    {
      if !enabled || undelivered == [] {
        return None;
      }
      m := Some(undelivered[0]);
      pending := pending + [Entry(undelivered[0], consumer, now)];
      undelivered := undelivered[1..];
    }

    /** Without a message id, or without a stream, there is nothing to acknowledge. */
    method AckTask(id: Option<MessageId>)
      requires Valid()
      modifies this`pending
      ensures Valid()
      ensures pending == if enabled && id.Some? then Unacknowledged(old(pending), id.value) else old(pending)
    {
      if enabled && id.Some? {
        UnacknowledgedDistinct(pending, id.value);
        ghost var before := pending;
        pending := Unacknowledged(pending, id.value);
        assert forall k :: 0 <= k < |pending| ==> pending[k] in before;
      }
    }

    /**
     Take over deliveries that have been idle for `minIdle` ms, looking at the first `count` only.
     They stay pending, now delivered to this consumer.
     */
    method ClaimPendingTasks(now: int, minIdle: int, count: nat) returns (claimed: seq<Message>)
      requires Valid()
      modifies this`pending
      ensures Valid()
      ensures !enabled ==> claimed == [] && pending == old(pending)
      ensures MessagesOf(pending) == MessagesOf(old(pending))
      ensures enabled ==>
                && claimed == IdleMessages(old(pending)[..if count < |old(pending)| then count else |old(pending)|], now, minIdle)
                && forall k :: 0 <= k < |pending| ==>
                     pending[k] == if k < count && now - old(pending)[k].deliveredAt >= minIdle
                                   then Entry(old(pending)[k].message, consumer, now) else old(pending)[k]
    {
      claimed := [];
      if !enabled {
        return;
      }
      var before := pending;
      var k := 0;
      while k < |before| && k < count
        invariant 0 <= k <= |before| == |pending| && k <= count
        invariant claimed == IdleMessages(before[..k], now, minIdle)
        invariant forall j :: 0 <= j < |before| ==>
                    pending[j] == if j < k && now - before[j].deliveredAt >= minIdle
                                  then Entry(before[j].message, consumer, now) else before[j]
      {
        assert before[..k + 1] == before[..k] + [before[k]];
        IdleAppend(before[..k], before[k], now, minIdle);
        if now - before[k].deliveredAt >= minIdle {
          claimed := claimed + [before[k].message];
          pending := pending[k := Entry(before[k].message, consumer, now)];
        }
        k := k + 1;
      }
    }
  }
}
