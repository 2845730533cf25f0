/**
 * The bounded broadcast channel between the host and its connections: it retains the newest batches
 * and evicts the oldest, and a receiver that fell behind learns so on its next receive.
 */
module Channels {
  import opened Domain

  type EventBatch = seq<SessionEvent>

  /** Batches are numbered from 0; the retained ones start with number `evicted`. */
  datatype Channel = Channel(capacity: nat, evicted: nat, retained: seq<EventBatch>) {
    function Total(): nat {
      evicted + |retained|
    }
  }

  function NewChannel(capacity: nat): Channel {
    Channel(capacity, 0, [])
  }

  function Send(channel: Channel, batch: EventBatch): Channel {
    var all := channel.retained + [batch];
    if |all| <= channel.capacity
    then channel.(retained := all)
    else channel.(retained := all[1..], evicted := channel.evicted + 1)
  }

  datatype Received = Nothing | Lagged | Batch(events: EventBatch)

  /** What a receiver whose next batch is `next` gets, and which batch is next after that. */
  function Poll(channel: Channel, next: nat): (Received, nat) {
    if next < channel.evicted then
      (Lagged, channel.evicted)
    else if next < channel.Total() then
      (Batch(channel.retained[next - channel.evicted]), next + 1)
    else
      (Nothing, next)
  }

  function Flatten(batches: seq<EventBatch>): seq<SessionEvent> {
    if batches == [] then [] else batches[0] + Flatten(batches[1..])
  }

  lemma {:induction false} FlattenConcat(a: seq<EventBatch>, b: seq<EventBatch>)
    ensures Flatten(a + b) == Flatten(a) + Flatten(b)
  {
    if a == [] {
      assert a + b == b;
    } else {
      assert (a + b)[0] == a[0] && (a + b)[1..] == a[1..] + b;
      FlattenConcat(a[1..], b);
    }
  }

  lemma FlattenOne(batch: EventBatch)
    ensures Flatten([batch]) == batch
  {
    assert Flatten([batch][1..]) == [];
  }
}
