/**
 * The artificial-latency FIFO used three times over: for inputs arriving at the server
 * and broadcasts leaving it (server/server.py, DelayedMessageQueue and
 * DelayedBroadcastQueue) and for messages arriving at a client (client/network.py,
 * DelayedMessageQueue). Each entry is stamped with `now + delay` when it is added and is
 * released, front first, once that time has come.
 */
module Latency {

  /** A payload with its release time (DelayedMessage / DelayedBroadcast). */
  datatype Envelope<T> = Envelope(time: real, payload: T)

  /**
   * Length of the longest front prefix whose release times are all at or before `now`:
   * how many entries one drain releases.
   */
  function ReadyCount<T>(q: seq<Envelope<T>>, now: real): (n: nat)
    ensures n <= |q|
    ensures forall i :: 0 <= i < n ==> q[i].time <= now
    ensures n < |q| ==> q[n].time > now
  {
    if q == [] || q[0].time > now then 0 else 1 + ReadyCount(q[1..], now)
  }

  /** Release times never decrease from front to back. */
  ghost predicate Sorted<T>(q: seq<Envelope<T>>)
  {
    forall i, j :: 0 <= i <= j < |q| ==> q[i].time <= q[j].time
  }

  /** The payloads of a sequence of envelopes, in order. */
  function Payloads<T>(q: seq<Envelope<T>>): (r: seq<T>)
    ensures |r| == |q|
    ensures forall i :: 0 <= i < |q| ==> r[i] == q[i].payload
  {
    if q == [] then [] else [q[0].payload] + Payloads(q[1..])
  }

  /**
   * Stamping with a fixed delay and a clock that has not gone backwards since the earlier
   * entries were stamped keeps the release times in order.
   */
  lemma StampKeepsSorted<T>(q: seq<Envelope<T>>, now: real, delay: real, payload: T)
    requires Sorted(q)
    requires forall i :: 0 <= i < |q| ==> q[i].time - delay <= now
    ensures Sorted(q + [Envelope(now + delay, payload)])
  {
    var q' := q + [Envelope(now + delay, payload)];
    forall i, j | 0 <= i <= j < |q'| ensures q'[i].time <= q'[j].time {
      if j == |q| {
        assert q'[j].time == now + delay;
        if i < |q| { assert q'[i] == q[i]; }
      } else {
        assert q'[i] == q[i] && q'[j] == q[j];
      }
    }
  }

  /**
   * In a queue whose release times are in order, a drain releases every entry that is due:
   * none is held behind a later one.
   */
  lemma DueEntryIsReleased<T>(q: seq<Envelope<T>>, now: real, i: nat)
    requires Sorted(q)
    requires i < |q| && q[i].time <= now
    ensures i < ReadyCount(q, now)
  {
  }

  /** Whatever `now`, a drain releases nothing early, and what it keeps starts with an entry not yet due. */
  lemma DrainSplitsQueue<T>(q: seq<Envelope<T>>, now: real)
    ensures var n := ReadyCount(q, now);
            && q[..n] + q[n..] == q
            && (forall e :: e in q[..n] ==> e.time <= now)
            && (q[n..] != [] ==> q[n..][0].time > now)
  {
    var n := ReadyCount(q, now);
    assert q[..n] + q[n..] == q;
    forall e | e in q[..n] ensures e.time <= now {
      var k :| 0 <= k < n && q[..n][k] == e;
      assert e == q[k];
    }
  }

  /** A FIFO of stamped payloads, held as a sequence drained from its front (a deque). */
  class DelayQueue<T> {
    /** The fixed delay in seconds, `delay_ms / 1000.0`. */
    const delay: real
    /** Entries, front first. */
    var entries: seq<Envelope<T>>

    constructor (delayMs: int)
      ensures delay == delayMs as real / 1000.0
      ensures entries == []
    {
      delay := delayMs as real / 1000.0;
      entries := [];
    }

    /** add_message / add_broadcast: stamp with `now + delay`, append at the back. */
    method Add(payload: T, now: real)
      modifies this
      ensures entries == old(entries) + [Envelope(now + delay, payload)]
    {
      entries := entries + [Envelope(now + delay, payload)];
    }

    /**
     * get_ready_messages / get_ready_broadcasts: pop from the front while the front entry
     * is due, returning the popped entries in order.
     */
    method GetReady(now: real) returns (ready: seq<Envelope<T>>)
      modifies this
      ensures ready == old(entries)[..ReadyCount(old(entries), now)]
      ensures entries == old(entries)[ReadyCount(old(entries), now)..]
      ensures forall i :: 0 <= i < |ready| ==> ready[i].time <= now
      ensures entries != [] ==> entries[0].time > now
    {
      ready := [];
      while entries != [] && entries[0].time <= now
        invariant |ready| <= ReadyCount(old(entries), now)
        invariant ready == old(entries)[..|ready|]
        invariant entries == old(entries)[|ready|..]
        decreases |entries|
      {
        ready := ready + [entries[0]];
        entries := entries[1..];
      }
    }

    /** clear: discard every pending entry. */
    method Clear()
      modifies this
      ensures entries == []
    {
      entries := [];
    }
  }
}
