/** The client's adaptive chunk size. */
module ChunkPolicies {
  import opened Common

  const DEFAULT_CHUNK_SIZE: nat := 10 * 1024 * 1024
  const MIN_CHUNK_SIZE: nat := 256 * 1024
  const SLOW_ACK_MILLIS: nat := 150
  const GROW_AFTER_HEALTHY_ACKS: nat := 2

  datatype Policy = Policy(current: nat, max: nat, min: nat, streak: nat)

  function NewPolicy(max: nat): Policy {
    Policy(max, max, Min(MIN_CHUNK_SIZE, Max(max, 1)), 0)
  }

  function Shrink(p: Policy): Policy {
    p.(current := Max(p.current / 2, p.min))
  }

  function Grow(p: Policy): Policy {
    p.(current := Max(Min(p.current * 2, p.max), p.min))
  }

  function OnAck(p: Policy, latencyMillis: nat): Policy {
    if latencyMillis >= SLOW_ACK_MILLIS then Shrink(p).(streak := 0)
    else if p.streak + 1 >= GROW_AFTER_HEALTHY_ACKS then Grow(p).(streak := 0)
    else p.(streak := p.streak + 1)
  }

  function OnReconnect(p: Policy): Policy {
    Shrink(p).(streak := 0)
  }

  function ChunkSizeForRemaining(p: Policy, remaining: nat): nat {
    Min(p.current, Max(remaining, 1))
  }

  datatype Event = Acked(latencyMillis: nat) | Reconnected | Restarted

  function Apply(p: Policy, e: Event): Policy {
    match e
    case Acked(latency) => OnAck(p, latency)
    case Reconnected => OnReconnect(p)
    case Restarted => NewPolicy(DEFAULT_CHUNK_SIZE)
  }

  function ApplyAll(p: Policy, events: seq<Event>): Policy
    decreases |events|
  {
    if events == [] then p else ApplyAll(Apply(p, events[0]), events[1..])
  }

  predicate InBounds(p: Policy) {
    && p.max == DEFAULT_CHUNK_SIZE && p.min == MIN_CHUNK_SIZE
    && MIN_CHUNK_SIZE <= p.current <= DEFAULT_CHUNK_SIZE
    && p.streak < GROW_AFTER_HEALTHY_ACKS
  }

  /** Whatever acknowledgements and reconnects happen, the chunk size stays within 256 KiB and 10 MiB. */
  lemma {:induction false} AlwaysInBounds(p: Policy, events: seq<Event>)
    requires InBounds(p)
    ensures InBounds(ApplyAll(p, events))
    decreases |events|
  {
    if events != [] {
      AlwaysInBounds(Apply(p, events[0]), events[1..]);
    }
  }

  /** A chunk that does not reach the end of the stream is at least the minimum size. */
  lemma ChunkFits(p: Policy, remaining: nat)
    requires InBounds(p) && remaining > 0
    ensures var n := ChunkSizeForRemaining(p, remaining);
            0 < n <= remaining && n <= DEFAULT_CHUNK_SIZE && (n < remaining ==> n >= MIN_CHUNK_SIZE)
  {
  }

  class ChunkPolicy {
    var current: nat
    var max: nat
    var min: nat
    var streak: nat

    ghost function Value(): Policy
      reads this
    {
      Policy(current, max, min, streak)
    }

    constructor (maxChunkSize: nat)
      ensures Value() == NewPolicy(maxChunkSize)
      ensures maxChunkSize == DEFAULT_CHUNK_SIZE ==> InBounds(Value())
    {
      current, max := maxChunkSize, maxChunkSize;
      min := Min(MIN_CHUNK_SIZE, Max(maxChunkSize, 1));
      streak := 0;
    }

    method ShrinkChunk()
      modifies this`current
      ensures Value() == Shrink(old(Value()))
    {
      current := Max(current / 2, min);
    }

    method GrowChunk()
      modifies this`current
      ensures Value() == Grow(old(Value()))
    {
      current := Max(Min(current * 2, max), min);
    }

    method Ack(latencyMillis: nat)
      modifies this`current, this`streak
      ensures Value() == OnAck(old(Value()), latencyMillis)
      ensures old(InBounds(Value())) ==> InBounds(Value())
    {
      if latencyMillis >= SLOW_ACK_MILLIS {
        ShrinkChunk();
        streak := 0;
        return;
      }
      streak := streak + 1;
      if streak >= GROW_AFTER_HEALTHY_ACKS {
        GrowChunk();
        streak := 0;
      }
    }

    method Reconnect()
      modifies this`current, this`streak
      ensures Value() == OnReconnect(old(Value()))
      ensures old(InBounds(Value())) ==> InBounds(Value())
    {
      ShrinkChunk();
      streak := 0;
    }
  }
}
