/** Per-trunk admission on local counters, with timed auto-blocks. Instants are
    nanoseconds; every reading of the clock during a call is a parameter. */
module CapacityGuard {
  import opened Primitives
  import opened CapacityFallback

  const SECOND: nat := 1_000_000_000
  const BLOCK_BASE_SECS: nat := 60
  const BLOCK_ESCALATION_FACTOR: nat := 3
  const BLOCK_MAX_SECS: nat := 3600

  /** `maxCps` is the limit after rounding up. */
  datatype CapacityConfig = CapacityConfig(maxCalls: Option<nat>, maxCps: Option<nat>)

  datatype CheckResult =
    | Allowed
    | CpsExceeded(current: nat, limit: nat)
    | ConcurrentExceeded(current: nat, limit: nat)
    | TrunkBlocked(until: nat)

  datatype BlockEntry = BlockEntry(until: nat, escalationCount: nat)

  /** The clock as one check reads it: under the read lock, under the write lock that
      removes an expired entry, and when a new block starts. */
  datatype Clock = Clock(read: nat, remove: nat, block: nat)

  datatype State = State(cps: map<string, nat>, concurrent: map<string, nat>, blocks: map<string, BlockEntry>)

  // ---------- blocks ----------

  function Pow(b: nat, e: nat): nat {
    if e == 0 then 1 else b * Pow(b, e - 1)
  }

  /** Seconds of the next block after `e` escalations, in 64-bit arithmetic. */
  function BlockSecs(e: nat): nat {
    Min(BLOCK_BASE_SECS * (Pow(BLOCK_ESCALATION_FACTOR, e) % U64) % U64, BLOCK_MAX_SECS)
  }

  function Escalations(blocks: map<string, BlockEntry>, trunk: string): nat {
    if trunk in blocks then blocks[trunk].escalationCount else 0
  }

  function AutoBlock(blocks: map<string, BlockEntry>, trunk: string, now: nat): map<string, BlockEntry> {
    var e := Escalations(blocks, trunk);
    blocks[trunk := BlockEntry(now + BlockSecs(e) * SECOND, e + 1)]
  }

  predicate Active(blocks: map<string, BlockEntry>, trunk: string, now: nat) {
    trunk in blocks && blocks[trunk].until > now
  }

  /** Looking up an expired entry removes it. */
  function AfterLookup(blocks: map<string, BlockEntry>, trunk: string, clock: Clock): map<string, BlockEntry> {
    if trunk in blocks && !Active(blocks, trunk, clock.read) && blocks[trunk].until <= clock.remove
    then blocks - {trunk}
    else blocks
  }

  // ---------- a check ----------

  /** The concurrency gate: a read, and an increment if there is room. */
  function CountCall(s: State, trunk: string, maxCalls: Option<nat>): (State, CheckResult) {
    var current := Get(s.concurrent, trunk);
    if maxCalls.None? then (s, Allowed)
    else if current >= maxCalls.value then (s, ConcurrentExceeded(current, maxCalls.value))
    else (s.(concurrent := s.concurrent[trunk := current + 1]), Allowed)
  }

  /** The counter part of a check: new counters, and the answer. */
  function CheckLocal(s: State, trunk: string, config: CapacityConfig, now: nat): (State, CheckResult) {
    var n := Get(s.cps, trunk) + 1;
    var s1 := if config.maxCps.Some? then s.(cps := s.cps[trunk := n]) else s;
    if config.maxCps.Some? && n > config.maxCps.value then
      (s1.(blocks := AutoBlock(s1.blocks, trunk, now)), CpsExceeded(n, config.maxCps.value))
    else CountCall(s1, trunk, config.maxCalls)
  }

  /** What Redis answers to one check: its counts of recent calls and of running calls, absent when the request fails,
      and whether it takes the new call. */
  datatype Redis = NotConfigured | Configured(cps: Option<nat>, calls: Option<nat>, admits: bool)

  /** The check against the counts in Redis, absent when a request fails; it touches no local counter. */
  function CheckRedis(s: State, trunk: string, config: CapacityConfig, redis: Redis, now: nat):
    Option<(State, CheckResult)>
    requires redis.Configured?
  {
    if config.maxCps.Some? && redis.cps.None? then None
    else if config.maxCps.Some? && redis.cps.value > config.maxCps.value then
      Some((s.(blocks := AutoBlock(s.blocks, trunk, now)), CpsExceeded(redis.cps.value, config.maxCps.value)))
    else if config.maxCalls.None? then Some((s, Allowed))
    else if redis.calls.None? then None
    else if redis.calls.value >= config.maxCalls.value then
      Some((s, ConcurrentExceeded(redis.calls.value, config.maxCalls.value)))
    else if redis.admits then Some((s, Allowed))
    else None
  }

  /** Redis decides when it is configured and answers, else the local counters. */
  function CheckCounts(s: State, trunk: string, config: CapacityConfig, redis: Redis, now: nat): (State, CheckResult) {
    if redis.NotConfigured? then CheckLocal(s, trunk, config, now)
    else
      match CheckRedis(s, trunk, config, redis, now)
      case Some(answer) => answer
      case None => CheckLocal(s, trunk, config, now)
  }

  function Check(s: State, trunk: string, config: CapacityConfig, redis: Redis, clock: Clock): (State, CheckResult) {
    if Active(s.blocks, trunk, clock.read) then (s, TrunkBlocked(s.blocks[trunk].until))
    else CheckCounts(s.(blocks := AfterLookup(s.blocks, trunk, clock)), trunk, config, redis, clock.block)
  }

  function Release(s: State, trunk: string): State {
    if trunk in s.concurrent
    then s.(concurrent := s.concurrent[trunk := Less(s.concurrent[trunk])])
    else s
  }

  // ---------- the object ----------

  class CapacityGuard {
    const fallback: LocalCapacityFallback
    var blocks: map<string, BlockEntry>

    ghost predicate Valid()
      reads this, fallback, fallback.repr
    {
      this !in fallback.repr && fallback.Valid()
    }

    ghost function View(): State
      requires Valid()
      reads this, fallback, fallback.repr
    {
      State(fallback.Cps(), fallback.Concurrent(), blocks)
    }

    constructor ()
      ensures Valid() && fresh(fallback) && fresh(fallback.repr)
      ensures View() == State(map[], map[], map[])
    {
      fallback := new LocalCapacityFallback();
      blocks := map[];
    }

    method DoAutoBlock(trunk: string, now: nat)
      requires Valid()
      modifies this`blocks
      ensures Valid() && View() == old(View()).(blocks := AutoBlock(old(blocks), trunk, now))
    {
      if trunk !in blocks {
        blocks := blocks[trunk := BlockEntry(now, 0)];
      }
      var entry := blocks[trunk];
      var factor := Pow(BLOCK_ESCALATION_FACTOR, entry.escalationCount) % U64;
      var secs := Min(BLOCK_BASE_SECS * factor % U64, BLOCK_MAX_SECS);
      blocks := blocks[trunk := BlockEntry(now + secs * SECOND, entry.escalationCount + 1)];
    }

    method IsBlocked(trunk: string, clock: Clock) returns (entry: Option<BlockEntry>)
      requires Valid()
      modifies this`blocks
      ensures Valid() && View() == old(View()).(blocks := AfterLookup(old(blocks), trunk, clock))
      ensures entry == if Active(old(blocks), trunk, clock.read) then Some(old(blocks)[trunk]) else None
    {
      if trunk !in blocks {
        return None;
      }
      if blocks[trunk].until > clock.read {
        return Some(blocks[trunk]);
      }
      if trunk in blocks {
        if blocks[trunk].until <= clock.remove {
          blocks := blocks - {trunk};
        }
      }
      return None;
    }

    method CheckCapacityLocal(trunk: string, config: CapacityConfig, now: nat) returns (r: CheckResult)
      requires Valid()
      modifies this`blocks, fallback, fallback.repr
      ensures Valid() && fresh(fallback.repr - old(fallback.repr))
      ensures (View(), r) == CheckLocal(old(View()), trunk, config, now)
    {
      if config.maxCps.Some? {
        var limit := config.maxCps.value;
        var current := fallback.IncrementCps(trunk);
        if current > limit {
          DoAutoBlock(trunk, now);
          return CpsExceeded(current, limit);
        }
      }
      r := CheckConcurrent(trunk, config.maxCalls);
    }

    method CheckConcurrent(trunk: string, maxCalls: Option<nat>) returns (r: CheckResult)
      requires Valid()
      modifies fallback, fallback.repr
      ensures Valid() && fresh(fallback.repr - old(fallback.repr))
      ensures blocks == old(blocks) && (View(), r) == CountCall(old(View()), trunk, maxCalls)
    {
      if maxCalls.None? {
        return Allowed;
      }
      var current := fallback.GetConcurrent(trunk);
      if current >= maxCalls.value {
        return ConcurrentExceeded(current, maxCalls.value);
      }
      var _ := fallback.IncrementConcurrent(trunk);
      return Allowed;
    }

    method CheckCapacityRedis(trunk: string, config: CapacityConfig, redis: Redis, now: nat)
      returns (r: Option<CheckResult>)
      requires Valid() && redis.Configured?
      modifies this`blocks
      ensures Valid()
      ensures match CheckRedis(old(View()), trunk, config, redis, now)
              case Some(answer) => r == Some(answer.1) && View() == answer.0
              case None => r.None? && View() == old(View())
    {
      if config.maxCps.Some? {
        var limit := config.maxCps.value;
        if redis.cps.None? {
          return None;
        }
        if redis.cps.value > limit {
          DoAutoBlock(trunk, now);
          return Some(CpsExceeded(redis.cps.value, limit));
        }
      }
      if config.maxCalls.Some? {
        if redis.calls.None? {
          return None;
        }
        if redis.calls.value >= config.maxCalls.value {
          return Some(ConcurrentExceeded(redis.calls.value, config.maxCalls.value));
        }
        if !redis.admits {
          return None;
        }
      }
      return Some(Allowed);
    }

    method CheckCapacity(trunk: string, config: CapacityConfig, redis: Redis, clock: Clock) returns (r: CheckResult)
      requires Valid()
      modifies this`blocks, fallback, fallback.repr
      ensures Valid() && fresh(fallback.repr - old(fallback.repr))
      ensures (View(), r) == Check(old(View()), trunk, config, redis, clock)
    {
      var blocked := IsBlocked(trunk, clock);
      if blocked.Some? {
        return TrunkBlocked(blocked.value.until);
      }
      if redis.Configured? {
        var answer := CheckCapacityRedis(trunk, config, redis, clock.block);
        if answer.Some? {
          return answer.value;
        }
      }
      r := CheckCapacityLocal(trunk, config, clock.block);
    }

    /** The decrement in Redis is best effort and changes nothing here. */
    method ReleaseCall(trunk: string)
      requires Valid()
      modifies fallback.repr
      ensures Valid() && View() == Release(old(View()), trunk)
    {
      fallback.DecrementConcurrent(trunk);
    }
  }

  // ---------- an active block ----------

  /** A check answers TrunkBlocked exactly while a block is active, and then changes nothing. */
  lemma BlockedIffActive(s: State, trunk: string, config: CapacityConfig, redis: Redis, clock: Clock)
    ensures Check(s, trunk, config, redis, clock).1.TrunkBlocked? <==> Active(s.blocks, trunk, clock.read)
    ensures Active(s.blocks, trunk, clock.read) ==> Check(s, trunk, config, redis, clock).0 == s
  {
  }

  // ---------- one check at a time ----------

  datatype Event =
    | Checked(trunk: string, config: CapacityConfig, redis: Redis, clock: Clock)
    | Released(trunk: string)
    | ResetOne(trunk: string)
    | ResetAll

  function Apply(s: State, e: Event): State {
    match e
    case Checked(trunk, config, redis, clock) => Check(s, trunk, config, redis, clock).0
    case Released(trunk) => Release(s, trunk)
    case ResetOne(trunk) => if trunk in s.cps then s.(cps := s.cps[trunk := 0]) else s
    case ResetAll => s.(cps := map t | t in s.cps :: 0)
  }

  function Run(events: seq<Event>): State {
    if events == [] then State(map[], map[], map[])
    else Apply(Run(events[..|events| - 1]), events[|events| - 1])
  }

  /** The clock never runs backwards inside one check. */
  predicate Monotone(events: seq<Event>) {
    forall e :: e in events && e.Checked? ==> e.clock.read <= e.clock.remove
  }

  predicate Violates(events: seq<Event>, trunk: string)
    requires events != []
  {
    var e := events[|events| - 1];
    e.Checked? && e.trunk == trunk
    && Check(Run(events[..|events| - 1]), trunk, e.config, e.redis, e.clock).1.CpsExceeded?
  }

  function Violations(events: seq<Event>, trunk: string): nat {
    if events == [] then 0
    else Violations(events[..|events| - 1], trunk) + (if Violates(events, trunk) then 1 else 0)
  }

  function LastViolation(events: seq<Event>, trunk: string): nat {
    if events == [] then 0
    else if Violates(events, trunk) then events[|events| - 1].clock.block
    else LastViolation(events[..|events| - 1], trunk)
  }

  /** A check that answers CpsExceeded blocks; no other check changes more than an expired entry. */
  lemma BlocksAfter(s: State, trunk: string, config: CapacityConfig, redis: Redis, clock: Clock)
    ensures var (after, r) := Check(s, trunk, config, redis, clock);
            var left := AfterLookup(s.blocks, trunk, clock);
            after.blocks == if r.CpsExceeded? then AutoBlock(left, trunk, clock.block) else left
    ensures Check(s, trunk, config, redis, clock).1.CpsExceeded? ==> !Active(s.blocks, trunk, clock.read)
  {
    if !Active(s.blocks, trunk, clock.read) {
      CountsBlock(s.(blocks := AfterLookup(s.blocks, trunk, clock)), trunk, config, redis, clock.block);
    }
  }

  lemma CountsBlock(s: State, trunk: string, config: CapacityConfig, redis: Redis, now: nat)
    ensures var (after, r) := CheckCounts(s, trunk, config, redis, now);
            && !r.TrunkBlocked?
            && after.blocks == if r.CpsExceeded? then AutoBlock(s.blocks, trunk, now) else s.blocks
  {
  }

  /** A clock that does not run backwards always removes an expired entry, so a violation is a first one. */
  lemma FirstBlock(blocks: map<string, BlockEntry>, trunk: string, clock: Clock)
    requires clock.read <= clock.remove && !Active(blocks, trunk, clock.read)
    ensures var left := AfterLookup(blocks, trunk, clock);
            trunk !in left && AutoBlock(left, trunk, clock.block)[trunk] == BlockEntry(clock.block + 60 * SECOND, 1)
  {
    assert BlockSecs(0) == 60;
  }

  /** Checked one at a time, a block never escalates: each stored entry is a first block, 60 seconds from the last
      violation. */
  lemma {:induction false} NeverEscalates(events: seq<Event>, trunk: string)
    requires Monotone(events)
    ensures var blocks := Run(events).blocks;
            trunk in blocks ==>
              && Violations(events, trunk) > 0
              && blocks[trunk] == BlockEntry(LastViolation(events, trunk) + 60 * SECOND, 1)
  {
    if events != [] {
      var (before, e) := (events[..|events| - 1], events[|events| - 1]);
      assert e in events;
      NeverEscalates(before, trunk);
      if e.Checked? {
        BlocksAfter(Run(before), e.trunk, e.config, e.redis, e.clock);
        if Violates(events, trunk) {
          FirstBlock(Run(before).blocks, trunk, e.clock);
        }
      }
    }
  }

  /** The term the comment above `auto_block` promises for the n-th violation. */
  function DocumentedSecs(n: nat): nat
    requires n > 0
  {
    Min(BLOCK_BASE_SECS * Pow(BLOCK_ESCALATION_FACTOR, n - 1), BLOCK_MAX_SECS)
  }

  /** So the documented escalation holds for a violation exactly when it is the first. */
  lemma {:induction false} DocumentedIffFirst(events: seq<Event>, trunk: string)
    requires Monotone(events) && events != [] && Violates(events, trunk)
    ensures var n := Violations(events, trunk);
            && trunk in Run(events).blocks
            && n > 0
            && (Run(events).blocks[trunk].until == LastViolation(events, trunk) + DocumentedSecs(n) * SECOND
                <==> n == 1)
  {
    var n := Violations(events, trunk);
    var (before, e) := (events[..|events| - 1], events[|events| - 1]);
    NeverEscalates(events, trunk);
    BlocksAfter(Run(before), e.trunk, e.config, e.redis, e.clock);
    if n > 1 {
      PowPositive(n - 2);
      assert Pow(3, n - 1) == 3 * Pow(3, n - 2);
    }
  }

  lemma PowPositive(e: nat)
    ensures Pow(3, e) >= 1
  {
  }

  /** A trunk limited to no calls per second violates twice, an hour apart, and is
      blocked for 60 seconds both times. */
  lemma SecondViolationDoesNotEscalate()
    ensures exists events :: Monotone(events) && Violations(events, "t") == 2
              && "t" in Run(events).blocks
              && Run(events).blocks["t"] == BlockEntry(3600 * SECOND + 60 * SECOND, 1)
  {
    var config := CapacityConfig(None, Some(0));
    var hour := 3600 * SECOND;
    var a := Checked("t", config, NotConfigured, Clock(0, 0, 0));
    var b := Checked("t", config, NotConfigured, Clock(hour, hour, hour));
    var events := [a, b];
    assert events[..1] == [a] && [a][..0] == [];
    assert BlockSecs(0) == 60;
    assert Run([a]) == Check(State(map[], map[], map[]), "t", config, NotConfigured, a.clock).0;
    assert Run([a]).blocks["t"] == BlockEntry(60 * SECOND, 1);
    assert Violations([a], "t") == 1;
    assert Violations(events, "t") == 2;
  }

  // ---------- direct blocks on a retained entry ----------

  function BlockAll(trunk: string, times: seq<nat>): map<string, BlockEntry> {
    if times == [] then map[]
    else AutoBlock(BlockAll(trunk, times[..|times| - 1]), trunk, times[|times| - 1])
  }

  /** The n-th block of a retained entry lasts min(60 * 3^(n-1), 3600) seconds. */
  lemma {:induction false} DirectEscalation(trunk: string, times: seq<nat>)
    requires 0 < |times| <= 37
    ensures var (n, blocks) := (|times|, BlockAll(trunk, times));
            && trunk in blocks
            && blocks[trunk] == BlockEntry(times[n - 1] + DocumentedSecs(n) * SECOND, n)
  {
    var n := |times|;
    NoOverflowIff(n - 1);
    if n > 1 {
      DirectEscalation(trunk, times[..n - 1]);
    }
  }

  lemma {:induction false} PowAdd(a: nat, b: nat)
    ensures Pow(3, a + b) == Pow(3, a) * Pow(3, b)
  {
    if a > 0 {
      PowAdd(a - 1, b);
      assert 3 * (Pow(3, a - 1) * Pow(3, b)) == (3 * Pow(3, a - 1)) * Pow(3, b);
    }
  }

  lemma {:induction false} PowMonotone(a: nat, b: nat)
    requires a <= b
    ensures Pow(3, a) <= Pow(3, b)
    decreases b
  {
    if a < b {
      PowMonotone(a, b - 1);
    }
  }

  lemma Pow36()
    ensures Pow(3, 36) == 150094635296999121
  {
    assert Pow(3, 3) == 27;
    PowAdd(3, 3);
    PowAdd(6, 3);
    PowAdd(9, 9);
    PowAdd(18, 18);
  }

  /** The multiplication stays within 64 bits exactly up to 36 escalations, and until
      then the term is the documented one. */
  lemma NoOverflowIff(e: nat)
    ensures BLOCK_BASE_SECS * Pow(3, e) < U64 <==> e <= 36
    ensures e <= 36 ==> BlockSecs(e) == DocumentedSecs(e + 1)
  {
    if e <= 36 {
      NoOverflow(e);
    } else {
      Overflows(e);
    }
  }

  lemma NoOverflow(e: nat)
    requires e <= 36
    ensures BLOCK_BASE_SECS * Pow(3, e) < U64
    ensures BlockSecs(e) == DocumentedSecs(e + 1)
  {
    PowFits(e);
    SmallProduct(Pow(3, e));
  }

  lemma PowFits(e: nat)
    requires e <= 36
    ensures BLOCK_BASE_SECS * Pow(3, e) < U64
  {
    Pow36();
    PowMonotone(e, 36);
  }

  lemma SmallProduct(p: nat)
    requires BLOCK_BASE_SECS * p < U64
    ensures p % U64 == p && BLOCK_BASE_SECS * (p % U64) % U64 == BLOCK_BASE_SECS * p
  {
  }

  lemma Overflows(e: nat)
    requires e > 36
    ensures BLOCK_BASE_SECS * Pow(3, e) >= U64
  {
    Pow36();
    assert Pow(3, 37) == 3 * Pow(3, 36);
    PowMonotone(37, e);
  }

  /** Terms never shrink while escalating, and reach the cap with the fifth block. */
  lemma TermsNonDecreasing(e: nat, f: nat)
    requires e <= f <= 36
    ensures BlockSecs(e) <= BlockSecs(f)
    ensures f >= 4 ==> BlockSecs(f) == BLOCK_MAX_SECS
    ensures f < 4 ==> BlockSecs(f) == [60, 180, 540, 1620][f]
  {
    NoOverflowIff(e);
    NoOverflowIff(f);
    PowMonotone(e, f);
    assert Pow(3, 1) == 3 && Pow(3, 2) == 9 && Pow(3, 3) == 27 && Pow(3, 4) == 81;
    if f >= 4 {
      PowMonotone(4, f);
    }
  }
}
