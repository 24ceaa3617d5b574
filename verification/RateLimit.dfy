/**
 The in-process rate limiter (yb-core/src/ratelimit.rs): token buckets that refill
 lazily, a token bucket that may go into debt, and a count of calls in flight that
 guards give back. Amounts are reals; times are nanoseconds, of which a refill credits
 the whole milliseconds since the last one.
 */
module RateLimit {
  import opened Prelude

  datatype Limits = Limits(rpm: int, tpm: int, maxConcurrent: int)

  // ---------------------------------------------------------------------
  // Buckets
  // ---------------------------------------------------------------------

  datatype Bucket = Bucket(tokens: real, capacity: real, rate: real, last: int)

  function Rate(capacity: real, window: real): real {
    capacity / (if window < 0.001 then 0.001 else window)
  }

  function NewBucket(capacity: real, window: real, now: int): Bucket {
    Bucket(capacity, capacity, Rate(capacity, window), now)
  }

  /** Nanoseconds in a millisecond. */
  const MS := 1_000_000

  /** The whole milliseconds in a span; none in one that goes back. */
  function WholeMs(ns: int): nat {
    if ns < 0 then 0 else ns / MS
  }

  /** What a refill adds after a span. */
  function Gain(rate: real, ns: int): real {
    WholeMs(ns) as real / 1000.0 * rate
  }

  /** What the rate itself brings in a span. */
  function Flow(rate: real, ns: nat): real {
    ns as real / 1000000000.0 * rate
  }

  /** What the bucket holds at a time. */
  function Level(b: Bucket, now: int): real {
    var full := b.tokens + Gain(b.rate, now - b.last);
    if full < b.capacity then full else b.capacity
  }

  function Refill(b: Bucket, now: int): Bucket {
    b.(tokens := Level(b, now), last := now)
  }

  /** A wait in seconds; rates below 1e-9 count as that. */
  function Wait(amount: real, rate: real): real {
    amount / (if rate < 0.000000001 then 0.000000001 else rate)
  }

  lemma FlowAdds(rate: real, a: nat, b: nat)
    ensures Flow(rate, a) + Flow(rate, b) == Flow(rate, a + b)
  {
  }

  lemma FlowIsPositive(rate: real, ns: nat)
    requires rate >= 0.0
    ensures Flow(rate, ns) >= 0.0
  {
  }

  lemma FlowGrows(rate: real, a: nat, b: nat)
    requires rate >= 0.0 && a <= b
    ensures Flow(rate, a) <= Flow(rate, b)
  {
    hide Flow;
    FlowAdds(rate, a, b - a);
    FlowIsPositive(rate, b - a);
  }

  lemma GainIsPositive(rate: real, ns: int)
    requires rate >= 0.0
    ensures Gain(rate, ns) >= 0.0
  {
  }

  /** A refill adds no more than the rate brings. */
  lemma GainBelowFlow(rate: real, ns: int, span: nat)
    requires rate >= 0.0 && ns <= span
    ensures Gain(rate, ns) <= Flow(rate, span)
  {
    var ms := WholeMs(ns);
    assert ms * MS <= span;
    assert (ms * MS) as real == ms as real * 1000000.0;
    var a, b := ms as real / 1000.0, span as real / 1000000000.0;
    assert a <= b;
    assert (b - a) * rate >= 0.0;
  }

  /** Two spans whose odd parts make up another millisecond. */
  predicate Carries(x: nat, y: nat) {
    x % MS + y % MS >= MS
  }

  lemma WholeMsAdd(x: nat, y: nat)
    ensures WholeMs(x + y) == WholeMs(x) + WholeMs(y) + if Carries(x, y) then 1 else 0
  {
    var q, r := x / MS + y / MS, x % MS + y % MS;
    assert x + y == MS * q + r;
    if r >= MS {
      assert x + y == MS * (q + 1) + (r - MS);
    }
  }

  lemma GainAdds(rate: real, x: nat, y: nat)
    ensures Gain(rate, x + y) == Gain(rate, x) + Gain(rate, y) + if Carries(x, y) then rate / 1000.0 else 0.0
  {
    WholeMsAdd(x, y);
  }

  /** Refilling on the way never adds, and costs nothing exactly when the odd parts of the two
      spans make up no millisecond, or the bucket is full by then without it. */
  lemma RefillOnTheWay(b: Bucket, t: int, later: int)
    requires b.rate > 0.0 && b.last <= t <= later
    ensures Level(Refill(b, t), later) <= Level(b, later)
    ensures Level(Refill(b, t), later) == Level(b, later) <==>
              !Carries(t - b.last, later - t)
              || b.tokens + Gain(b.rate, t - b.last) + Gain(b.rate, later - t) >= b.capacity
  {
    hide Gain, Carries;
    GainAdds(b.rate, t - b.last, later - t);
    GainIsPositive(b.rate, later - t);
  }

  // ---------------------------------------------------------------------
  // One scope
  // ---------------------------------------------------------------------

  datatype Scope = Scope(rpm: Option<Bucket>, tpm: Option<Bucket>, inFlight: int)

  const NEW_SCOPE := Scope(None, None, 0)

  datatype Decision =
    | Allowed
    | Busy
    | TooMany(retryAfter: real)

  /** The bucket a scope has, or a full one where it has none yet. */
  function BucketOf(b: Option<Bucket>, limit: int, window: real, now: int): Bucket {
    b.GetOr(NewBucket(limit as real, window, now))
  }

  predicate Unlimited(limits: Limits) {
    limits.rpm == 0 && limits.tpm == 0 && limits.maxConcurrent == 0
  }

  function Checked(window: real, s: Scope, limits: Limits, now: int): (Scope, Decision) {
    if Unlimited(limits) then (s, Allowed)
    else if limits.maxConcurrent > 0 && s.inFlight >= limits.maxConcurrent then (s, Busy)
    else if limits.rpm <= 0 then (s.(inFlight := s.inFlight + 1), Allowed)
    else
      var b := Refill(BucketOf(s.rpm, limits.rpm, window, now).(capacity := limits.rpm as real), now);
      if b.tokens >= 1.0 then
        (s.(rpm := Some(b.(tokens := b.tokens - 1.0)), inFlight := s.inFlight + 1), Allowed)
      else
        (s.(rpm := Some(b)), TooMany(Wait(1.0 - b.tokens, b.rate)))
  }

  function Charged(window: real, s: Scope, limits: Limits, tokens: int, now: int): Scope {
    if limits.tpm <= 0 then s
    else
      var b := Refill(BucketOf(s.tpm, limits.tpm, window, now).(capacity := limits.tpm as real), now);
      s.(tpm := Some(b.(tokens := b.tokens - tokens as real)))
  }

  function Asked(window: real, s: Scope, limits: Limits, now: int): Scope {
    if limits.tpm <= 0 then s
    else s.(tpm := Some(Refill(BucketOf(s.tpm, limits.tpm, window, now), now)))
  }

  /** `tpm_exhausted` */
  predicate Exhausted(window: real, s: Scope, limits: Limits, now: int) {
    limits.tpm > 0 && Level(BucketOf(s.tpm, limits.tpm, window, now), now) < 1.0
  }

  function AtLeastASecond(secs: real): real {
    if secs < 1.0 then 1.0 else secs
  }

  // ---------------------------------------------------------------------
  // The limiter
  // ---------------------------------------------------------------------

  lemma UnlimitedIsAllowed(window: real, s: Scope, limits: Limits, now: int)
    requires Unlimited(limits)
    ensures Checked(window, s, limits, now) == (s, Allowed)
  {
  }

  /** The part of a check that works on the scope's entry. */
  method TakeSlot(window: real, s: Scope, limits: Limits, now: int) returns (entry: Scope, d: Decision)
    requires !Unlimited(limits)
    ensures (entry, d) == Checked(window, s, limits, now)
    ensures entry.inFlight == s.inFlight + if d.Allowed? then 1 else 0
  {
    hide Refill, Level, Wait, Gain, NewBucket;
    entry := s;
    if limits.maxConcurrent > 0 && entry.inFlight >= limits.maxConcurrent {
      return entry, Busy;
    }
    if limits.rpm > 0 {
      var bucket := BucketOf(entry.rpm, limits.rpm, window, now);
      bucket := bucket.(capacity := limits.rpm as real);
      bucket := Refill(bucket, now);
      if bucket.tokens < 1.0 {
        entry := entry.(rpm := Some(bucket));
        return entry, TooMany(Wait(1.0 - bucket.tokens, bucket.rate));
      }
      bucket := bucket.(tokens := bucket.tokens - 1.0);
      entry := entry.(rpm := Some(bucket));
    }
    entry := entry.(inFlight := entry.inFlight + 1);
    d := Allowed;
  }

  class Limiter {
    const window: real
    var scopes: map<string, Scope>
    /** The scopes of the guards not yet dropped. */
    ghost var live: multiset<string>

    /** The calls in flight are the live guards. */
    ghost predicate Valid()
      reads this
    {
      && (forall k :: k in scopes ==> scopes[k].inFlight == live[k])
      && (forall k :: k in live ==> k in scopes)
    }

    ghost function ScopeOf(scope: string): Scope
      reads this
    {
      if scope in scopes then scopes[scope] else NEW_SCOPE
    }

    constructor (window: real)
      ensures Valid() && this.window == window && scopes == map[] && live == multiset{}
    {
      this.window := window;
      scopes := map[];
      live := multiset{};
    }

    /** Only the named scope changes; a guard is given for every call let in under a limit. */
    method Check(scope: string, limits: Limits, now: int) returns (d: Decision, guard: Option<string>)
      requires Valid()
      modifies this
      ensures Valid()
      ensures d == Checked(window, old(ScopeOf(scope)), limits, now).1
      ensures ScopeOf(scope) == Checked(window, old(ScopeOf(scope)), limits, now).0
      ensures forall k :: k != scope ==> ScopeOf(k) == old(ScopeOf(k))
      ensures guard == if d.Allowed? && !Unlimited(limits) then Some(scope) else None
      ensures live == old(live) + if guard.Some? then multiset{scope} else multiset{}
    {
      hide Checked;
      if Unlimited(limits) {
        UnlimitedIsAllowed(window, ScopeOf(scope), limits, now);
        return Allowed, None;
      }
      var entry := if scope in scopes then scopes[scope] else NEW_SCOPE;
      entry, d := TakeSlot(window, entry, limits, now);
      scopes := scopes[scope := entry];
      guard := None;
      if d.Allowed? {
        live := live + multiset{scope};
        guard := Some(scope);
      }
    }

    /** Dropping a guard gives its slot back; the floor at zero is never met. */
    method Release(guard: Option<string>)
      requires Valid() && (guard.Some? ==> guard.value in live)
      modifies this
      ensures Valid()
      ensures live == old(live) - if guard.Some? then multiset{guard.value} else multiset{}
      ensures guard.Some? ==>
                ScopeOf(guard.value) == old(ScopeOf(guard.value)).(inFlight := old(ScopeOf(guard.value)).inFlight - 1)
      ensures forall k :: guard != Some(k) ==> ScopeOf(k) == old(ScopeOf(k))
    {
      if guard.Some? && guard.value in scopes {
        var entry := scopes[guard.value];
        var left := entry.inFlight - 1;
        scopes := scopes[guard.value := entry.(inFlight := if left < 0 then 0 else left)];
        live := live - multiset{guard.value};
      }
    }

    method ChargeTokens(scope: string, limits: Limits, tokens: int, now: int) returns (over: bool)
      requires Valid()
      modifies this
      ensures Valid() && live == old(live)
      ensures ScopeOf(scope) == Charged(window, old(ScopeOf(scope)), limits, tokens, now)
      ensures forall k :: k != scope ==> ScopeOf(k) == old(ScopeOf(k))
      ensures over == (limits.tpm > 0 && ScopeOf(scope).tpm.Some? && ScopeOf(scope).tpm.value.tokens < 1.0)
    {
      hide Refill, Level, Wait, Gain, NewBucket;
      if limits.tpm <= 0 {
        return false;
      }
      var entry := if scope in scopes then scopes[scope] else NEW_SCOPE;
      var bucket := BucketOf(entry.tpm, limits.tpm, window, now);
      bucket := bucket.(capacity := limits.tpm as real);
      bucket := Refill(bucket, now);
      bucket := bucket.(tokens := bucket.tokens - tokens as real);
      scopes := scopes[scope := entry.(tpm := Some(bucket))];
      return bucket.tokens < 1.0;
    }

    method TpmExhausted(scope: string, limits: Limits, now: int) returns (exhausted: bool, retryAfter: real)
      requires Valid()
      modifies this
      ensures Valid() && live == old(live)
      ensures ScopeOf(scope) == Asked(window, old(ScopeOf(scope)), limits, now)
      ensures forall k :: k != scope ==> ScopeOf(k) == old(ScopeOf(k))
      ensures exhausted == Exhausted(window, old(ScopeOf(scope)), limits, now)
      ensures retryAfter ==
              if !exhausted then 0.0
              else AtLeastASecond(Wait(1.0, BucketOf(old(ScopeOf(scope)).tpm, limits.tpm, window, now).rate))
    {
      hide Level, Wait, Gain, NewBucket;
      if limits.tpm <= 0 {
        return false, 0.0;
      }
      var entry := if scope in scopes then scopes[scope] else NEW_SCOPE;
      var bucket := Refill(BucketOf(entry.tpm, limits.tpm, window, now), now);
      scopes := scopes[scope := entry.(tpm := Some(bucket))];
      if bucket.tokens < 1.0 {
        return true, AtLeastASecond(Wait(1.0, bucket.rate));
      }
      return false, 0.0;
    }
  }

  // ---------------------------------------------------------------------
  // Runs on one scope under fixed limits
  // ---------------------------------------------------------------------

  datatype Op =
    | Check(now: int)
    | Release
    | Charge(amount: int, now: int)
    | Ask(now: int)

  function Step(window: real, limits: Limits, s: Scope, op: Op): Scope {
    match op
    case Check(now) => Checked(window, s, limits, now).0
    case Release => s.(inFlight := if s.inFlight < 1 then 0 else s.inFlight - 1)
    case Charge(amount, now) => Charged(window, s, limits, amount, now)
    case Ask(now) => Asked(window, s, limits, now)
  }

  function Run(window: real, limits: Limits, s: Scope, ops: seq<Op>): Scope {
    if ops == [] then s
    else Step(window, limits, Run(window, limits, s, ops[..|ops| - 1]), ops[|ops| - 1])
  }

  /** The time once the operations have run. */
  function Clock(ops: seq<Op>, start: int): int {
    if ops == [] then start else Tick(ops[|ops| - 1], Clock(ops[..|ops| - 1], start))
  }

  function Tick(op: Op, clock: int): int {
    if op.Release? then clock else op.now
  }

  /** How far an operation moves the clock on. */
  function Move(op: Op, clock: int): nat {
    if Tick(op, clock) < clock then 0 else Tick(op, clock) - clock
  }

  /** All the clock's moves forward, those that make up for a step back included. */
  function Forward(ops: seq<Op>, start: int): nat {
    if ops == [] then 0
    else Forward(ops[..|ops| - 1], start) + Move(ops[|ops| - 1], Clock(ops[..|ops| - 1], start))
  }

  /** Times never go back. */
  predicate Ordered(ops: seq<Op>, start: int) {
    ops == [] ||
    (Ordered(ops[..|ops| - 1], start) && Clock(ops[..|ops| - 1], start) <= Clock(ops, start))
  }

  lemma {:induction false} OrderedMovesForward(ops: seq<Op>, start: int)
    requires Ordered(ops, start)
    ensures Forward(ops, start) == Clock(ops, start) - start
    decreases |ops|
  {
    if ops != [] {
      OrderedMovesForward(ops[..|ops| - 1], start);
    }
  }

  function Admits(window: real, limits: Limits, s: Scope, op: Op): nat {
    if op.Check? && Checked(window, s, limits, op.now).1.Allowed? then 1 else 0
  }

  function Admitted(window: real, limits: Limits, s: Scope, ops: seq<Op>): nat {
    if ops == [] then 0
    else
      Admitted(window, limits, s, ops[..|ops| - 1]) +
      Admits(window, limits, Run(window, limits, s, ops[..|ops| - 1]), ops[|ops| - 1])
  }

  function Spends(op: Op): int {
    if op.Charge? then op.amount else 0
  }

  function Spent(ops: seq<Op>): int {
    if ops == [] then 0 else Spent(ops[..|ops| - 1]) + Spends(ops[|ops| - 1])
  }

  predicate Sound(b: Option<Bucket>, limit: int, window: real) {
    b.Some? ==> limit > 0 && b.value.capacity == limit as real && b.value.rate == Rate(limit as real, window)
  }

  /** What every reachable scope keeps. */
  predicate ScopeSound(window: real, limits: Limits, s: Scope) {
    && Sound(s.rpm, limits.rpm, window) && Sound(s.tpm, limits.tpm, window)
    && (s.rpm.Some? ==> s.rpm.value.tokens >= 0.0)
    && s.inFlight >= 0
    && (limits.maxConcurrent > 0 ==> s.inFlight <= limits.maxConcurrent)
  }

  lemma RateIsPositive(limit: int, window: real)
    requires limit > 0
    ensures Rate(limit as real, window) > 0.0
  {
  }

  lemma LevelIsPositive(b: Bucket, now: int)
    requires b.tokens >= 0.0 && b.capacity >= 0.0 && b.rate >= 0.0
    ensures Level(b, now) >= 0.0
  {
    hide Gain;
    GainIsPositive(b.rate, now - b.last);
  }

  lemma StepIsSound(window: real, limits: Limits, s: Scope, op: Op)
    requires ScopeSound(window, limits, s)
    ensures ScopeSound(window, limits, Step(window, limits, s, op))
  {
    hide Gain, Rate, Level, Wait;
    if op.Check? && limits.rpm > 0 {
      RateIsPositive(limits.rpm, window);
      LevelIsPositive(BucketOf(s.rpm, limits.rpm, window, op.now).(capacity := limits.rpm as real), op.now);
    }
  }

  /** In every run, whatever the clock does. */
  lemma {:induction false} RunIsSound(window: real, limits: Limits, s: Scope, ops: seq<Op>)
    requires ScopeSound(window, limits, s)
    ensures ScopeSound(window, limits, Run(window, limits, s, ops))
    decreases |ops|
  {
    hide ScopeSound, Step;
    if ops != [] {
      var n := |ops| - 1;
      RunIsSound(window, limits, s, ops[..n]);
      StepIsSound(window, limits, Run(window, limits, s, ops[..n]), ops[n]);
    }
  }

  // ---------------------------------------------------------------------
  // Funds
  // ---------------------------------------------------------------------

  /** What a bucket could hold at most when the clock has moved on so far since its last refill. */
  function Funds(b: Option<Bucket>, limit: int, since: nat): real {
    if b.None? || b.value.tokens + Flow(b.value.rate, since) > limit as real then limit as real
    else b.value.tokens + Flow(b.value.rate, since)
  }

  /** The clock is no further on from the bucket's last refill than that. */
  predicate Since(b: Option<Bucket>, clock: int, since: nat) {
    b.Some? ==> clock - b.value.last <= since
  }

  lemma FundsGrow(b: Option<Bucket>, limit: int, window: real, since: nat, move: nat)
    requires Sound(b, limit, window) && limit > 0
    ensures Funds(b, limit, since + move) <= Funds(b, limit, since) + Flow(Rate(limit as real, window), move)
    ensures Funds(b, limit, since) <= limit as real
  {
    hide Flow, Rate;
    RateIsPositive(limit, window);
    FlowIsPositive(Rate(limit as real, window), move);
    FlowAdds(Rate(limit as real, window), since, move);
  }

  /** What a bucket holds it has funds for. */
  lemma HeldIsFunded(b: Option<Bucket>, limit: int, window: real, now: int, since: nat)
    requires Sound(b, limit, window) && limit > 0 && Since(b, now, since)
    ensures Level(BucketOf(b, limit, window, now).(capacity := limit as real), now) <= Funds(b, limit, since)
  {
    hide Flow, Rate, Gain;
    if b.Some? {
      RateIsPositive(limit, window);
      GainBelowFlow(b.value.rate, now - b.value.last, since);
    }
  }

  lemma NoFlowAtOnce(rate: real)
    ensures Flow(rate, 0) == 0.0 && Gain(rate, 0) == 0.0
  {
  }

  /** Just refilled, it has funds for what it holds. */
  lemma RefilledFunds(b: Bucket, limit: int)
    requires b.tokens <= limit as real
    ensures Funds(Some(b), limit, 0) == b.tokens
  {
    hide Flow;
    NoFlowAtOnce(b.rate);
  }

  // ---------------------------------------------------------------------
  // Admission in a window
  // ---------------------------------------------------------------------

  /** Each call let in is paid for with one token. */
  lemma StepPays(window: real, limits: Limits, s: Scope, op: Op, clock: int, since: nat) returns (later: nat)
    requires limits.rpm > 0 && ScopeSound(window, limits, s) && Since(s.rpm, clock, since)
    ensures var s' := Step(window, limits, s, op);
            && Since(s'.rpm, Tick(op, clock), later)
            && Admits(window, limits, s, op) as real + Funds(s'.rpm, limits.rpm, later)
               <= Funds(s.rpm, limits.rpm, since + Move(op, clock))
  {
    hide Funds, Level, Wait, Rate;
    later := since + Move(op, clock);
    if op.Check? && !Checked(window, s, limits, op.now).1.Busy? {
      var b := Refill(BucketOf(s.rpm, limits.rpm, window, op.now).(capacity := limits.rpm as real), op.now);
      HeldIsFunded(s.rpm, limits.rpm, window, op.now, later);
      LevelAtMost(BucketOf(s.rpm, limits.rpm, window, op.now).(capacity := limits.rpm as real), op.now);
      RefilledFunds(b, limits.rpm);
      RefilledFunds(b.(tokens := b.tokens - 1.0), limits.rpm);
      later := 0;
    }
  }

  lemma LevelAtMost(b: Bucket, now: int)
    ensures Level(b, now) <= b.capacity
  {
  }

  /** Calls let in, plus the funds left, never pass the capacity and what the rate brings. */
  lemma {:induction false} AdmissionsAreFunded(window: real, limits: Limits, s: Scope, ops: seq<Op>, start: int)
    returns (since: nat)
    requires limits.rpm > 0 && ScopeSound(window, limits, s)
    ensures var end := Run(window, limits, s, ops);
            && Since(end.rpm, Clock(ops, start), since)
            && Admitted(window, limits, s, ops) as real + Funds(end.rpm, limits.rpm, since)
               <= limits.rpm as real + Flow(Rate(limits.rpm as real, window), Forward(ops, start))
    decreases |ops|
  {
    hide Flow, Rate, Step, Funds, ScopeSound, Admits, Tick, Move;
    var rate := Rate(limits.rpm as real, window);
    SoundParts(window, limits, s);
    if ops == [] {
      since := if s.rpm.Some? && start > s.rpm.value.last then start - s.rpm.value.last else 0;
      FundsGrow(s.rpm, limits.rpm, window, since, 0);
      NoFlowAtOnce(rate);
    } else {
      var n := |ops| - 1;
      var before := AdmissionsAreFunded(window, limits, s, ops[..n], start);
      var mid, clock := Run(window, limits, s, ops[..n]), Clock(ops[..n], start);
      RunIsSound(window, limits, s, ops[..n]);
      SoundParts(window, limits, mid);
      since := StepPays(window, limits, mid, ops[n], clock, before);
      FundsGrow(mid.rpm, limits.rpm, window, before, Move(ops[n], clock));
      FlowAdds(rate, Forward(ops[..n], start), Move(ops[n], clock));
    }
  }

  lemma SoundParts(window: real, limits: Limits, s: Scope)
    requires ScopeSound(window, limits, s)
    ensures Sound(s.rpm, limits.rpm, window) && Sound(s.tpm, limits.tpm, window)
  {
  }

  lemma FundsArePositive(window: real, limits: Limits, s: Scope, since: nat)
    requires limits.rpm > 0 && ScopeSound(window, limits, s)
    ensures Funds(s.rpm, limits.rpm, since) >= 0.0
  {
    hide Flow, Rate;
    RateIsPositive(limits.rpm, window);
    if s.rpm.Some? {
      FlowIsPositive(s.rpm.value.rate, since);
    }
  }

  /**
   In every run and for every clock, the calls let in during a stretch number at most the limit
   plus what the rate brings in all the clock's moves forward.
   */
  lemma AdmissionBound(window: real, limits: Limits, before: seq<Op>, during: seq<Op>, start: int)
    requires limits.rpm > 0
    ensures Admitted(window, limits, Run(window, limits, NEW_SCOPE, before), during) as real
            <= limits.rpm as real + Flow(Rate(limits.rpm as real, window), Forward(during, start))
  {
    hide Flow, Rate, Step, Funds, Admits, Admitted;
    var s := Run(window, limits, NEW_SCOPE, before);
    RunIsSound(window, limits, NEW_SCOPE, before);
    var since := AdmissionsAreFunded(window, limits, s, during, start);
    RunIsSound(window, limits, s, during);
    FundsArePositive(window, limits, Run(window, limits, s, during), since);
  }

  /** For a clock that never goes back those moves are the window's own length. */
  lemma AdmissionInWindow(window: real, limits: Limits, before: seq<Op>, during: seq<Op>, start: int, end: int)
    requires limits.rpm > 0
    requires Ordered(during, start) && Clock(during, start) <= end
    ensures Forward(during, start) <= end - start
    ensures Admitted(window, limits, Run(window, limits, NEW_SCOPE, before), during) as real
            <= limits.rpm as real + Flow(Rate(limits.rpm as real, window), end - start)
  {
    hide Flow, Rate, Run, Admitted, Ordered;
    OrderedMovesForward(during, start);
    AdmissionBound(window, limits, before, during, start);
    RateIsPositive(limits.rpm, window);
    FlowGrows(Rate(limits.rpm as real, window), Forward(during, start), end - start);
  }

  const SECOND := 1_000_000_000

  /** A clock that steps back pays the same second twice: three calls in a window of one
      second, where one a second and one to start with make two. */
  lemma ClockStepBackOverAdmits()
    ensures var limits, ops := Limits(1, 0, 0), [Check(0), Check(SECOND), Check(0), Check(SECOND)];
            && Admitted(1.0, limits, NEW_SCOPE, ops) == 3
            && limits.rpm as real + Flow(Rate(1.0, 1.0), SECOND) == 2.0
            && Forward(ops, 0) == 2 * SECOND
  {
    var limits := Limits(1, 0, 0);
    var a, b := [Check(0)], [Check(0), Check(SECOND)];
    var c, d := [Check(0), Check(SECOND), Check(0)], [Check(0), Check(SECOND), Check(0), Check(SECOND)];
    assert d[..3] == c && c[..2] == b && b[..1] == a && a[..0] == [];
    BackStepRun(limits);
    assert Admitted(1.0, limits, NEW_SCOPE, a) == 1;
    assert Admitted(1.0, limits, NEW_SCOPE, b) == 2;
    assert Admitted(1.0, limits, NEW_SCOPE, c) == 2;
    assert Forward(a, 0) == 0 && Forward(b, 0) == SECOND && Forward(c, 0) == SECOND;
  }

  /** The states of that run, check by check. */
  lemma BackStepRun(limits: Limits)
    requires limits == Limits(1, 0, 0)
    ensures var empty := (t: int, n: int) => Scope(Some(Bucket(0.0, 1.0, 1.0, t)), None, n);
            && Run(1.0, limits, NEW_SCOPE, []) == NEW_SCOPE
            && Checked(1.0, NEW_SCOPE, limits, 0) == (empty(0, 1), Allowed)
            && Run(1.0, limits, NEW_SCOPE, [Check(0)]) == empty(0, 1)
            && Checked(1.0, empty(0, 1), limits, SECOND) == (empty(SECOND, 2), Allowed)
            && Run(1.0, limits, NEW_SCOPE, [Check(0), Check(SECOND)]) == empty(SECOND, 2)
            && Checked(1.0, empty(SECOND, 2), limits, 0).0 == empty(0, 2)
            && Checked(1.0, empty(SECOND, 2), limits, 0).1.TooMany?
            && Run(1.0, limits, NEW_SCOPE, [Check(0), Check(SECOND), Check(0)]) == empty(0, 2)
            && Checked(1.0, empty(0, 2), limits, SECOND).1 == Allowed
  {
    var a, b := [Check(0)], [Check(0), Check(SECOND)];
    var c := [Check(0), Check(SECOND), Check(0)];
    assert c[..2] == b && b[..1] == a && a[..0] == [];
    assert Rate(1.0, 1.0) == 1.0;
    assert Gain(1.0, SECOND) == 1.0 && Gain(1.0, 0) == 0.0 && Gain(1.0, -SECOND) == 0.0;
  }

  // ---------------------------------------------------------------------
  // Coming back after a refusal
  // ---------------------------------------------------------------------

  /** What a scope's bucket holds at a time, a missing one being full. */
  function Held(b: Option<Bucket>, limit: int, now: int): real {
    if b.Some? then Level(b.value, now) else limit as real
  }

  /** With a slot free, a call is refused exactly when less than one token is held. */
  lemma RefusedIff(window: real, limits: Limits, s: Scope, now: int)
    requires limits.rpm > 0 && ScopeSound(window, limits, s)
    requires limits.maxConcurrent > 0 ==> s.inFlight < limits.maxConcurrent
    ensures Checked(window, s, limits, now).1.TooMany? <==> Held(s.rpm, limits.rpm, now) < 1.0
  {
    hide Gain, Rate, Wait;
    NoFlowAtOnce(Rate(limits.rpm as real, window));
  }

  /** What a refusal says and leaves behind. */
  lemma RefusedHolds(window: real, limits: Limits, s: Scope, now: int)
    requires limits.rpm > 0 && ScopeSound(window, limits, s)
    requires Checked(window, s, limits, now).1.TooMany?
    ensures var (s1, d) := Checked(window, s, limits, now);
            && s1.rpm.Some? && s1.rpm.value == Bucket(Held(s.rpm, limits.rpm, now), limits.rpm as real,
                                                      Rate(limits.rpm as real, window), now)
            && s1.rpm.value.tokens < 1.0
            && d.retryAfter == Wait(1.0 - s1.rpm.value.tokens, s1.rpm.value.rate)
            && ScopeSound(window, limits, s1)
  {
    hide Gain, Rate, Wait;
    StepIsSound(window, limits, s, Check(now));
    NoFlowAtOnce(Rate(limits.rpm as real, window));
  }

  /** The times at which calls were refused for their rate, each of which refills the bucket. */
  function Refusals(window: real, limits: Limits, s: Scope, ops: seq<Op>): seq<int> {
    if ops == [] then []
    else
      var n := |ops| - 1;
      Refusals(window, limits, s, ops[..n]) +
      if Refuses(window, limits, Run(window, limits, s, ops[..n]), ops[n]) then [ops[n].now] else []
  }

  predicate Refuses(window: real, limits: Limits, s: Scope, op: Op) {
    op.Check? && Checked(window, s, limits, op.now).1.TooMany?
  }

  /** The whole milliseconds of each span between refills, added up. */
  function Credit(from: int, times: seq<int>, to: int): nat {
    if times == [] then WholeMs(to - from)
    else Credit(from, times[..|times| - 1], times[|times| - 1]) + WholeMs(to - times[|times| - 1])
  }

  function LastTime(from: int, times: seq<int>): int {
    if times == [] then from else times[|times| - 1]
  }

  /** What refused calls leave of a bucket: what it held, and a gain for each span between them. */
  ghost predicate Polled(b: Bucket, first: Bucket, times: seq<int>) {
    && b.capacity == first.capacity && b.rate == first.rate && b.last == LastTime(first.last, times)
    && b.tokens == first.tokens + (if times == [] then 0 else Credit(first.last, times[..|times| - 1], b.last)) as real / 1000.0 * b.rate
  }

  lemma PolledHolds(b: Bucket, first: Bucket, times: seq<int>, now: int)
    requires Polled(b, first, times)
    ensures b.tokens + Gain(b.rate, now - b.last) == first.tokens + Credit(first.last, times, now) as real / 1000.0 * first.rate
  {
    if times != [] {
      var x, y := Credit(first.last, times[..|times| - 1], b.last), WholeMs(now - b.last);
      assert (x + y) as real / 1000.0 * b.rate == x as real / 1000.0 * b.rate + y as real / 1000.0 * b.rate;
    }
  }

  /** One more refused call. */
  lemma PolledOnce(b: Bucket, first: Bucket, times: seq<int>, now: int)
    requires Polled(b, first, times) && Level(b, now) < b.capacity
    ensures Polled(Refill(b, now), first, times + [now])
  {
    hide Gain, Credit;
    PolledHolds(b, first, times, now);
    assert (times + [now])[..|times|] == times;
  }

  /** Operations that let nobody in leave the bucket as the refusals among them left it. */
  lemma {:induction false} IdleKeepsPolled(window: real, limits: Limits, s: Scope, ops: seq<Op>)
    requires limits.rpm > 0 && ScopeSound(window, limits, s) && s.rpm.Some?
    requires Admitted(window, limits, s, ops) == 0
    ensures Run(window, limits, s, ops).rpm.Some?
    ensures Polled(Run(window, limits, s, ops).rpm.value, s.rpm.value, Refusals(window, limits, s, ops))
    decreases |ops|
  {
    hide Polled, Step, ScopeSound, Admits, Refuses;
    if ops == [] {
      NotPolled(s.rpm.value);
    } else {
      var n := |ops| - 1;
      IdleKeepsPolled(window, limits, s, ops[..n]);
      RunIsSound(window, limits, s, ops[..n]);
      IdleStep(window, limits, Run(window, limits, s, ops[..n]), ops[n], s.rpm.value, Refusals(window, limits, s, ops[..n]));
    }
  }

  lemma NotPolled(b: Bucket)
    ensures Polled(b, b, [])
  {
  }

  lemma IdleStep(window: real, limits: Limits, s: Scope, op: Op, first: Bucket, times: seq<int>)
    requires limits.rpm > 0 && ScopeSound(window, limits, s) && s.rpm.Some? && Polled(s.rpm.value, first, times)
    requires Admits(window, limits, s, op) == 0
    ensures var s' := Step(window, limits, s, op);
            && s'.rpm.Some?
            && Polled(s'.rpm.value, first, times + if Refuses(window, limits, s, op) then [op.now] else [])
  {
    hide Gain, Rate, Wait, Polled, Level;
    assert times + [] == times;
    if Refuses(window, limits, s, op) {
      RefusedBelow(window, limits, s, op.now);
      PolledOnce(s.rpm.value, first, times, op.now);
    }
  }

  lemma RefusedBelow(window: real, limits: Limits, s: Scope, now: int)
    requires limits.rpm > 0 && ScopeSound(window, limits, s) && s.rpm.Some?
    requires Checked(window, s, limits, now).1.TooMany?
    ensures Level(s.rpm.value, now) < s.rpm.value.capacity
    ensures Checked(window, s, limits, now).0.rpm == Some(Refill(s.rpm.value, now))
  {
    hide Gain, Rate, Wait;
  }

  lemma GainReaches(rate: real, ms: nat, amount: real)
    requires rate > 0.0
    ensures ms as real / 1000.0 * rate >= amount <==> ms as real / 1000.0 >= amount / rate
  {
    var secs := ms as real / 1000.0;
    var need := amount / rate;
    assert need * rate == amount;
    if secs >= need {
      assert (secs - need) * rate >= 0.0;
    } else {
      assert (need - secs) * rate > 0.0;
    }
  }

  lemma WaitIsExact(amount: real, rate: real)
    requires amount > 0.0 && rate > 0.0
    ensures Wait(amount, rate) == amount / rate <==> rate >= 0.000000001
  {
    if rate < 0.000000001 {
      var w, e := amount / 0.000000001, amount / rate;
      assert w * 0.000000001 == amount == e * rate;
      assert e > 0.0;
      assert e * rate < e * 0.000000001;
    }
  }

  /**
   A refused caller that comes back with nobody let in since is refused for its rate again if
   and only if the whole milliseconds between the refusals since then, its own included, add
   up to less than the time the bucket needed for one token; and the wait it was told is
   that time if and only if the rate is at least 1e-9 a second.
   */
  lemma RetryAfterIsExact(window: real, limits: Limits, s: Scope, now: int, since: seq<Op>, later: int)
    requires limits.rpm > 0 && ScopeSound(window, limits, s)
    requires Checked(window, s, limits, now).1.TooMany?
    requires Admitted(window, limits, Checked(window, s, limits, now).0, since) == 0
    requires var f := Run(window, limits, Checked(window, s, limits, now).0, since).inFlight;
             limits.maxConcurrent > 0 ==> f < limits.maxConcurrent
    ensures var s1 := Checked(window, s, limits, now).0;
            var back := Run(window, limits, s1, since);
            var rate := Rate(limits.rpm as real, window);
            rate > 0.0 &&
            var refilled := (1.0 - Held(s.rpm, limits.rpm, now)) / rate;
            var credit := Credit(now, Refusals(window, limits, s1, since), later);
            && (Checked(window, back, limits, later).1.TooMany? <==> credit as real / 1000.0 < refilled)
            && (Checked(window, s, limits, now).1.retryAfter == refilled <==> rate >= 0.000000001)
  {
    hide Gain, Rate, Admitted, Run, Checked, Held, Wait, ScopeSound, Refusals, Credit, Polled;
    var rate := Rate(limits.rpm as real, window);
    RateIsPositive(limits.rpm, window);
    RefusedHolds(window, limits, s, now);
    var s1 := Checked(window, s, limits, now).0;
    var need := 1.0 - s1.rpm.value.tokens;
    IdleKeepsPolled(window, limits, s1, since);
    RunIsSound(window, limits, s1, since);
    var back := Run(window, limits, s1, since);
    var times := Refusals(window, limits, s1, since);
    RefusedIff(window, limits, back, later);
    PolledParts(back.rpm.value, s1.rpm.value, times);
    HeldBelowOne(back.rpm, limits.rpm, later);
    PolledHolds(back.rpm.value, s1.rpm.value, times, later);
    GainReaches(rate, Credit(now, times, later), need);
    WaitIsExact(need, rate);
  }

  /** A caller not refused again for its rate is let in: the slot it would have had is still free. */
  lemma LetInOrRefused(window: real, limits: Limits, s: Scope, now: int, later: int)
    requires limits.rpm > 0 && Checked(window, s, limits, now).1.TooMany?
    ensures var (s1, d) := (Checked(window, s, limits, now).0, Checked(window, Checked(window, s, limits, now).0, limits, later).1);
            && (limits.maxConcurrent > 0 ==> s1.inFlight < limits.maxConcurrent)
            && (d.Allowed? <==> !d.TooMany?)
  {
    hide Level, Wait, Rate, Gain;
  }

  lemma NoneBetween(window: real, limits: Limits, s: Scope, now: int, later: int)
    ensures Run(window, limits, s, []) == s && Admitted(window, limits, s, []) == 0
    ensures Credit(now, Refusals(window, limits, s, []), later) == WholeMs(later - now)
  {
  }

  /**
   A refused caller that is the next to come back is let in if and only if the whole
   milliseconds since are the wait it was told or more, at a rate of at least 1e-9 a second. So
   a millisecond more than the wait is always enough.
   */
  lemma BackAfterTheWait(window: real, limits: Limits, s: Scope, now: int, later: int)
    requires limits.rpm > 0 && ScopeSound(window, limits, s)
    requires Rate(limits.rpm as real, window) >= 0.000000001
    requires Checked(window, s, limits, now).1.TooMany?
    ensures var (s1, d) := Checked(window, s, limits, now);
            var back := Checked(window, s1, limits, later).1;
            && (back.Allowed? <==> WholeMs(later - now) as real / 1000.0 >= d.retryAfter)
            && ((later - now) as real / 1000000000.0 >= d.retryAfter + 0.001 ==> back.Allowed?)
  {
    hide Checked, Rate, ScopeSound, Run, Admitted, Refusals, Credit, Held;
    var s1 := Checked(window, s, limits, now).0;
    LetInOrRefused(window, limits, s, now, later);
    NoneBetween(window, limits, s1, now, later);
    RetryAfterIsExact(window, limits, s, now, [], later);
    WaitIsPositive(window, limits, s, now);
    AlmostWhole(later - now, Checked(window, s, limits, now).1.retryAfter);
  }

  lemma WaitIsPositive(window: real, limits: Limits, s: Scope, now: int)
    requires limits.rpm > 0 && ScopeSound(window, limits, s) && Checked(window, s, limits, now).1.TooMany?
    ensures Checked(window, s, limits, now).1.retryAfter >= 0.0
  {
    hide Checked, Rate, ScopeSound;
    RefusedHolds(window, limits, s, now);
    QuotientIsPositive(1.0 - Checked(window, s, limits, now).0.rpm.value.tokens, Checked(window, s, limits, now).0.rpm.value.rate);
  }

  lemma QuotientIsPositive(amount: real, rate: real)
    requires amount >= 0.0
    ensures Wait(amount, rate) >= 0.0
  {
  }

  lemma AlmostWhole(ns: int, secs: real)
    requires secs >= 0.0
    ensures ns as real / 1000000000.0 >= secs + 0.001 ==> WholeMs(ns) as real / 1000.0 >= secs
  {
    if ns as real / 1000000000.0 >= secs + 0.001 {
      assert ns >= 0;
      var ms := WholeMs(ns);
      assert ns < (ms + 1) * MS;
      assert ((ms + 1) * MS) as real == (ms + 1) as real * 1000000.0;
    }
  }

  /** At seven calls a minute, a caller told to wait 60/7 seconds comes back after them and is
      refused again: only 8571 whole milliseconds have been credited. */
  lemma ACallerBackTooSoon()
    ensures var window, limits := 60.0, Limits(7, 0, 0);
            var s := Scope(Some(Bucket(0.0, 7.0, Rate(7.0, window), 0)), None, 0);
            var later := 8571428572;
            && ScopeSound(window, limits, s) && Rate(7.0, window) >= 0.000000001
            && Checked(window, s, limits, 0).1 == TooMany(60.0 / 7.0)
            && later as real / 1000000000.0 >= 60.0 / 7.0
            && Checked(window, Checked(window, s, limits, 0).0, limits, later).1.TooMany?
  {
    var window, limits := 60.0, Limits(7, 0, 0);
    var rate := Rate(7.0, window);
    assert rate == 7.0 / 60.0;
    assert Gain(rate, 0) == 0.0;
    assert WholeMs(8571428572) == 8571;
    assert Gain(rate, 8571428572) == 8571.0 / 1000.0 * (7.0 / 60.0);
  }

  lemma PolledParts(b: Bucket, first: Bucket, times: seq<int>)
    requires Polled(b, first, times)
    ensures b.capacity == first.capacity && b.rate == first.rate
  {
  }

  lemma HeldBelowOne(b: Option<Bucket>, limit: int, now: int)
    requires b.Some? && b.value.capacity >= 1.0
    ensures Held(b, limit, now) < 1.0 <==> b.value.tokens + Gain(b.value.rate, now - b.value.last) < 1.0
  {
  }

  // ---------------------------------------------------------------------
  // What refusals on the way cost
  // ---------------------------------------------------------------------

  /** The odd parts of the spans, which no refill credits. */
  function Odd(from: int, times: seq<int>, to: int): int {
    if times == [] then (to - from) % MS
    else Odd(from, times[..|times| - 1], times[|times| - 1]) + (to - times[|times| - 1]) % MS
  }

  predicate InTime(from: int, times: seq<int>, to: int) {
    if times == [] then from <= to
    else InTime(from, times[..|times| - 1], times[|times| - 1]) && times[|times| - 1] <= to
  }

  /** All the time is either credited or odd, so refusals on the way cost nothing if and only
      if the odd parts together make up less than a millisecond. */
  lemma {:induction false} RefusalsCostNothingIff(from: int, times: seq<int>, to: int)
    requires InTime(from, times, to)
    ensures to - from == Credit(from, times, to) * MS + Odd(from, times, to) && Odd(from, times, to) >= 0
    ensures from <= to && (Credit(from, times, to) == WholeMs(to - from) <==> Odd(from, times, to) < MS)
    decreases |times|
  {
    if times != [] {
      var last := times[|times| - 1];
      RefusalsCostNothingIff(from, times[..|times| - 1], last);
    }
    WholeAndOdd(to - from, Credit(from, times, to), Odd(from, times, to));
  }

  lemma WholeAndOdd(span: int, ms: nat, odd: int)
    requires span == ms * MS + odd && odd >= 0
    ensures ms == WholeMs(span) <==> odd < MS
  {
  }

  /** Calls 0.9 milliseconds apart, after one that took the only token. */
  function Impatient(n: nat): seq<Op> {
    if n == 0 then [Check(0)] else Impatient(n - 1) + [Check(n * 900_000)]
  }

  /** The bucket with nothing in it, last refilled then, and one call in flight. */
  function Dry(last: int): Scope {
    Scope(Some(Bucket(0.0, 1.0, 1.0, last)), None, 1)
  }

  lemma DryStaysDry(last: int)
    ensures Checked(1.0, Dry(last), Limits(1, 0, 0), last + 900_000).0 == Dry(last + 900_000)
    ensures Checked(1.0, Dry(last), Limits(1, 0, 0), last + 900_000).1.TooMany?
  {
    assert Gain(1.0, 900_000) == 0.0;
  }

  lemma FirstCallIsLetIn()
    ensures Checked(1.0, NEW_SCOPE, Limits(1, 0, 0), 0) == (Dry(0), Allowed)
  {
    assert Rate(1.0, 1.0) == 1.0;
    assert Gain(1.0, 0) == 0.0;
  }

  /** They are refused for ever: a key polled that often never refills. */
  lemma {:induction false} ImpatientStarves(n: nat)
    ensures Run(1.0, Limits(1, 0, 0), NEW_SCOPE, Impatient(n)) == Dry(n * 900_000)
    ensures Admitted(1.0, Limits(1, 0, 0), NEW_SCOPE, Impatient(n)) == 1
  {
    hide Checked, Dry;
    if n == 0 {
      assert [Check(0)][..0] == [];
      FirstCallIsLetIn();
    } else {
      ImpatientStarves(n - 1);
      var before := Impatient(n - 1);
      assert Impatient(n)[..|before|] == before;
      DryStaysDry((n - 1) * 900_000);
    }
  }

  /** At one call in two thousand million seconds, a caller told to wait half of that comes
      back then and is refused again. */
  lemma ATooShortWait()
    ensures var window, limits := 2000000000.0, Limits(1, 0, 0);
            var s := Scope(Some(Bucket(0.0, 1.0, Rate(1.0, window), 0)), None, 0);
            && ScopeSound(window, limits, s)
            && Checked(window, s, limits, 0).1 == TooMany(1000000000.0)
            && Checked(window, Checked(window, s, limits, 0).0, limits, 1000000000 * SECOND).1.TooMany?
  {
    var window, limits := 2000000000.0, Limits(1, 0, 0);
    var rate := Rate(1.0, window);
    assert rate == 0.0000000005;
    assert Gain(rate, 0) == 0.0;
    assert WholeMs(1000000000 * SECOND) == 1000000000000;
    assert Gain(rate, 1000000000 * SECOND) == 0.5;
  }

  // ---------------------------------------------------------------------
  // Tokens charged in arrears
  // ---------------------------------------------------------------------

  /** Each charge is paid in full, into debt if need be. */
  lemma StepCharges(window: real, limits: Limits, s: Scope, op: Op, clock: int, since: nat) returns (later: nat)
    requires limits.tpm > 0 && ScopeSound(window, limits, s) && Since(s.tpm, clock, since)
    ensures var s' := Step(window, limits, s, op);
            && Since(s'.tpm, Tick(op, clock), later)
            && Spends(op) as real + Funds(s'.tpm, limits.tpm, later) <= Funds(s.tpm, limits.tpm, since + Move(op, clock))
  {
    hide Funds, Level, Wait, Rate;
    later := since + Move(op, clock);
    if op.Charge? || op.Ask? {
      var b := BucketOf(s.tpm, limits.tpm, window, op.now).(capacity := limits.tpm as real);
      HeldIsFunded(s.tpm, limits.tpm, window, op.now, later);
      LevelAtMost(b, op.now);
      RefilledAtMost(Refill(b, op.now).(tokens := Level(b, op.now) - Spends(op) as real), limits.tpm);
      later := 0;
    }
  }

  lemma RefilledAtMost(b: Bucket, limit: int)
    ensures Funds(Some(b), limit, 0) <= b.tokens
  {
    hide Flow;
    NoFlowAtOnce(b.rate);
  }

  /** Tokens charged, plus the funds left (a debt counting below zero), stay within the same funds. */
  lemma {:induction false} ChargesAreFunded(window: real, limits: Limits, s: Scope, ops: seq<Op>, start: int)
    returns (since: nat)
    requires limits.tpm > 0 && ScopeSound(window, limits, s)
    ensures var end := Run(window, limits, s, ops);
            && Since(end.tpm, Clock(ops, start), since)
            && Spent(ops) as real + Funds(end.tpm, limits.tpm, since)
               <= limits.tpm as real + Flow(Rate(limits.tpm as real, window), Forward(ops, start))
    decreases |ops|
  {
    hide Flow, Rate, Step, Funds, ScopeSound, Spends, Tick, Move;
    var rate := Rate(limits.tpm as real, window);
    SoundParts(window, limits, s);
    if ops == [] {
      since := if s.tpm.Some? && start > s.tpm.value.last then start - s.tpm.value.last else 0;
      FundsGrow(s.tpm, limits.tpm, window, since, 0);
      NoFlowAtOnce(rate);
    } else {
      var n := |ops| - 1;
      var before := ChargesAreFunded(window, limits, s, ops[..n], start);
      var mid, clock := Run(window, limits, s, ops[..n]), Clock(ops[..n], start);
      RunIsSound(window, limits, s, ops[..n]);
      SoundParts(window, limits, mid);
      since := StepCharges(window, limits, mid, ops[n], clock, before);
      FundsGrow(mid.tpm, limits.tpm, window, before, Move(ops[n], clock));
      FlowAdds(rate, Forward(ops[..n], start), Move(ops[n], clock));
    }
  }

  /**
   Whenever a request is let through on tokens, what was charged in any stretch up to then is
   at most one token short of the limit plus what the rate brings in the clock's moves
   forward: every debt, however large the charges that made it, has been refilled first.
   */
  lemma TokenBound(window: real, limits: Limits, before: seq<Op>, during: seq<Op>, start: int, now: int)
    requires limits.tpm > 0
    requires !Exhausted(window, Run(window, limits, Run(window, limits, NEW_SCOPE, before), during), limits, now)
    ensures Spent(during) as real
            <= limits.tpm as real - 1.0 + Flow(Rate(limits.tpm as real, window), Forward(during + [Ask(now)], start))
  {
    hide Flow, Rate, Step, Spent, Level, Funds;
    var s := Run(window, limits, NEW_SCOPE, before);
    var rate := Rate(limits.tpm as real, window);
    RunIsSound(window, limits, NEW_SCOPE, before);
    var since := ChargesAreFunded(window, limits, s, during, start);
    RunIsSound(window, limits, s, during);
    var end, clock := Run(window, limits, s, during), Clock(during, start);
    var move := Move(Ask(now), clock);
    HeldIsFunded(end.tpm, limits.tpm, window, now, since + move);
    FundsGrow(end.tpm, limits.tpm, window, since, move);
    FlowAdds(rate, Forward(during, start), move);
    assert (during + [Ask(now)])[..|during|] == during;
    SameCapacity(window, limits, end, now);
  }

  lemma SameCapacity(window: real, limits: Limits, s: Scope, now: int)
    requires limits.tpm > 0 && ScopeSound(window, limits, s)
    ensures BucketOf(s.tpm, limits.tpm, window, now).(capacity := limits.tpm as real) ==
            BucketOf(s.tpm, limits.tpm, window, now)
  {
    hide Rate;
  }

  /** For a clock that never goes back, those moves are the window's own length. */
  lemma TokensInWindow(window: real, limits: Limits, before: seq<Op>, during: seq<Op>, start: int, now: int)
    requires limits.tpm > 0
    requires Ordered(during, start) && Clock(during, start) <= now
    requires !Exhausted(window, Run(window, limits, Run(window, limits, NEW_SCOPE, before), during), limits, now)
    ensures start <= now
    ensures Spent(during) as real <= limits.tpm as real - 1.0 + Flow(Rate(limits.tpm as real, window), now - start)
  {
    hide Flow, Rate, Run, Spent, Exhausted;
    var all := during + [Ask(now)];
    assert all[..|during|] == during;
    OrderedMovesForward(during, start);
    OrderedMovesForward(all, start);
    TokenBound(window, limits, before, during, start, now);
  }
}
