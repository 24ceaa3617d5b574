/**
 What a check, a charge and a look at the tokens do (yb-core/src/ratelimit.rs), said in
 the numbers a bucket holds.
 */
module LimitNumbers {
  import opened Prelude
  import opened RateLimit

  /** The whole milliseconds since, and none when the clock went back. */
  ghost predicate IsSince(last: int, now: int, ms: nat) {
    if now < last then ms == 0 else ms * 1_000_000 <= now - last < (ms + 1) * 1_000_000
  }

  lemma SinceIs(last: int, now: int, ms: nat)
    requires IsSince(last, now, ms)
    ensures WholeMs(now - last) == ms
  {
  }

  /** What is there now: the tokens, and the rate for each whole millisecond since, up to the
      capacity; a bucket not there yet is full. */
  ghost predicate Holds(b: Option<Bucket>, capacity: real, now: int, held: real) {
    match b
    case None => held == capacity
    case Some(b) => exists ms: nat ::
      && IsSince(b.last, now, ms)
      && held == if b.tokens + ms as real * b.rate / 1000.0 < capacity then b.tokens + ms as real * b.rate / 1000.0 else capacity
  }

  lemma Commutes(ms: real, rate: real)
    ensures ms / 1000.0 * rate == ms * rate / 1000.0
  {
  }

  lemma LevelIs(b: Bucket, now: int, held: real)
    requires Holds(Some(b), b.capacity, now, held)
    ensures Level(b, now) == held
  {
    var ms: nat :| IsSince(b.last, now, ms) &&
      held == if b.tokens + ms as real * b.rate / 1000.0 < b.capacity then b.tokens + ms as real * b.rate / 1000.0 else b.capacity;
    SinceIs(b.last, now, ms);
    Commutes(ms as real, b.rate);
  }

  /** The bucket in use, after a limit that may have changed. */
  lemma InUse(b: Option<Bucket>, limit: int, window: real, now: int, held: real)
    requires Holds(b, limit as real, now, held)
    ensures Level(BucketOf(b, limit, window, now).(capacity := limit as real), now) == held
  {
    hide Rate;
    if b.Some? {
      LevelIs(b.value.(capacity := limit as real), now, held);
    } else {
      NoFlowAtOnce(Rate(limit as real, window));
    }
  }

  /** The rate that fills an empty bucket in a window, windows below a millisecond counting as one. */
  lemma RateFills(capacity: real, window: real)
    ensures window >= 0.001 ==> Rate(capacity, window) * window == capacity
    ensures window < 0.001 ==> Rate(capacity, window) == capacity * 1000.0
  {
  }

  /** A call waits for a slot first; then it is let in if and only if a token is there, which it
      takes, and otherwise told how long one takes to come. */
  lemma CheckDoes(window: real, s: Scope, limits: Limits, now: int, held: real)
    requires limits.rpm > 0 ==> Holds(s.rpm, limits.rpm as real, now, held)
    ensures var (t, d) := Checked(window, s, limits, now);
            var busy := limits.maxConcurrent > 0 && s.inFlight >= limits.maxConcurrent;
            && (d == Busy <==> busy)
            && (d == Allowed <==> !busy && (limits.rpm <= 0 || held >= 1.0))
            && (d.TooMany? <==> !busy && limits.rpm > 0 && held < 1.0)
            && t.tpm == s.tpm
            && t.inFlight == s.inFlight + (if d == Allowed && (limits.rpm, limits.tpm, limits.maxConcurrent) != (0, 0, 0) then 1 else 0)
            && (d == Busy || limits.rpm <= 0 ==> t.rpm == s.rpm)
            && (d != Busy && limits.rpm > 0 ==>
                  && t.rpm.Some? && t.rpm.value.last == now && t.rpm.value.capacity == limits.rpm as real
                  && t.rpm.value.tokens == held - (if d == Allowed then 1.0 else 0.0)
                  && t.rpm.value.rate == if s.rpm.Some? then s.rpm.value.rate else Rate(limits.rpm as real, window))
            && (d.TooMany? ==>
                  d.retryAfter == (1.0 - held) / if t.rpm.value.rate < 0.000000001 then 0.000000001 else t.rpm.value.rate)
  {
    hide Rate, Level;
    if limits.rpm > 0 {
      InUse(s.rpm, limits.rpm, window, now, held);
    }
  }

  /** A charge takes just what was used, into debt if need be. */
  lemma ChargeDoes(window: real, s: Scope, limits: Limits, used: int, now: int, held: real)
    requires limits.tpm > 0 ==> Holds(s.tpm, limits.tpm as real, now, held)
    ensures var t := Charged(window, s, limits, used, now);
            && t.rpm == s.rpm && t.inFlight == s.inFlight
            && (limits.tpm <= 0 ==> t.tpm == s.tpm)
            && (limits.tpm > 0 ==>
                  && t.tpm.Some? && t.tpm.value.tokens == held - used as real
                  && t.tpm.value.last == now && t.tpm.value.capacity == limits.tpm as real)
  {
    hide Rate, Level;
    if limits.tpm > 0 {
      InUse(s.tpm, limits.tpm, window, now, held);
    }
  }

  /** A look finds the tokens exhausted if and only if less than one is there, under the capacity
      the bucket has. */
  lemma ExhaustedIff(window: real, s: Scope, limits: Limits, now: int, held: real)
    requires limits.tpm > 0 ==> Holds(s.tpm, if s.tpm.Some? then s.tpm.value.capacity else limits.tpm as real, now, held)
    ensures Exhausted(window, s, limits, now) <==> limits.tpm > 0 && held < 1.0
    ensures limits.tpm > 0 ==>
              var t := Asked(window, s, limits, now);
              && t.rpm == s.rpm && t.inFlight == s.inFlight
              && t.tpm.Some? && t.tpm.value.tokens == held && t.tpm.value.last == now
  {
    hide Rate, Level;
    if limits.tpm > 0 {
      if s.tpm.Some? {
        LevelIs(s.tpm.value, now, held);
      } else {
        InUse(s.tpm, limits.tpm, window, now, held);
      }
    }
  }

  /** And asks for the time one takes to come, but never for less than a second. */
  lemma TokenWait(rate: real)
    ensures var wait := AtLeastASecond(Wait(1.0, rate));
            && (rate >= 1.0 ==> wait == 1.0)
            && (0.000000001 <= rate < 1.0 ==> wait > 1.0 && wait * rate == 1.0)
            && (rate < 0.000000001 ==> wait == 1000000000.0)
  {
    if 0.000000001 <= rate < 1.0 {
      var wait := 1.0 / rate;
      assert wait * rate == 1.0;
      assert wait <= 1.0 ==> wait * rate <= rate;
    } else if rate >= 1.0 {
      assert 1.0 / rate <= 1.0;
    }
  }

  /** In every run: calls in flight never below none nor above their limit, and a dropped guard
      gives back one; and request tokens never below none. */
  lemma RunHolds(window: real, limits: Limits, ops: seq<Op>)
    ensures var s := Run(window, limits, NEW_SCOPE, ops);
            && 0 <= s.inFlight && (limits.maxConcurrent > 0 ==> s.inFlight <= limits.maxConcurrent)
            && (s.rpm.Some? ==> 0.0 <= s.rpm.value.tokens)
            && Step(window, limits, s, Release) == s.(inFlight := if s.inFlight == 0 then 0 else s.inFlight - 1)
  {
    hide Rate;
    RunIsSound(window, limits, NEW_SCOPE, ops);
  }

  function Checks(n: nat, now: int): (ops: seq<Op>)
    ensures |ops| == n
  {
    seq(n, _ => Check(now))
  }

  /** From nothing, just as many calls are let in at once as the limit says, and the next is not. */
  lemma {:induction false} Burst(window: real, limits: Limits, now: int, n: nat)
    requires 0 < limits.rpm && limits.maxConcurrent == 0 && n <= limits.rpm
    ensures Admitted(window, limits, NEW_SCOPE, Checks(n, now)) == n
    ensures var s := Run(window, limits, NEW_SCOPE, Checks(n, now));
            Holds(s.rpm, limits.rpm as real, now, (limits.rpm - n) as real)
    ensures n == limits.rpm ==> Checked(window, Run(window, limits, NEW_SCOPE, Checks(n, now)), limits, now).1.TooMany?
    decreases n
  {
    var s := Run(window, limits, NEW_SCOPE, Checks(n, now));
    if n > 0 {
      hide Checked;
      var before := Run(window, limits, NEW_SCOPE, Checks(n - 1, now));
      assert Checks(n, now)[..n - 1] == Checks(n - 1, now);
      Burst(window, limits, now, n - 1);
      CheckDoes(window, before, limits, now, (limits.rpm - (n - 1)) as real);
      assert IsSince(now, now, 0);
    }
    CheckDoes(window, s, limits, now, (limits.rpm - n) as real);
  }
}
