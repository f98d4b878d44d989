/** The catch-up of a periodic timer against an unbounded clock. */
module TimerArithmetic {
  import opened Ticks

  /** The deadlines of a timer that have passed at `now`, earliest first. */
  function Served(deadline: nat, period: nat, now: nat): (r: seq<nat>)
    requires period > 0
    decreases if deadline <= now then now + 1 - deadline else 0
  {
    if deadline > now then [] else [deadline] + Served(deadline + period, period, now)
  }

  /** Its first deadline after `now`. */
  function Upcoming(deadline: nat, period: nat, now: nat): (r: nat)
    requires period > 0
    ensures r > now && (deadline <= now ==> r <= now + period)
    decreases if deadline <= now then now + 1 - deadline else 0
  {
    if deadline > now then deadline else Upcoming(deadline + period, period, now)
  }

  lemma ServedUnfold(deadline: nat, period: nat, now: nat)
    requires period > 0
    ensures deadline > now ==> Served(deadline, period, now) == [] && Upcoming(deadline, period, now) == deadline
    ensures deadline <= now ==>
      && Served(deadline, period, now) == [deadline] + Served(deadline + period, period, now)
      && Upcoming(deadline, period, now) == Upcoming(deadline + period, period, now)
  {
  }

  /** The k-th of them is `deadline + k * period`, whatever the moment of the drain:
      catching up never drifts. */
  lemma {:induction false} ServedAt(deadline: nat, period: nat, now: nat, k: nat)
    requires period > 0 && k < |Served(deadline, period, now)|
    ensures Served(deadline, period, now)[k] == deadline + k * period <= now
    decreases k
  {
    if k > 0 {
      ServedAt(deadline + period, period, now, k - 1);
      assert deadline + period + (k - 1) * period == deadline + k * period;
    }
  }

  lemma {:induction false} ServedCount(deadline: nat, period: nat, now: nat)
    requires period > 0
    ensures |Served(deadline, period, now)| == if deadline <= now then (now - deadline) / period + 1 else 0
    ensures Upcoming(deadline, period, now) == deadline + |Served(deadline, period, now)| * period
    decreases if deadline <= now then now + 1 - deadline else 0
  {
    if deadline <= now {
      ServedCount(deadline + period, period, now);
      if deadline + period <= now {
        QuotientStep(now - deadline, period);
      } else {
        QuotientSmall(now - deadline, period);
      }
      var n := |Served(deadline + period, period, now)|;
      assert deadline + period + n * period == deadline + (n + 1) * period;
    }
  }

  lemma QuotientStep(x: nat, p: nat)
    requires p > 0 && x >= p
    ensures x / p == (x - p) / p + 1
  {
    var q := (x - p) / p;
    assert x == (q + 1) * p + (x - p) % p;
    QuotientIs(x, p, q + 1, (x - p) % p);
  }

  lemma QuotientSmall(x: nat, p: nat)
    requires x < p
    ensures x / p == 0
  {
  }

  lemma QuotientIs(x: nat, p: nat, q: nat, r: nat)
    requires p > 0 && x == q * p + r && r < p
    ensures x / p == q
  {
    var d, m := x / p, x % p;
    assert x == d * p + m;
    if d > q { Multiples(q, d, p); }
    if d < q { Multiples(d, q, p); }
  }

  lemma {:induction false} Multiples(a: nat, b: nat, p: nat)
    requires a < b
    ensures a * p + p <= b * p
    decreases b
  {
    if a + 1 < b { Multiples(a, b - 1, p); }
    assert b * p == (b - 1) * p + p;
  }

  /** Two drains do what the later one alone would have done. */
  lemma {:induction false} ServedSplit(deadline: nat, period: nat, first: nat, second: nat)
    requires period > 0 && first <= second
    ensures Served(deadline, period, second)
         == Served(deadline, period, first) + Served(Upcoming(deadline, period, first), period, second)
    ensures Upcoming(deadline, period, second) == Upcoming(Upcoming(deadline, period, first), period, second)
    decreases if deadline <= first then first + 1 - deadline else 0
  {
    if deadline <= first {
      ServedSplit(deadline + period, period, first, second);
    }
  }

  /** A timer started at `s` has run exactly floor((now - s) / period) times. */
  lemma CatchUpCount(s: nat, period: nat, now: nat)
    requires period > 0 && s <= now
    ensures |Served(s + period, period, now)| == (now - s) / period
  {
    ServedCount(s + period, period, now);
    if s + period <= now { QuotientStep(now - s, period); } else { QuotientSmall(now - s, period); }
  }

  /** The due test of the code on counter readings. */
  predicate IsDue(expiry: Tick, tick: Tick) {
    SignedDifference(expiry, tick) <= 0
  }

  lemma DueExact(deadline: nat, now: nat)
    requires now - HALF_RANGE <= deadline < now + HALF_RANGE
    ensures IsDue(Wrap(deadline), Wrap(now)) <==> deadline <= now
    ensures SignedDifference(Wrap(deadline), Wrap(now)) == deadline - now
  {
    SignedDifferenceExact(deadline, now);
  }

  /** It is right exactly while the lateness, modulo the tick range, is at most half of
      the range. */
  lemma DueExactIff(deadline: nat, now: nat)
    requires deadline < now + HALF_RANGE
    ensures (IsDue(Wrap(deadline), Wrap(now)) <==> deadline <= now)
      <==> now < deadline || (now - deadline) % TICK_RANGE <= HALF_RANGE
  {
    WrapDifference(deadline, now);
    if now < deadline {
      SignedDifferenceExact(deadline, now);
    } else {
      var late: int := now - deadline;
      var q := late / TICK_RANGE;
      assert -late == -(late % TICK_RANGE) + (-q) * TICK_RANGE;
      ModuloShift(-(late % TICK_RANGE), -q);
    }
  }
}
