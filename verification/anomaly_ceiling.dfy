/**
 The cooldown, and exactly when the configured number per hour is kept in every hour.
 */
module AnomalyCeiling {
  import opened Prelude
  import opened Anomaly
  import opened AnomalyRate

  // ---- the cooldown ---------------------------------------------------------

  function LastAt(notices: seq<Notice>): int { if notices == [] then 0 else notices[|notices| - 1].at }

  lemma {:induction false} LastNotifiedIsLast(cfg: Config, h: seq<Observation>, now: int)
    requires Ordered(h)
    ensures Before(cfg, h, now).lastNotified == LastAt(Notices(cfg, h))
    ensures forall n :: n in Notices(cfg, h) ==> 0 < n.at
    ensures forall t :: t in Unforced(cfg, h) ==> 0 < t <= LastAt(Notices(cfg, h))
  {
    if h != [] {
      var last := h[|h| - 1];
      LastNotifiedIsLast(cfg, h[..|h| - 1], last.now);
      NoticesInOrder(cfg, h[..|h| - 1], last.now);
    }
  }

  lemma {:induction false} NoticesInOrder(cfg: Config, h: seq<Observation>, now: int)
    requires Ordered(h) && (h != [] ==> h[|h| - 1].now <= now) && now > 0
    ensures forall n :: n in Notices(cfg, h) ==> n.at <= now
  {
    if h != [] { NoticesInOrder(cfg, h[..|h| - 1], now); }
  }

  /**
   Every notification that is not a RESOLVED message comes at least the cooldown after the one before, of either kind.
   */
  lemma {:induction false} CooldownKept(cfg: Config, h: seq<Observation>, j: nat)
    requires Ordered(h) && 0 < j < |Notices(cfg, h)| && !Notices(cfg, h)[j].forced
    ensures Notices(cfg, h)[j].at - Notices(cfg, h)[j - 1].at >= cfg.cooldown
  {
    var before := Notices(cfg, h[..|h| - 1]);
    if j < |before| {
      CooldownKept(cfg, h[..|h| - 1], j);
    } else {
      LastNotifiedIsLast(cfg, h[..|h| - 1], h[|h| - 1].now);
      assert before[|before| - 1] in before;
    }
  }

  ghost predicate Spaced(u: seq<int>, c: int) {
    forall i :: 0 < i < |u| ==> u[i] - u[i - 1] >= c
  }

  lemma {:induction false} UnforcedSpaced(cfg: Config, h: seq<Observation>)
    requires Ordered(h)
    ensures Spaced(Unforced(cfg, h), cfg.cooldown)
  {
    if h != [] {
      UnforcedSpaced(cfg, h[..|h| - 1]);
      LastNotifiedIsLast(cfg, h[..|h| - 1], h[|h| - 1].now);
      var before := Unforced(cfg, h[..|h| - 1]);
      if before != [] { assert before[|before| - 1] in before; }
    }
  }

  /** n times that are c apart take (n - 1) * c. */
  lemma {:induction false} CountSpaced(u: seq<int>, c: nat, lo: int, hi: int)
    requires Spaced(u, c) && u != [] && CountIn(u, lo, hi) >= 1
    ensures (CountIn(u, lo, hi) - 1) * c <= u[|u| - 1] - lo
    ensures (CountIn(u, lo, hi) - 1) * c <= hi - 1 - lo
  {
    var before := u[..|u| - 1];
    var n := CountIn(before, lo, hi);
    if n >= 1 {
      CountSpaced(before, c, lo, hi);
      Stretch(n, c);
    }
  }

  lemma Stretch(n: int, c: int)
    ensures n * c == (n - 1) * c + c
  {
  }

  lemma Product(a: int, b: int, c: nat)
    requires a <= b
    ensures a * c <= b * c
  {
  }

  lemma SpacedKeepsCeiling(u: seq<int>, c: nat, m: nat, a: int)
    requires Spaced(u, c) && m * c >= HOUR
    ensures InHour(u, a) <= m
  {
    var n := CountIn(u, a, a + HOUR);
    if n > m {
      CountSpaced(u, c, a, a + HOUR);
      Product(m, n - 1, c);
    }
  }

  // ---- a history that breaks the ceiling ------------------------------------

  const CLEAR := Observation(false, false, "", 1, Accepted)

  function Alarm(now: int): Observation { Observation(true, false, "", now, Accepted) }

  /** One clear observation opens the window at time 1; breached ones follow at the given times. */
  function Burst(times: seq<int>): (h: seq<Observation>)
    ensures |h| == |times| + 1 && h[0] == CLEAR && forall i :: 0 <= i < |times| ==> h[i + 1].now == times[i]
  {
    if times == [] then [CLEAR] else Burst(times[..|times| - 1]) + [Alarm(times[|times| - 1])]
  }

  /** maxPerHour + 1 times, a cooldown apart and within an hour, of which only the last is past the first window. */
  ghost predicate Straddles(cfg: Config, times: seq<int>) {
    && cfg.maxPerHour >= 1 && |times| == cfg.maxPerHour + 1
    && (forall i :: 0 <= i < |times| ==> 1 <= times[0] <= times[i] < times[0] + HOUR)
    && (forall i :: 0 <= i < |times| ==> (times[i] > HOUR <==> i == cfg.maxPerHour))
    && (forall i :: 0 < i < |times| ==> times[i - 1] <= times[i] && times[i] - times[i - 1] >= cfg.cooldown)
  }

  /** An alarm past the cooldown, in a window with room or after its end, gets through. */
  lemma AlarmSent(cfg: Config, st: State, now: int)
    requires st.lastNotified == 0 || now - st.lastNotified >= cfg.cooldown
    requires cfg.maxPerHour >= 1 && (now - st.hourStart >= HOUR || st.sentThisHour < cfg.maxPerHour)
    ensures var (after, tried) := Step(cfg, st, Alarm(now));
      && tried == Some(Attempt(false, "", Sent)) && after.lastNotified == now
      && (now - st.hourStart < HOUR ==> after.hourStart == st.hourStart && after.sentThisHour == st.sentThisHour + 1)
  {
  }

  lemma HistorySnoc(cfg: Config, h: seq<Observation>, o: Observation)
    ensures var (after, tried) := Step(cfg, Before(cfg, h, o.now), o);
      && After(cfg, h + [o]) == after
      && Unforced(cfg, h + [o]) ==
         Unforced(cfg, h) + (if tried.Some? && tried.value.outcome == Sent && !tried.value.forced then [o.now] else [])
  {
    assert (h + [o])[..|h|] == h;
  }

  lemma ClearStart(cfg: Config)
    ensures After(cfg, [CLEAR]) == Fresh(1) && Unforced(cfg, [CLEAR]) == []
  {
    HistorySnoc(cfg, [], CLEAR);
    assert [] + [CLEAR] == [CLEAR];
  }

  /** The window that opened at time 1 has seen k sends, the last one at `last`. */
  ghost predicate Armed(st: State, k: nat, last: int) {
    st.lastNotified == last && st.hourStart == 1 && st.sentThisHour == k
  }

  function LastOf(times: seq<int>): int { if times == [] then 0 else times[|times| - 1] }

  /** Every alarm of the burst got through, all in the first window. */
  ghost predicate Through(cfg: Config, times: seq<int>) {
    Unforced(cfg, Burst(times)) == times && Armed(After(cfg, Burst(times)), |times|, LastOf(times))
  }

  /** Times in the first window, a cooldown apart, no more than it has room for. */
  ghost predicate Fits(cfg: Config, times: seq<int>) {
    && |times| <= cfg.maxPerHour && (forall i :: 0 <= i < |times| ==> 1 <= times[i] <= HOUR)
    && (forall i :: 0 < i < |times| ==> times[i] - times[i - 1] >= cfg.cooldown)
  }

  lemma BurstSnoc(before: seq<int>, t: int)
    ensures Burst(before + [t]) == Burst(before) + [Alarm(t)]
  {
    assert (before + [t])[..|before|] == before;
  }

  lemma FirstWindowStep(cfg: Config, before: seq<int>, t: int)
    requires Through(cfg, before)
    requires |before| < cfg.maxPerHour && 1 <= t <= HOUR && (LastOf(before) == 0 || t - LastOf(before) >= cfg.cooldown)
    ensures Through(cfg, before + [t])
  {
    BurstSnoc(before, t);
    OneMoreInWindow(cfg, Burst(before), |before|, LastOf(before), t);
  }

  /** Inside the first window every alarm gets through. */
  lemma {:induction false} FirstWindowAllSent(cfg: Config, times: seq<int>)
    requires Fits(cfg, times)
    ensures Through(cfg, times)
  {
    if times == [] {
      ClearStart(cfg);
    } else {
      var before := times[..|times| - 1];
      FirstWindowAllSent(cfg, before);
      FirstWindowStep(cfg, before, times[|times| - 1]);
      assert before + [times[|times| - 1]] == times;
    }
  }

  lemma OneMoreInWindow(cfg: Config, h: seq<Observation>, k: nat, last: int, now: int)
    requires h != [] && Armed(After(cfg, h), k, last) && k < cfg.maxPerHour
    requires 1 <= now <= HOUR && (last == 0 || now - last >= cfg.cooldown)
    ensures Unforced(cfg, h + [Alarm(now)]) == Unforced(cfg, h) + [now]
    ensures Armed(After(cfg, h + [Alarm(now)]), k + 1, now)
  {
    HistorySnoc(cfg, h, Alarm(now));
    AlarmSent(cfg, After(cfg, h), now);
  }

  lemma OneMoreAfterWindow(cfg: Config, h: seq<Observation>, k: nat, last: int, now: int)
    requires h != [] && Armed(After(cfg, h), k, last) && 1 <= cfg.maxPerHour
    requires now > HOUR && now - last >= cfg.cooldown
    ensures Unforced(cfg, h + [Alarm(now)]) == Unforced(cfg, h) + [now]
  {
    HistorySnoc(cfg, h, Alarm(now));
    AlarmSent(cfg, After(cfg, h), now);
  }

  lemma AllSent(cfg: Config, before: seq<int>, t: int)
    requires Fits(cfg, before) && 1 <= cfg.maxPerHour && t > HOUR && t - LastOf(before) >= cfg.cooldown
    ensures Unforced(cfg, Burst(before + [t])) == before + [t]
  {
    FirstWindowAllSent(cfg, before);
    OneMoreAfterWindow(cfg, Burst(before), |before|, LastOf(before), t);
    BurstSnoc(before, t);
  }

  lemma StraddlingFits(cfg: Config, times: seq<int>)
    requires Straddles(cfg, times)
    ensures var m := cfg.maxPerHour;
      && Fits(cfg, times[..m]) && times[m] > HOUR && times[m] - LastOf(times[..m]) >= cfg.cooldown
      && times[..m] + [times[m]] == times
  {
  }

  lemma StraddlingSent(cfg: Config, times: seq<int>)
    requires Straddles(cfg, times)
    ensures Unforced(cfg, Burst(times)) == times
  {
    StraddlingFits(cfg, times);
    AllSent(cfg, times[..cfg.maxPerHour], times[cfg.maxPerHour]);
  }

  lemma StraddlingCount(cfg: Config, times: seq<int>)
    requires Straddles(cfg, times)
    ensures InHour(times, times[0]) == Ceiling(cfg) + 1
  {
    CountAll(times, times[0], times[0] + HOUR);
  }

  /** All maxPerHour + 1 alarms get through, within an hour. */
  lemma StraddlingBreaksCeiling(cfg: Config, times: seq<int>)
    requires Straddles(cfg, times)
    ensures Ordered(Burst(times)) && InHour(Unforced(cfg, Burst(times)), times[0]) == Ceiling(cfg) + 1
  {
    StraddlingSent(cfg, times);
    StraddlingCount(cfg, times);
    BurstOrdered(cfg, times);
  }

  lemma BurstOrdered(cfg: Config, times: seq<int>)
    requires Straddles(cfg, times)
    ensures Ordered(Burst(times))
  {
    var h := Burst(times);
    forall i, j | 0 <= i < j < |h| ensures h[i].now <= h[j].now && h[j].now > 0 {
      assert h[j].now == times[j - 1];
      if i > 0 {
        assert h[i].now == times[i - 1];
        Monotone(cfg, times, i - 1, j - 1);
      }
    }
  }

  lemma {:induction false} Monotone(cfg: Config, times: seq<int>, i: nat, j: nat)
    requires Straddles(cfg, times) && i <= j < |times|
    ensures times[i] <= times[j]
    decreases j
  {
    if i < j { Monotone(cfg, times, i, j - 1); }
  }

  lemma {:induction false} CountAll(u: seq<int>, lo: int, hi: int)
    requires forall i :: 0 <= i < |u| ==> lo <= u[i] < hi
    ensures CountIn(u, lo, hi) == |u|
  {
    if u != [] {
      CountAll(u[..|u| - 1], lo, hi);
    }
  }

  ghost predicate Loose(cfg: Config) { cfg.maxPerHour >= 1 && cfg.maxPerHour * cfg.cooldown < HOUR }

  /** Times a gap apart that end at `end`. */
  function Ladder(n: nat, gap: nat, end: int): (ts: seq<int>)
    requires n >= 1
    ensures |ts| == n && ts[n - 1] == end
    ensures forall i :: 0 < i < n ==> ts[i] - ts[i - 1] == gap
    ensures forall i :: 0 <= i < n ==> ts[0] <= ts[i] <= end
    ensures ts[0] == end - (n - 1) * gap
  {
    if n == 1 then [end] else
    var ts := Ladder(n - 1, gap, end - gap) + [end];
    assert (n - 1) * gap == (n - 2) * gap + gap;
    ts
  }

  /** When maxPerHour cooldowns are shorter than an hour, there is room for such a burst. */
  lemma LooseStraddles(cfg: Config) returns (times: seq<int>)
    requires Loose(cfg)
    ensures Straddles(cfg, times)
  {
    var gap: nat := if cfg.cooldown < 0 then 0 else cfg.cooldown;
    var m: nat := cfg.maxPerHour;
    var early := Ladder(m, gap, HOUR);
    times := early + [HOUR + if gap == 0 then 1 else gap];
    Stretch(m, gap);
    Product(0, m - 1, gap);
    assert forall i :: 0 <= i < m ==> times[i] == early[i];
  }

  // ---- exactly when ---------------------------------------------------------

  ghost predicate CeilingHolds(cfg: Config) {
    forall h, a :: Ordered(h) ==> InHour(Unforced(cfg, h), a) <= Ceiling(cfg)
  }

  lemma CooldownKeepsCeiling(cfg: Config, h: seq<Observation>, a: int)
    requires cfg.maxPerHour >= 1 && cfg.maxPerHour * cfg.cooldown >= HOUR && Ordered(h)
    ensures InHour(Unforced(cfg, h), a) <= Ceiling(cfg)
  {
    UnforcedSpaced(cfg, h);
    SpacedKeepsCeiling(Unforced(cfg, h), cfg.cooldown, cfg.maxPerHour, a);
  }

  /**
   No hour ever sees more than maxPerHour unforced notifications exactly when the cooldown alone spreads that
   many over an hour (or nothing may be sent at all). Otherwise two windows meet and one burst breaks it.
   */
  lemma CeilingHoldsExactly(cfg: Config)
    ensures CeilingHolds(cfg) <==> !Loose(cfg)
  {
    if Loose(cfg) {
      var times := LooseStraddles(cfg);
      StraddlingBreaksCeiling(cfg, times);
      assert Ordered(Burst(times)) && InHour(Unforced(cfg, Burst(times)), times[0]) > Ceiling(cfg);
    } else {
      forall h, a | Ordered(h) ensures InHour(Unforced(cfg, h), a) <= Ceiling(cfg) {
        if cfg.maxPerHour <= 0 {
          AtMostTwiceTheCeiling(cfg, h, a);
        } else {
          CooldownKeepsCeiling(cfg, h, a);
        }
      }
    }
  }
}
