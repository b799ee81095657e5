/**
 How many notifications one (type, scope) pair can produce.
 */
module AnomalyRate {
  import opened Anomaly

  // ---- counting -------------------------------------------------------------

  /** How many of the times fall in [lo, hi). */
  function CountIn(times: seq<int>, lo: int, hi: int): nat {
    if times == [] then 0 else
    CountIn(times[..|times| - 1], lo, hi) + if lo <= times[|times| - 1] < hi then 1 else 0
  }

  /** How many fall in the half-open hour from a on. */
  function InHour(times: seq<int>, a: int): nat { CountIn(times, a, a + HOUR) }

  lemma {:induction false} CountSnoc(times: seq<int>, t: int, lo: int, hi: int)
    ensures CountIn(times + [t], lo, hi) == CountIn(times, lo, hi) + if lo <= t < hi then 1 else 0
  {
    assert (times + [t])[..|times|] == times;
  }

  lemma {:induction false} CountSub(times: seq<int>, lo: int, hi: int, lo': int, hi': int)
    requires forall t :: t in times && lo <= t < hi ==> lo' <= t < hi'
    ensures CountIn(times, lo, hi) <= CountIn(times, lo', hi')
  {
    if times != [] {
      var before := times[..|times| - 1];
      assert forall t :: t in before ==> t in times;
      CountSub(before, lo, hi, lo', hi');
      assert times[|times| - 1] in times;
    }
  }

  lemma {:induction false} CountSplit(times: seq<int>, lo: int, mid: int, hi: int)
    requires lo <= mid <= hi
    ensures CountIn(times, lo, hi) == CountIn(times, lo, mid) + CountIn(times, mid, hi)
  {
    if times != [] {
      CountSplit(times[..|times| - 1], lo, mid, hi);
    }
  }

  // ---- tumbling windows -----------------------------------------------------

  function Ceiling(cfg: Config): nat { if cfg.maxPerHour < 0 then 0 else cfg.maxPerHour }

  /** The window that opened at w holds at most m, and so does the hour before it. */
  ghost predicate WindowOk(u: seq<int>, w: int, sent: int, m: nat) {
    && (forall t :: t in u ==> t < w + HOUR)
    && CountIn(u, w, w + HOUR) <= sent && CountIn(u, w, w + HOUR) <= m
    && CountIn(u, w - HOUR, w) <= m
  }

  ghost predicate RateOk(u: seq<int>, m: nat) {
    forall a :: InHour(u, a) <= 2 * m
  }

  lemma RollKeeps(u: seq<int>, w: int, sent: int, m: nat, now: int)
    requires WindowOk(u, w, sent, m) && now >= w + HOUR
    ensures WindowOk(u, now, 0, m)
  {
    CountSub(u, now, now + HOUR, now, now);
    CountEmpty(u, now);
    CountSub(u, now - HOUR, now, w, w + HOUR);
  }

  lemma {:induction false} CountEmpty(u: seq<int>, at: int)
    ensures CountIn(u, at, at) == 0
  {
    if u != [] { CountEmpty(u[..|u| - 1], at); }
  }

  lemma SendKeeps(u: seq<int>, w: int, sent: int, m: nat, now: int)
    requires WindowOk(u, w, sent, m) && RateOk(u, m) && w <= now < w + HOUR && sent < m
    ensures WindowOk(u + [now], w, sent + 1, m) && RateOk(u + [now], m)
  {
    CountSnoc(u, now, w, w + HOUR);
    CountSnoc(u, now, w - HOUR, w);
    forall a ensures InHour(u + [now], a) <= 2 * m {
      assert InHour(u, a) <= 2 * m;
      CountSnoc(u, now, a, a + HOUR);
      if a <= now < a + HOUR {
        CountSub(u, a, a + HOUR, w - HOUR, w + HOUR);
        CountSplit(u, w - HOUR, w, w + HOUR);
      }
    }
  }

  // ---- every history --------------------------------------------------------

  ghost predicate Good(cfg: Config, st: State, u: seq<int>, now: int) {
    && st.hourStart <= now && st.sentThisHour >= 0
    && WindowOk(u, st.hourStart, st.sentThisHour, Ceiling(cfg)) && RateOk(u, Ceiling(cfg))
  }

  /** One call of send: the times of unforced notices grow by at most this one. */
  lemma SendGood(cfg: Config, st: State, u: seq<int>, now: int, forced: bool, reply: Reply)
    requires Good(cfg, st, u, now)
    ensures var (after, out) := SendSpec(cfg, st, now, forced, reply);
      Good(cfg, after, if out == Sent && !forced then u + [now] else u, now)
  {
    var rolled := Roll(st, now);
    if now - st.hourStart >= HOUR {
      RollKeeps(u, st.hourStart, st.sentThisHour, Ceiling(cfg), now);
    }
    if Gate(cfg, rolled, now, forced, reply) == Sent && !forced {
      SendKeeps(u, rolled.hourStart, rolled.sentThisHour, Ceiling(cfg), now);
    }
  }

  lemma StepGood(cfg: Config, st: State, u: seq<int>, o: Observation)
    requires Good(cfg, st, u, o.now)
    ensures var (after, tried) := Step(cfg, st, o);
      var sent := tried.Some? && tried.value.outcome == Sent && !tried.value.forced;
      Good(cfg, after, if sent then u + [o.now] else u, o.now)
  {
    if !o.breached {
      SendGood(cfg, st.(breachedAt := 0, active := false), u, o.now, true, o.reply);
    } else {
      var b := Breach(st, o);
      SendGood(cfg, if b.active then b else b.(active := true, startedAt := b.breachedAt), u, o.now, false, o.reply);
    }
  }

  lemma {:induction false} HistoryGood(cfg: Config, h: seq<Observation>, now: int)
    requires Ordered(h) && (h != [] ==> h[|h| - 1].now <= now)
    ensures Good(cfg, Before(cfg, h, now), Unforced(cfg, h), now)
  {
    if h != [] {
      var last := h[|h| - 1];
      HistoryGood(cfg, h[..|h| - 1], last.now);
      StepGood(cfg, Before(cfg, h[..|h| - 1], last.now), Unforced(cfg, h[..|h| - 1]), last);
      assert Unforced(cfg, h[..|h| - 1]) + [] == Unforced(cfg, h[..|h| - 1]);
    }
  }

  /** Any hour holds at most twice the configured number of unforced notifications. */
  lemma AtMostTwiceTheCeiling(cfg: Config, h: seq<Observation>, a: int)
    requires Ordered(h)
    ensures InHour(Unforced(cfg, h), a) <= 2 * Ceiling(cfg)
  {
    HistoryGood(cfg, h, if h == [] then 0 else h[|h| - 1].now);
  }
}
