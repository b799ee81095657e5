/**
 What a pair tries to tell support after any history, and exactly when a notification goes out.
 */
module AnomalyNotices {
  import opened Prelude
  import opened Anomaly
  import opened AnomalyHistory
  import opened AnomalyCeiling

  function Last(h: seq<Observation>): Observation
    requires h != []
  {
    h[|h| - 1]
  }

  function Earlier(h: seq<Observation>): seq<Observation>
    requires h != []
  {
    h[..|h| - 1]
  }

  // ---- when something is to be said -----------------------------------------------

  /** The last observation is a breach that needs no sustain, or whose run has lasted for the sustain window. */
  ghost predicate Raises(cfg: Config, h: seq<Observation>) {
    && h != [] && Last(h).breached
    && (!Last(h).sustain || Last(h).now - h[RunStart(h)].now >= cfg.sustainFor)
  }

  /** The last observation ends a run of breaches that had been confirmed. */
  ghost predicate Clears(cfg: Config, h: seq<Observation>) {
    h != [] && !Last(h).breached && Confirmed(cfg, Earlier(h), RunStart(Earlier(h)))
  }

  /**
   After any history an unforced attempt is made exactly when the last observation raises, and carries its detail; a
   forced one exactly when it clears, and carries the detail of the breach before it.
   */
  lemma AttemptsExactly(cfg: Config, h: seq<Observation>)
    requires h != [] && Ordered(h)
    ensures var t := Tried(cfg, h);
      && (t.Some? && !t.value.forced <==> Raises(cfg, h))
      && (t.Some? && t.value.forced <==> Clears(cfg, h))
      && (Raises(cfg, h) ==> t.value.body == Last(h).detail)
      && (Clears(cfg, h) ==> Earlier(h) != [] && Last(Earlier(h)).breached && t.value.body == Last(Earlier(h)).detail)
  {
    var before := Earlier(h);
    if before != [] {
      ActiveIsConfirmed(cfg, before);
    }
    StepTries(cfg, Before(cfg, before, Last(h).now), Last(h));
    if Last(h).breached {
      RaisesFrom(cfg, h);
    } else if Clears(cfg, h) {
      DetailKept(cfg, before);
    }
  }

  /** What one observation tries to send, by the state it finds. */
  lemma StepTries(cfg: Config, st: State, o: Observation)
    ensures var t := Step(cfg, st, o).1;
      var onset := if st.breachedAt == 0 then o.now else st.breachedAt;
      && (t.Some? && !t.value.forced <==> o.breached && (!o.sustain || o.now - onset >= cfg.sustainFor))
      && (t.Some? && t.value.forced <==> !o.breached && st.active)
      && (t.Some? ==> t.value.body == if o.breached then o.detail else st.detail)
  {
  }

  /** The onset that a breach finds or makes is the start of its run. */
  lemma RaisesFrom(cfg: Config, h: seq<Observation>)
    requires h != [] && Ordered(h) && Last(h).breached
    ensures RunStart(h) < |h|
    ensures var st := Before(cfg, Earlier(h), Last(h).now);
      h[RunStart(h)].now == if st.breachedAt == 0 then Last(h).now else st.breachedAt
  {
    var before := Earlier(h);
    if before != [] {
      ActiveIsConfirmed(cfg, before);
    }
    assert RunStart(h) == RunStart(before);
  }

  lemma DetailKept(cfg: Config, h: seq<Observation>)
    requires Confirmed(cfg, h, RunStart(h))
    ensures h != [] && Last(h).breached && After(cfg, h).detail == Last(h).detail
  {
    StepKeepsDetail(cfg, Before(cfg, Earlier(h), Last(h).now), Last(h));
  }

  lemma StepKeepsDetail(cfg: Config, st: State, o: Observation)
    requires o.breached
    ensures Step(cfg, st, o).0.detail == o.detail
  {
  }

  // ---- the window -------------------------------------------------------------------

  /**
   When the current window opened: with the first observation, and anew with whatever is to be said an hour or more
   after the last window did.
   */
  ghost function WindowStart(cfg: Config, h: seq<Observation>): int
    requires h != []
  {
    if |h| == 1 then h[0].now else
    var was := WindowStart(cfg, Earlier(h));
    if (Raises(cfg, h) || Clears(cfg, h)) && Last(h).now - was >= HOUR then Last(h).now else was
  }

  /** How many of the notices went out at or after a time. */
  function CountSince(notices: seq<Notice>, from: int): nat {
    if notices == [] then 0 else
    CountSince(notices[..|notices| - 1], from) + if notices[|notices| - 1].at >= from then 1 else 0
  }

  lemma {:induction false} NoneSince(notices: seq<Notice>, from: int)
    requires forall n :: n in notices ==> n.at < from
    ensures CountSince(notices, from) == 0
  {
    if notices != [] {
      assert notices[|notices| - 1] in notices;
      NoneSince(notices[..|notices| - 1], from);
    }
  }

  /** A state that holds the window from `from` on, with the notices that went out in it. */
  ghost predicate Windowed(st: State, notices: seq<Notice>, from: int) {
    && st.hourStart == from && st.sentThisHour == CountSince(notices, from)
    && forall n :: n in notices ==> n.at < from + HOUR
  }

  /** What a state lets through is what the notices so far let through. */
  ghost predicate Allows(cfg: Config, notices: seq<Notice>, from: int, now: int) {
    && (notices == [] || now - notices[|notices| - 1].at >= cfg.cooldown)
    && CountSince(notices, from) < cfg.maxPerHour
  }

  /** One attempt: the window rolls when it is over, and the notice goes out as the notices before it allow. */
  lemma SendTells(cfg: Config, st: State, notices: seq<Notice>, from: int, now: int, forced: bool, reply: Reply)
    requires Windowed(st, notices, from) && st.lastNotified == LastAt(notices) && from <= now
    requires forall n :: n in notices ==> n.at > 0
    ensures var (after, out) := SendSpec(cfg, st, now, forced, reply);
      var to := if now - from >= HOUR then now else from;
      var told := if out == Sent then notices + [Notice(now, forced)] else notices;
      && Windowed(after, told, to)
      && (out == Sent <==> reply == Accepted && (forced || Allows(cfg, notices, to, now)))
  {
    SentExactly(cfg, st, now, forced, reply);
    var to := if now - from >= HOUR then now else from;
    if now - from >= HOUR {
      NoneSince(notices, now);
    }
    if notices != [] {
      assert notices[|notices| - 1] in notices;
    }
    assert (notices + [Notice(now, forced)])[..|notices|] == notices;
  }

  /** The state a pair's next observation finds; for its first, a new one. */
  ghost predicate Found(cfg: Config, st: State, h: seq<Observation>)
    requires h != []
  {
    var before := Earlier(h);
    && st == Before(cfg, before, Last(h).now)
    && Windowed(st, Notices(cfg, before), if before == [] then Last(h).now else WindowStart(cfg, before))
    && st.lastNotified == LastAt(Notices(cfg, before))
    && forall n :: n in Notices(cfg, before) ==> n.at > 0
  }

  /** One observation sends as `SendSpec` does, or leaves the window alone. */
  lemma StepSends(cfg: Config, st: State, o: Observation)
    ensures var (after, t) := Step(cfg, st, o);
      && (t.None? ==> Same(after, st))
      && (t.Some? ==> exists s :: Same(s, st) && SendsFrom(cfg, s, o, after, t.value))
  {
    var (after, t) := Step(cfg, st, o);
    if t.Some? {
      var b := Breach(st, o);
      var s := if !o.breached then st.(breachedAt := 0, active := false)
               else if b.active then b else b.(active := true, startedAt := b.breachedAt);
      assert Same(s, st) && SendsFrom(cfg, s, o, after, t.value);
    }
  }

  ghost predicate SendsFrom(cfg: Config, s: State, o: Observation, after: State, t: Attempt) {
    SendSpec(cfg, s, o.now, t.forced, o.reply) == (after, t.outcome)
  }

  /** The two agree on what was sent and when. */
  predicate Same(a: State, b: State) {
    a.hourStart == b.hourStart && a.sentThisHour == b.sentThisHour && a.lastNotified == b.lastNotified
  }

  /** The window and the notices after one more observation. */
  ghost predicate Told(cfg: Config, h: seq<Observation>)
    requires h != []
  {
    var before, o := Notices(cfg, Earlier(h)), Last(h);
    && Windowed(After(cfg, h), Notices(cfg, h), WindowStart(cfg, h)) && WindowStart(cfg, h) <= o.now
    && var may := Clears(cfg, h) || (Raises(cfg, h) && Allows(cfg, before, WindowStart(cfg, h), o.now));
      Notices(cfg, h) == before + if o.reply == Accepted && may then [Notice(o.now, Clears(cfg, h))] else []
  }

  lemma TellsOne(cfg: Config, h: seq<Observation>, st: State)
    requires h != [] && Ordered(h) && Found(cfg, st, h)
    requires Earlier(h) != [] ==> WindowStart(cfg, Earlier(h)) <= Last(h).now
    ensures Told(cfg, h)
  {
    var before, o := Notices(cfg, Earlier(h)), Last(h);
    var from := if Earlier(h) == [] then o.now else WindowStart(cfg, Earlier(h));
    AttemptsExactly(cfg, h);
    StepSends(cfg, st, o);
    var (after, t) := Step(cfg, st, o);
    if t.Some? {
      var s :| Same(s, st) && SendsFrom(cfg, s, o, after, t.value);
      SendTells(cfg, s, before, from, o.now, t.value.forced, o.reply);
    }
    assert before + [] == before;
  }

  /**
   Exactly when a notification goes out, in every history: the notifier takes it, and the last observation clears; or it
   raises, the cooldown has passed since the notification before, of either kind, and the window has room.
   */
  lemma {:induction false} NoticesExactly(cfg: Config, h: seq<Observation>)
    requires h != [] && Ordered(h)
    ensures Told(cfg, h)
  {
    var before, o := Earlier(h), Last(h);
    if before != [] {
      NoticesExactly(cfg, before);
    }
    LastNotifiedIsLast(cfg, before, o.now);
    assert Found(cfg, Before(cfg, before, o.now), h);
    TellsOne(cfg, h, Before(cfg, before, o.now));
  }

  function UnforcedTimes(notices: seq<Notice>): seq<int> {
    if notices == [] then [] else
    var last := notices[|notices| - 1];
    UnforcedTimes(notices[..|notices| - 1]) + if last.forced then [] else [last.at]
  }

  /** The times that the ceiling bounds are those of the notices that are not RESOLVED messages. */
  lemma {:induction false} UnforcedAreNotices(cfg: Config, h: seq<Observation>)
    ensures Unforced(cfg, h) == UnforcedTimes(Notices(cfg, h))
  {
    if h != [] {
      UnforcedAreNotices(cfg, Earlier(h));
      var before, all := Notices(cfg, Earlier(h)), Notices(cfg, h);
      assert all != before ==> all[..|all| - 1] == before;
    }
  }
}
