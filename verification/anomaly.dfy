/**
 The anomaly detector: when a condition becomes an anomaly and how often support hears about it.

 A time is a number of nanoseconds after Go's zero time, which is 0 here and which IsZero tests for.
 */
module Anomaly {
  import opened Prelude

  const HOUR: int := 3_600_000_000_000

  datatype Config = Config(cooldown: int, maxPerHour: int, sustainFor: int)

  /** What the notifier would answer if asked. */
  datatype Reply = NoNotifier | Refused | Accepted

  datatype Observation = Observation(breached: bool, sustain: bool, detail: string, now: int, reply: Reply)

  datatype State = State(active: bool, startedAt: int, breachedAt: int, lastNotified: int,
                         sentThisHour: int, hourStart: int, detail: string)

  datatype Outcome = SuppressedCooldown | SuppressedCeiling | NoOneToTell | Failed | Sent

  /** One call of `send`: forced for RESOLVED, with the body it carries. */
  datatype Attempt = Attempt(forced: bool, body: string, outcome: Outcome)

  // ---- one (type, scope) pair -----------------------------------------------

  function Fresh(now: int): State { State(false, 0, 0, 0, 0, now, "") }

  function Roll(st: State, now: int): State {
    if now - st.hourStart >= HOUR then st.(hourStart := now, sentThisHour := 0) else st
  }

  function Gate(cfg: Config, st: State, now: int, forced: bool, reply: Reply): Outcome {
    if !forced && st.lastNotified != 0 && now - st.lastNotified < cfg.cooldown then SuppressedCooldown
    else if !forced && st.sentThisHour >= cfg.maxPerHour then SuppressedCeiling
    else match reply
      case NoNotifier => NoOneToTell
      case Refused => Failed
      case Accepted => Sent
  }

  function SendSpec(cfg: Config, st: State, now: int, forced: bool, reply: Reply): (State, Outcome) {
    var rolled := Roll(st, now);
    var out := Gate(cfg, rolled, now, forced, reply);
    (if out == Sent then rolled.(lastNotified := now, sentThisHour := rolled.sentThisHour + 1) else rolled, out)
  }

  /** An unforced notification may go out: the cooldown has passed and the window has room. */
  predicate MaySend(cfg: Config, st: State, now: int) {
    && (st.lastNotified == 0 || now - st.lastNotified >= cfg.cooldown)
    && (if now - st.hourStart >= HOUR then 0 else st.sentThisHour) < cfg.maxPerHour
  }

  /**
   A notification goes out exactly when the notifier takes it and it is forced or may be sent. It then sets the cooldown
   and counts in its window, which is a new one once an hour has passed. Nothing else of the state changes.
   */
  lemma SentExactly(cfg: Config, st: State, now: int, forced: bool, reply: Reply)
    ensures var (after, out) := SendSpec(cfg, st, now, forced, reply);
      var late := now - st.hourStart >= HOUR;
      && (out == Sent <==> reply == Accepted && (forced || MaySend(cfg, st, now)))
      && (out in {SuppressedCooldown, SuppressedCeiling} <==> !forced && !MaySend(cfg, st, now))
      && after == st.(lastNotified := after.lastNotified, sentThisHour := after.sentThisHour,
                      hourStart := after.hourStart)
      && after.hourStart == (if late then now else st.hourStart)
      && after.lastNotified == (if out == Sent then now else st.lastNotified)
      && after.sentThisHour == (if late then 0 else st.sentThisHour) + if out == Sent then 1 else 0
  {
  }

  function Breach(st: State, o: Observation): State {
    st.(detail := o.detail, breachedAt := if st.breachedAt == 0 then o.now else st.breachedAt)
  }

  predicate Sustained(cfg: Config, st: State, o: Observation) {
    !o.sustain || o.now - st.breachedAt >= cfg.sustainFor
  }

  function Step(cfg: Config, st: State, o: Observation): (State, Option<Attempt>) {
    if !o.breached then
      var cleared := st.(breachedAt := 0);
      if !st.active then (cleared, None)
      else
        var (after, out) := SendSpec(cfg, cleared.(active := false), o.now, true, o.reply);
        (after, Some(Attempt(true, st.detail, out)))
    else
      var b := Breach(st, o);
      if !Sustained(cfg, b, o) then (b, None)
      else
        var up := if b.active then b else b.(active := true, startedAt := b.breachedAt);
        var (after, out) := SendSpec(cfg, up, o.now, false, o.reply);
        (after, Some(Attempt(false, o.detail, out)))
  }

  // ---- the detector ---------------------------------------------------------

  /** The five anomaly types, as the text they are. */
  const TYPES: set<string> :=
    {"lag_threshold", "dispatch_drop_rate", "source_unavailable", "entries_trimmed", "log_list_depth"}

  function Key(kind: string, scope: string): string { kind + "|" + scope }

  function StateBefore(states: map<string, State>, key: string, now: int): State {
    if key in states then states[key] else Fresh(now)
  }

  class Detector {
    const cfg: Config
    var states: map<string, State>

    constructor (cfg: Config)
      ensures this.cfg == cfg && states == map[]
    {
      this.cfg, states := cfg, map[];
    }

    /** Applies the cooldown and the hourly ceiling before notifying. */
    method Send(st: State, now: int, force: bool, reply: Reply) returns (after: State, out: Outcome)
      ensures (after, out) == SendSpec(cfg, st, now, force, reply)
    {
      after := st;
      if now - after.hourStart >= HOUR {
        after := after.(hourStart := now, sentThisHour := 0);
      }
      if !force {
        if after.lastNotified != 0 && now - after.lastNotified < cfg.cooldown {
          return after, SuppressedCooldown;
        }
        if after.sentThisHour >= cfg.maxPerHour {
          return after, SuppressedCeiling;
        }
      }
      if reply == NoNotifier {
        return after, NoOneToTell;
      }
      if reply == Refused {
        return after, Failed;
      }
      after := after.(lastNotified := now, sentThisHour := after.sentThisHour + 1);
      return after, Sent;
    }

    /** Records the current truth of one condition. Only that condition's state changes. */
    method Observe(kind: string, scope: string, o: Observation) returns (attempt: Option<Attempt>)
      modifies this
      ensures var (after, tried) := Step(cfg, StateBefore(old(states), Key(kind, scope), o.now), o);
        states == old(states)[Key(kind, scope) := after] && attempt == tried
    {
      var key := Key(kind, scope);
      var st := if key in states then states[key] else Fresh(o.now);
      attempt := None;
      if !o.breached {
        st := st.(breachedAt := 0);
        if st.active {
          st := st.(active := false);
          var body := st.detail;
          var out;
          st, out := Send(st, o.now, true, o.reply);
          attempt := Some(Attempt(true, body, out));
        }
        states := states[key := st];
        return;
      }
      st := st.(detail := o.detail);
      if st.breachedAt == 0 {
        st := st.(breachedAt := o.now);
      }
      if o.sustain && o.now - st.breachedAt < cfg.sustainFor {
        states := states[key := st];
        return;
      }
      if !st.active {
        st := st.(active := true, startedAt := st.breachedAt);
      }
      var out;
      st, out := Send(st, o.now, false, o.reply);
      attempt := Some(Attempt(false, o.detail, out));
      states := states[key := st];
    }

    /** How many anomalies are active, over all pairs seen. */
    method Active() returns (n: nat)
      ensures n == |set k | k in states && states[k].active|
    {
      n := 0;
      var left := states.Keys;
      ghost var done := {};
      while left != {}
        invariant left + done == states.Keys && left !! done
        invariant n == |set k | k in done && states[k].active|
        decreases |left|
      {
        var k :| k in left;
        ghost var counted := set j | j in done && states[j].active;
        left := left - {k};
        done := done + {k};
        if states[k].active {
          n := n + 1;
          assert (set j | j in done && states[j].active) == counted + {k};
        } else {
          assert (set j | j in done && states[j].active) == counted;
        }
      }
      assert done == states.Keys;
    }
  }

  // ---- the history of one pair ----------------------------------------------

  function Before(cfg: Config, h: seq<Observation>, now: int): State
    decreases |h|, 1
  {
    if h == [] then Fresh(now) else After(cfg, h)
  }

  function After(cfg: Config, h: seq<Observation>): State
    requires h != []
    decreases |h|, 0
  {
    Step(cfg, Before(cfg, h[..|h| - 1], h[|h| - 1].now), h[|h| - 1]).0
  }

  /** What the last observation of a history tried to send. */
  function Tried(cfg: Config, h: seq<Observation>): Option<Attempt>
    requires h != []
  {
    Step(cfg, Before(cfg, h[..|h| - 1], h[|h| - 1].now), h[|h| - 1]).1
  }

  datatype Notice = Notice(at: int, forced: bool)

  /** The notifications that went out, in order. */
  function Notices(cfg: Config, h: seq<Observation>): seq<Notice> {
    if h == [] then [] else
    var t := Tried(cfg, h);
    Notices(cfg, h[..|h| - 1]) +
    (if t.Some? && t.value.outcome == Sent then [Notice(h[|h| - 1].now, t.value.forced)] else [])
  }

  /** The times of those that were not RESOLVED messages. */
  function Unforced(cfg: Config, h: seq<Observation>): seq<int> {
    if h == [] then [] else
    var t := Tried(cfg, h);
    Unforced(cfg, h[..|h| - 1]) +
    (if t.Some? && t.value.outcome == Sent && !t.value.forced then [h[|h| - 1].now] else [])
  }

  /** Observations come in time order, after the zero time. */
  ghost predicate Ordered(h: seq<Observation>) {
    (forall i :: 0 <= i < |h| ==> h[i].now > 0) && forall i, j :: 0 <= i < j < |h| ==> h[i].now <= h[j].now
  }
}
