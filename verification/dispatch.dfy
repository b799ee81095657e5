/**
 Sending one envelope to every destination of an agent.
 */
module Dispatch {
  import opened Prelude
  import opened Retry

  /** `reason` is the drop counter's reason, empty for a delivered envelope. */
  datatype Outcome = Outcome(dest: string, attempts: int, delivered: bool, reason: string)

  function OutcomeOf(p: Policy, dest: string, play: Play): Outcome
    requires !VerdictOf(p, play).Panicked?
  {
    match VerdictOf(p, play)
    case Sent(n) => Outcome(dest, n, true, "")
    case Lost(n, failure) => Outcome(dest, n, false, ReasonLabel(failure))
  }

  datatype Sending = Sending(outcomes: seq<Outcome>, panicked: bool)

  /** The outcomes destination by destination; a jitter panic ends the sending. */
  function SendTo(p: Policy, dests: seq<string>, plays: seq<Play>): (r: Sending)
    requires |plays| == |dests|
    ensures |r.outcomes| <= |dests| && (r.panicked <==> |r.outcomes| < |dests|)
  {
    if dests == [] then Sending([], false) else
    var n := |dests| - 1;
    var before := SendTo(p, dests[..n], plays[..n]);
    if before.panicked || VerdictOf(p, plays[n]).Panicked? then before.(panicked := true)
    else Sending(before.outcomes + [OutcomeOf(p, dests[n], plays[n])], false)
  }

  /** Each outcome names its destination and is decided by that destination alone, whatever the others did. */
  lemma {:induction false} OutcomesIndependent(p: Policy, dests: seq<string>, plays: seq<Play>, i: nat)
    requires |plays| == |dests| && i < |SendTo(p, dests, plays).outcomes|
    ensures !VerdictOf(p, plays[i]).Panicked?
    ensures SendTo(p, dests, plays).outcomes[i] == OutcomeOf(p, dests[i], plays[i])
  {
    var n := |dests| - 1;
    if i < |SendTo(p, dests[..n], plays[..n]).outcomes| {
      OutcomesIndependent(p, dests[..n], plays[..n], i);
    }
  }

  /** The sending ends at the first destination whose dispatch panics, if any. */
  ghost predicate EndsAtPanic(p: Policy, plays: seq<Play>, n: nat, panicked: bool) {
    && n <= |plays| && (forall i :: 0 <= i < n ==> !VerdictOf(p, plays[i]).Panicked?)
    && (if panicked then n < |plays| && VerdictOf(p, plays[n]).Panicked? else n == |plays|)
  }

  lemma {:induction false} SendingEnds(p: Policy, dests: seq<string>, plays: seq<Play>)
    requires |plays| == |dests|
    ensures var r := SendTo(p, dests, plays); EndsAtPanic(p, plays, |r.outcomes|, r.panicked)
  {
    if dests != [] {
      var n := |dests| - 1;
      SendingEnds(p, dests[..n], plays[..n]);
      EndsLater(p, plays, n, SendTo(p, dests[..n], plays[..n]));
    }
  }

  lemma EndsLater(p: Policy, plays: seq<Play>, n: nat, before: Sending)
    requires |plays| == n + 1 && EndsAtPanic(p, plays[..n], |before.outcomes|, before.panicked)
    ensures var panics := VerdictOf(p, plays[n]).Panicked?;
      if before.panicked || panics then EndsAtPanic(p, plays, |before.outcomes|, true)
      else EndsAtPanic(p, plays, |before.outcomes| + 1, false)
  {
    assert forall i :: 0 <= i < n ==> plays[..n][i] == plays[i];
  }

  /**
   What each outcome says of its destination's own attempts, and where the sending ends: at the first destination whose
   dispatch panics, if any.
   */
  lemma OutcomesTellAttempts(p: Policy, dests: seq<string>, plays: seq<Play>)
    requires |plays| == |dests|
    ensures var r := SendTo(p, dests, plays);
      && EndsAtPanic(p, plays, |r.outcomes|, r.panicked)
      && forall i :: 0 <= i < |r.outcomes| ==> Tells(r.outcomes[i], p, dests[i], plays[i])
  {
    SendingEnds(p, dests, plays);
    forall i | 0 <= i < |SendTo(p, dests, plays).outcomes|
      ensures Tells(SendTo(p, dests, plays).outcomes[i], p, dests[i], plays[i])
    {
      OutcomeTells(p, dests, plays, i);
    }
  }

  lemma OutcomeTells(p: Policy, dests: seq<string>, plays: seq<Play>, i: nat)
    requires |plays| == |dests| && i < |SendTo(p, dests, plays).outcomes|
    ensures Tells(SendTo(p, dests, plays).outcomes[i], p, dests[i], plays[i])
  {
    OutcomesIndependent(p, dests, plays, i);
    DoEndsExactly(p, plays[i]);
  }

  /** Delivered exactly when the last attempt was accepted; else dropped, as permanent exactly when it was refused. */
  ghost predicate Tells(o: Outcome, p: Policy, dest: string, play: Play) {
    var n := |Observed(p, play)|;
    && o.dest == dest && o.attempts == (if p.maxAttempts > 0 then n else p.maxAttempts)
    && (o.delivered <==> n > 0 && play.reply(n - 1) == Accepted)
    && o.reason == if o.delivered then ""
                   else if n > 0 && play.reply(n - 1) == Failed(Some(Permanent)) then "permanent"
                   else "budget_exhausted"
  }

  /** With safe backoffs every destination is reached. */
  lemma {:induction false} SendReachesAll(p: Policy, dests: seq<string>, plays: seq<Play>)
    requires |plays| == |dests| && SafeBackoff(p)
    ensures !SendTo(p, dests, plays).panicked
  {
    if dests != [] {
      SendReachesAll(p, dests[..|dests| - 1], plays[..|dests| - 1]);
      NeverPanics(p, plays[|dests| - 1]);
    }
  }

  /** A panic on the way leaves the outcomes as they were. */
  lemma {:induction false} PanicSticks(p: Policy, dests: seq<string>, plays: seq<Play>, i: nat)
    requires |plays| == |dests| && i <= |dests| && SendTo(p, dests[..i], plays[..i]).panicked
    ensures SendTo(p, dests, plays) == SendTo(p, dests[..i], plays[..i])
  {
    var n := |dests| - 1;
    if i <= n {
      assert dests[..n][..i] == dests[..i] && plays[..n][..i] == plays[..i];
      PanicSticks(p, dests[..n], plays[..n], i);
    } else {
      assert dests[..i] == dests && plays[..i] == plays;
    }
  }

  /** How many of the outcomes were dropped under a reason. */
  function Drops(outcomes: seq<Outcome>, reason: string): nat {
    if outcomes == [] then 0 else
    var o := outcomes[|outcomes| - 1];
    Drops(outcomes[..|outcomes| - 1], reason) + (if !o.delivered && o.reason == reason then 1 else 0)
  }

  /** The drop counters agree with the outcomes. */
  ghost predicate Counts(dropped: map<string, nat>, outcomes: seq<Outcome>) {
    forall reason :: (if reason in dropped then dropped[reason] else 0) == Drops(outcomes, reason)
  }

  function TotalElapsed(p: Policy, plays: seq<Play>): int {
    if plays == [] then 0 else TotalElapsed(p, plays[..|plays| - 1]) + Elapsed(p, plays[|plays| - 1])
  }

  lemma SendNext(p: Policy, dests: seq<string>, plays: seq<Play>, i: nat)
    requires i < |dests| == |plays|
    ensures var before := SendTo(p, dests[..i], plays[..i]);
      SendTo(p, dests[..i + 1], plays[..i + 1]) ==
        if before.panicked || VerdictOf(p, plays[i]).Panicked? then before.(panicked := true)
        else Sending(before.outcomes + [OutcomeOf(p, dests[i], plays[i])], false)
    ensures TotalElapsed(p, plays[..i + 1]) == TotalElapsed(p, plays[..i]) + Elapsed(p, plays[i])
  {
    assert dests[..i + 1][..i] == dests[..i] && plays[..i + 1][..i] == plays[..i];
  }

  /** `dropped` holds what the drop counters gain. */
  method Send(p: Policy, dests: seq<string>, plays: seq<Play>)
    returns (outcomes: seq<Outcome>, dropped: map<string, nat>, elapsed: int, panicked: bool)
    requires |plays| == |dests|
    ensures Sending(outcomes, panicked) == SendTo(p, dests, plays)
    ensures Counts(dropped, outcomes)
    ensures !panicked ==> elapsed == TotalElapsed(p, plays)
  {
    outcomes := [];
    dropped := map[];
    elapsed := 0;
    panicked := false;
    for i := 0 to |dests|
      invariant SendTo(p, dests[..i], plays[..i]) == Sending(outcomes, false)
      invariant Counts(dropped, outcomes)
      invariant elapsed == TotalElapsed(p, plays[..i])
    {
      var verdict, observed, took := Do(p, plays[i]);
      elapsed := elapsed + took;
      SendNext(p, dests, plays, i);
      if verdict.Panicked? {
        PanicSticks(p, dests, plays, i + 1);
        panicked := true;
        return;
      }
      var out, counted := Settle(dests[i], verdict, dropped, outcomes);
      outcomes := outcomes + [out];
      dropped := counted;
    }
    assert dests[..|dests|] == dests && plays[..|dests|] == plays;
  }

  /** The outcome of one dispatch, counted if it was dropped. */
  method Settle(dest: string, verdict: Verdict, dropped: map<string, nat>, ghost before: seq<Outcome>)
    returns (out: Outcome, counted: map<string, nat>)
    requires !verdict.Panicked? && Counts(dropped, before)
    ensures out.dest == dest && out.attempts == verdict.attempts && out.delivered == verdict.Sent?
    ensures out.reason == if verdict.Lost? then ReasonLabel(verdict.failure) else ""
    ensures Counts(counted, before + [out])
  {
    counted := dropped;
    if verdict.Sent? {
      out := Outcome(dest, verdict.attempts, true, "");
    } else {
      var reason := ReasonLabel(verdict.failure);
      out := Outcome(dest, verdict.attempts, false, reason);
      counted := dropped[reason := 1 + if reason in dropped then dropped[reason] else 0];
    }
    assert (before + [out])[..|before|] == before;
  }

  /** Every envelope is resolved within the budget of its destinations, delivered or dropped. */
  lemma {:induction false} SendWithinBudget(p: Policy, plays: seq<Play>)
    requires SafeBackoff(p) && forall i :: 0 <= i < |plays| ==> InTime(p, plays[i])
    ensures 0 <= TotalElapsed(p, plays) <= |plays| * Budget(p)
  {
    if plays != [] {
      SendWithinBudget(p, plays[..|plays| - 1]);
      DoWithinBudget(p, plays[|plays| - 1]);
      OneMore(|plays| - 1, Budget(p));
    }
  }

  lemma OneMore(n: nat, b: int)
    ensures (n + 1) * b == n * b + b
  {
  }
}
