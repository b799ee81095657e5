/**
 The bounded-loss retry policy: attempts, exponential backoff in int64, full jitter.
 */
module Retry {
  import opened Prelude

  const TWO_64: int := 0x1_0000_0000_0000_0000

  predicate IsInt64(x: int) { -MAX_INT64 - 1 <= x <= MAX_INT64 }

  /** Two's complement wrap-around of the sum of two int64 values. */
  function Wrap(x: int): int {
    if x > MAX_INT64 then x - TWO_64 else if x < -MAX_INT64 - 1 then x + TWO_64 else x
  }

  function Min(a: int, b: int): int { if a < b then a else b }

  function Max(a: int, b: int): int { if a < b then b else a }

  // ---- status classes -------------------------------------------------------

  datatype Kind = Transient | Permanent

  /** The kind of a failed status, and whether the status is a success. */
  function ClassifyStatus(status: int): (Kind, bool) {
    if 200 <= status < 300 then (Transient, true)
    else if status == 408 || status == 429 then (Transient, false)
    else if status >= 500 then (Transient, false)
    else if status >= 400 then (Permanent, false)
    else (Transient, false)
  }

  /** What one call to a destination returned. An error that carries no dispatch error has no kind. */
  datatype Reply = Accepted | Failed(kind: Option<Kind>)

  function ReplyOf(status: int): Reply {
    var (kind, ok) := ClassifyStatus(status);
    if ok then Accepted else Failed(Some(kind))
  }

  predicate Rejected(r: Reply) { r == Failed(Some(Permanent)) }

  predicate Decisive(r: Reply) { r == Accepted || Rejected(r) }

  /**
   Retrying stops on 2xx and on 4xx other than 408 and 429 (sections 15.3 and 15.5 of RFC 9110, section 4 of RFC
   6585).
   */
  lemma DecisiveStatuses(status: int)
    ensures ReplyOf(status) == Accepted <==> status / 100 == 2
    ensures Rejected(ReplyOf(status)) <==> status / 100 == 4 && status !in {408, 429}
  {
  }

  // ---- the policy -----------------------------------------------------------

  datatype Policy = Policy(maxAttempts: int, timeout: int, backoffInitial: int, backoffMax: int)

  /**
   One dispatch as the world plays it: attempt i gets `reply(i)` after `took(i)`, then waits `waited(i)` or is
   cancelled.
   */
  datatype Play = Play(reply: nat -> Reply, took: nat -> int, waited: nat -> int, cancelled: nat -> bool)

  /** The error `Do` wraps, with the kind of the dispatch error in its chain. */
  datatype Failure = PermanentFailure | Exhausted(last: Option<Reply>) | Cancelled

  datatype Verdict = Sent(attempts: int) | Lost(attempts: int, failure: Failure) | Panicked

  /** The backoff before retry number i + 1. */
  function Backoff(p: Policy, i: nat): int {
    if i == 0 then p.backoffInitial else
    var doubled := Wrap(2 * Backoff(p, i - 1));
    if doubled > p.backoffMax then p.backoffMax else doubled
  }

  /** rand.Int64N panics unless its argument, backoff + 1 in int64, is positive. */
  predicate JitterOk(b: int) { Wrap(b + 1) > 0 }

  /** Why the loop does not go past attempt i. */
  predicate StopsAt(p: Policy, play: Play, i: nat) {
    Decisive(play.reply(i)) || i == p.maxAttempts - 1 || !JitterOk(Backoff(p, i)) || play.cancelled(i)
  }

  function VerdictAt(p: Policy, play: Play, i: nat): Verdict {
    if play.reply(i) == Accepted then Sent(i + 1)
    else if Rejected(play.reply(i)) then Lost(i + 1, PermanentFailure)
    else if i == p.maxAttempts - 1 then Lost(p.maxAttempts, Exhausted(Some(play.reply(i))))
    else if !JitterOk(Backoff(p, i)) then Panicked
    else Lost(i + 1, Cancelled)
  }

  function Label(r: Reply): string {
    if r == Accepted then "delivered" else if Rejected(r) then "permanent" else "transient"
  }

  /** Time of the first n attempts and of the waits after the first m of them. */
  function Attempts(play: Play, n: nat): int {
    if n == 0 then 0 else Attempts(play, n - 1) + play.took(n - 1)
  }

  function Waits(play: Play, m: nat): int {
    if m == 0 then 0 else Waits(play, m - 1) + play.waited(m - 1)
  }

  /** The last attempt: the first one that stops. */
  function LastAttempt(p: Policy, play: Play, i: nat := 0): (k: nat)
    requires i < p.maxAttempts
    ensures i <= k < p.maxAttempts && StopsAt(p, play, k) && forall j :: i <= j < k ==> !StopsAt(p, play, j)
    decreases p.maxAttempts - i
  {
    if StopsAt(p, play, i) then i else LastAttempt(p, play, i + 1)
  }

  function VerdictOf(p: Policy, play: Play): Verdict {
    if p.maxAttempts <= 0 then Lost(p.maxAttempts, Exhausted(None)) else VerdictAt(p, play, LastAttempt(p, play))
  }

  function Labels(play: Play, n: nat): (labels: seq<string>)
    ensures |labels| == n && forall i :: 0 <= i < n ==> labels[i] == Label(play.reply(i))
  {
    if n == 0 then [] else Labels(play, n - 1) + [Label(play.reply(n - 1))]
  }

  /** One label per attempt. */
  function Observed(p: Policy, play: Play): seq<string> {
    if p.maxAttempts <= 0 then [] else Labels(play, LastAttempt(p, play) + 1)
  }

  /** A cancelled dispatch is charged the wait it was cancelled in. */
  function Elapsed(p: Policy, play: Play): int {
    if p.maxAttempts <= 0 then 0 else
    var k := LastAttempt(p, play);
    Attempts(play, k + 1) + Waits(play, WaitsUsed(p, play, k))
  }

  function WaitsUsed(p: Policy, play: Play, k: nat): (m: nat)
    ensures k < p.maxAttempts ==> m < p.maxAttempts
  {
    var v := VerdictAt(p, play, k);
    if v.Lost? && v.failure == Cancelled then k + 1 else k
  }

  /** The retry loop, with the observer's labels and the time it took. */
  method Do(p: Policy, play: Play) returns (v: Verdict, observed: seq<string>, elapsed: int)
    ensures v == VerdictOf(p, play) && observed == Observed(p, play) && elapsed == Elapsed(p, play)
  {
    var backoff := p.backoffInitial;
    var attempt := 1;
    observed := [];
    elapsed := 0;
    var last := None;
    ghost var k := if p.maxAttempts > 0 then LastAttempt(p, play) else 0;
    while attempt <= p.maxAttempts
      invariant 1 <= attempt && (attempt <= p.maxAttempts || (attempt == 1 && p.maxAttempts <= 0))
      invariant backoff == Backoff(p, attempt - 1)
      invariant p.maxAttempts > 0 ==> attempt - 1 <= k
      invariant observed == Labels(play, attempt - 1)
      invariant elapsed == Attempts(play, attempt - 1) + Waits(play, attempt - 1)
      invariant attempt == 1 ==> last == None
      decreases p.maxAttempts - attempt
    {
      var reply := play.reply(attempt - 1);
      elapsed := elapsed + play.took(attempt - 1);
      observed := observed + [Label(reply)];
      assert StopsAt(p, play, attempt - 1) <==> attempt - 1 == k;
      if reply == Accepted {
        return Sent(attempt), observed, elapsed;
      }
      last := Some(reply);
      if Rejected(reply) {
        return Lost(attempt, PermanentFailure), observed, elapsed;
      }
      if attempt == p.maxAttempts {
        return Lost(p.maxAttempts, Exhausted(last)), observed, elapsed;
      }
      if !JitterOk(backoff) {
        return Panicked, observed, elapsed;
      }
      elapsed := elapsed + play.waited(attempt - 1);
      if play.cancelled(attempt - 1) {
        return Lost(attempt, Cancelled), observed, elapsed;
      }
      backoff := Wrap(2 * backoff);
      if backoff > p.backoffMax {
        backoff := p.backoffMax;
      }
      attempt := attempt + 1;
    }
    return Lost(p.maxAttempts, Exhausted(last)), observed, elapsed;
  }

  // ---- how many attempts ----------------------------------------------------

  /** The number of calls a policy that may retry n times makes: up to and including the first decisive reply. */
  function Calls(reply: nat -> Reply, n: nat): (c: nat)
    ensures c <= n && (n > 0 ==> c > 0)
    ensures forall i :: 0 <= i < c - 1 ==> !Decisive(reply(i))
    ensures c < n ==> Decisive(reply(c - 1))
  {
    if n == 0 then 0 else
    var c := Calls(reply, n - 1);
    if c > 0 && Decisive(reply(c - 1)) then c else n
  }

  /** One of the first m backoffs is refused by the jitter. */
  ghost predicate RefusedBefore(p: Policy, m: int) { exists i :: 0 <= i < m && !JitterOk(Backoff(p, i)) }

  /** Where an uncancelled loop ends: at the last of those calls, or earlier at a backoff that is refused. */
  lemma LastCall(p: Policy, play: Play)
    requires p.maxAttempts > 0 && forall i :: !play.cancelled(i)
    ensures var k, c := LastAttempt(p, play), Calls(play.reply, p.maxAttempts);
      && k <= c - 1 && (k < c - 1 <==> RefusedBefore(p, c - 1)) && (VerdictOf(p, play).Panicked? <==> k < c - 1)
  {
    var k, c := LastAttempt(p, play), Calls(play.reply, p.maxAttempts);
    assert StopsAt(p, play, c - 1);
    if RefusedBefore(p, c - 1) {
      var i :| 0 <= i < c - 1 && !JitterOk(Backoff(p, i));
      assert StopsAt(p, play, i);
    }
  }

  /**
   Without cancellation a policy makes exactly that many calls, unless a backoff on the way to the last of them is
   refused by the jitter, which panics. All calls but the last are transient, the last one decides the verdict, and the
   drop label is "permanent" exactly when it was.
   */
  lemma DoCallsExactly(p: Policy, play: Play)
    requires forall i :: !play.cancelled(i)
    ensures var labels := Observed(p, play);
      var v := VerdictOf(p, play);
      var c := Calls(play.reply, Max(p.maxAttempts, 0));
      && (v.Panicked? <==> RefusedBefore(p, c - 1))
      && (if v.Panicked? then |labels| < c else |labels| == c)
      && (forall i :: 0 <= i < |labels| - (if v.Panicked? then 0 else 1) ==> labels[i] == "transient")
      && (p.maxAttempts <= 0 ==> v.Lost? && v.attempts == p.maxAttempts && ReasonLabel(v.failure) == "budget_exhausted")
      && (p.maxAttempts > 0 && !v.Panicked? ==> Decides(v, labels))
  {
    if p.maxAttempts > 0 {
      LastCall(p, play);
    }
  }

  /** The last label decides the verdict. */
  predicate Decides(v: Verdict, labels: seq<string>)
    requires labels != []
  {
    && (v == Sent(|labels|) <==> labels[|labels| - 1] == "delivered")
    && (v.Sent? || (v.Lost? && v.attempts == |labels|
                    && (ReasonLabel(v.failure) == "permanent" <==> labels[|labels| - 1] == "permanent")))
  }

  /** The drop label: whether a permanent dispatch error is in the chain. */
  function ReasonLabel(f: Failure): string {
    match f
    case PermanentFailure => "permanent"
    case Exhausted(last) => if last.Some? && Rejected(last.value) then "permanent" else "budget_exhausted"
    case Cancelled => "budget_exhausted"
  }

  // ---- every play, cancelled or not ---------------------------------------------

  /** The labels name the replies of the first n attempts. */
  ghost predicate Names(labels: seq<string>, play: Play, n: nat) {
    |labels| == n && forall i :: 0 <= i < n ==>
      && (labels[i] == "delivered" <==> play.reply(i) == Accepted)
      && (labels[i] == "permanent" <==> play.reply(i) == Failed(Some(Permanent)))
      && labels[i] in {"delivered", "permanent", "transient"}
  }

  /** The loop ends after n attempts: none before the last was decisive, was refused a backoff or was cancelled. */
  ghost predicate EndsAfter(p: Policy, play: Play, n: nat) {
    && 0 < n <= p.maxAttempts
    && (forall i :: 0 <= i < n - 1 ==>
        play.reply(i) != Accepted && play.reply(i) != Failed(Some(Permanent)) && !play.cancelled(i))
    && (n < p.maxAttempts && play.reply(n - 1) != Accepted && play.reply(n - 1) != Failed(Some(Permanent)) ==>
        play.cancelled(n - 1) || Wrap(Backoff(p, n - 1) + 1) <= 0)
  }

  /**
   How every dispatch ends, cancelled or not. It is sent exactly when its last attempt was accepted, and it is lost to
   cancellation only short of its budget, on a reply that decides nothing, which counts as an exhausted budget. No
   attempt follows a cancelled one.
   */
  lemma DoEndsExactly(p: Policy, play: Play)
    ensures var v, labels := VerdictOf(p, play), Observed(p, play);
      var n := |labels|;
      && Names(labels, play, n)
      && (p.maxAttempts <= 0 ==> n == 0 && v.Lost? && v.attempts == p.maxAttempts)
      && (p.maxAttempts > 0 ==> EndsAfter(p, play, n))
      && (v.Sent? <==> n > 0 && play.reply(n - 1) == Accepted)
      && (v.Sent? || (v.Lost? && p.maxAttempts > 0) ==> v.attempts == n)
      && (v.Lost? ==>
          (ReasonLabel(v.failure) == "permanent" <==> n > 0 && play.reply(n - 1) == Failed(Some(Permanent))))
      && (v.Lost? ==> ReasonLabel(v.failure) in {"permanent", "budget_exhausted"})
      && (v.Panicked? <==> 0 < n < p.maxAttempts && !Decisive(play.reply(n - 1)) && Wrap(Backoff(p, n - 1) + 1) <= 0)
  {
    if p.maxAttempts > 0 {
      forall i | 0 <= i < LastAttempt(p, play) ensures !Decisive(play.reply(i)) && !play.cancelled(i) {
        assert !StopsAt(p, play, i);
      }
    }
  }

  /** Short of its budget, on a reply that decides nothing, a dispatch that does not panic was cancelled and is lost. */
  lemma CancelledIsLost(p: Policy, play: Play)
    requires var n := |Observed(p, play)|; 0 < n < p.maxAttempts && !Decisive(play.reply(n - 1))
    requires !VerdictOf(p, play).Panicked?
    ensures var n := |Observed(p, play)|;
      && play.cancelled(n - 1) && VerdictOf(p, play) == Lost(n, Cancelled)
      && ReasonLabel(VerdictOf(p, play).failure) == "budget_exhausted"
  {
  }

  /** The time it takes: every attempt, and a wait after each but the last, or after the last too if cancelled in it. */
  lemma ElapsedExactly(p: Policy, play: Play)
    ensures var n := |Observed(p, play)|;
      var v := VerdictOf(p, play);
      Elapsed(p, play) == Attempts(play, n) +
        Waits(play, if v.Lost? && v.failure.Cancelled? then n else if n > 0 then n - 1 else 0)
  {
  }

  // ---- int64 safety ---------------------------------------------------------

  function Pow2(n: nat): (r: nat)
    ensures r >= 1
  {
    if n == 0 then 1 else 2 * Pow2(n - 1)
  }

  lemma {:induction false} Pow2Monotone(a: nat, b: nat)
    requires a <= b
    ensures Pow2(a) <= Pow2(b)
  {
    if a < b {
      Pow2Monotone(a, b - 1);
    }
  }

  lemma Double(a: int, b: nat)
    ensures a * (2 * b) == 2 * (a * b) && (a >= 0 ==> a * b >= 0)
  {
  }

  const HALF: int := MAX_INT64 / 2

  /**
   When the loop can use its backoffs: none with one attempt, only the initial one with two, and with more they also
   have to double safely up to the last but one.
   */
  predicate SafeBackoff(p: Policy) {
    || p.maxAttempts <= 1
    || (p.maxAttempts == 2 && 0 <= p.backoffInitial < MAX_INT64)
    || (&& p.maxAttempts > 2 && 0 <= p.backoffInitial <= HALF && 0 <= p.backoffMax
        && (p.backoffMax <= HALF || p.backoffInitial * Pow2(p.maxAttempts - 3) <= HALF))
  }

  /** The i-th backoff: the initial one, then doubled and capped. */
  function Capped(p: Policy, i: nat): int {
    if i == 0 then p.backoffInitial else Min(p.backoffInitial * Pow2(i), p.backoffMax)
  }

  /** The jitter bound doubles from the initial value up to the cap. */
  lemma {:induction false} BackoffClosedForm(p: Policy, i: nat)
    requires SafeBackoff(p) && i < p.maxAttempts - 1
    ensures Backoff(p, i) == Capped(p, i)
    ensures p.backoffInitial <= p.backoffMax ==> Backoff(p, i) == Min(p.backoffInitial * Pow2(i), p.backoffMax)
  {
    if i > 0 {
      BackoffClosedForm(p, i - 1);
      Double(p.backoffInitial, Pow2(i - 1));
      HalfBefore(p, i - 1);
    }
  }

  /** Before the last, a backoff is at most half of int64, so that it can be doubled. */
  lemma HalfBefore(p: Policy, i: nat)
    requires SafeBackoff(p) && i < p.maxAttempts - 2
    ensures 0 <= Capped(p, i) <= HALF
  {
    Double(p.backoffInitial, Pow2(i));
    Pow2Monotone(i, p.maxAttempts - 3);
    MulMonotone(Pow2(i), Pow2(p.maxAttempts - 3), p.backoffInitial);
    Commute(p.backoffInitial, Pow2(i), Pow2(p.maxAttempts - 3));
  }

  lemma Commute(a: int, b: int, c: int)
    ensures a * b == b * a && a * c == c * a
  {
  }

  /** Every backoff the loop uses is a bound the jitter accepts. */
  lemma SafeBackoffBounds(p: Policy, i: nat)
    requires SafeBackoff(p) && i < p.maxAttempts - 1
    ensures 0 <= Backoff(p, i) < MAX_INT64 && Backoff(p, i) <= Max(p.backoffInitial, p.backoffMax)
    ensures JitterOk(Backoff(p, i))
  {
    BackoffClosedForm(p, i);
    Double(p.backoffInitial, Pow2(i));
    if i > 0 {
      HalfBefore(p, i - 1);
      Double(p.backoffInitial, Pow2(i - 1));
    }
  }

  /** Past half of int64 a backoff doubles into a negative number, which the jitter refuses. */
  lemma {:induction false} Overflows(p: Policy, i: nat, n: nat) returns (k: nat)
    requires HALF < p.backoffMax <= MAX_INT64 && 0 <= p.backoffInitial <= HALF
    requires i <= n && p.backoffInitial * Pow2(n) > HALF && Backoff(p, i) == p.backoffInitial * Pow2(i) <= HALF
    ensures k <= n + 1 && !JitterOk(Backoff(p, k))
    decreases n - i
  {
    Double(p.backoffInitial, Pow2(i));
    if i + 1 == n || Backoff(p, i + 1) > HALF {
      k := i + 2;
    } else {
      k := Overflows(p, i + 1, n);
    }
  }

  /** Without them some backoff that the loop can reach is refused. */
  lemma UnsafeBackoff(p: Policy) returns (k: nat)
    requires IsInt64(p.backoffInitial) && IsInt64(p.backoffMax) && !SafeBackoff(p)
    ensures k < p.maxAttempts - 1 && !JitterOk(Backoff(p, k))
  {
    k := 0;
    assert Backoff(p, 0) == p.backoffInitial;
    if JitterOk(p.backoffInitial) {
      if p.backoffInitial > HALF || p.backoffMax < 0 {
        k := 1;
      } else {
        Double(p.backoffInitial, Pow2(0));
        k := Overflows(p, 0, p.maxAttempts - 3);
      }
    }
  }

  /** A destination that never answers well, and nobody cancels. */
  const HOPELESS: Play := Play(_ => Failed(None), _ => 0, _ => 0, _ => false)

  lemma HopelessPanics(p: Policy, k: nat)
    requires k < p.maxAttempts - 1 && !JitterOk(Backoff(p, k))
    ensures VerdictOf(p, HOPELESS).Panicked?
  {
    var last := LastAttempt(p, HOPELESS);
    assert StopsAt(p, HOPELESS, k);
    assert last <= k;
  }

  /** With safe backoffs the jitter never panics. */
  lemma NeverPanics(p: Policy, play: Play)
    requires SafeBackoff(p)
    ensures !VerdictOf(p, play).Panicked?
  {
    if p.maxAttempts > 0 {
      var k := LastAttempt(p, play);
      if k < p.maxAttempts - 1 {
        SafeBackoffBounds(p, k);
      }
    }
  }

  /** No dispatch under a policy panics, whatever the destination does, exactly when its backoffs are safe. */
  lemma SafeBackoffExactly(p: Policy)
    requires IsInt64(p.backoffInitial) && IsInt64(p.backoffMax)
    ensures SafeBackoff(p) <==> forall play :: !VerdictOf(p, play).Panicked?
  {
    if SafeBackoff(p) {
      forall play ensures !VerdictOf(p, play).Panicked? {
        NeverPanics(p, play);
      }
    } else {
      var k := UnsafeBackoff(p);
      HopelessPanics(p, k);
    }
  }

  lemma {:induction false} PowAbove(j: nat)
    ensures Pow2(j) > j
  {
    if j > 0 {
      PowAbove(j - 1);
    }
  }

  /** Safe for every number of attempts: bounds that are at most half of int64, or nothing to double. */
  lemma SafeForAllBudgetsExactly(p: Policy)
    requires IsInt64(p.backoffInitial) && IsInt64(p.backoffMax)
    ensures (forall n :: SafeBackoff(p.(maxAttempts := n))) <==>
      0 <= p.backoffInitial <= HALF && 0 <= p.backoffMax && (p.backoffMax <= HALF || p.backoffInitial == 0)
  {
    if forall n :: SafeBackoff(p.(maxAttempts := n)) {
      assert SafeBackoff(p.(maxAttempts := 3));
      var n: int :| n == HALF + 3;
      assert SafeBackoff(p.(maxAttempts := n));
      PowAbove(n - 3);
      if p.backoffInitial > 0 {
        MulMonotone(1, p.backoffInitial, Pow2(n - 3));
      }
    }
  }

  // ---- how long -------------------------------------------------------------

  /** Each attempt keeps its timeout and each wait is a jitter of its backoff. */
  ghost predicate InTime(p: Policy, play: Play) {
    && (forall i: nat :: 0 <= play.took(i) <= p.timeout)
    && (forall i: nat :: i < p.maxAttempts - 1 ==> 0 <= play.waited(i) <= Backoff(p, i))
  }

  lemma {:induction false} AttemptsBound(p: Policy, play: Play, n: nat)
    requires InTime(p, play)
    ensures 0 <= Attempts(play, n) <= n * p.timeout
  {
    if n > 0 {
      AttemptsBound(p, play, n - 1);
      assert n * p.timeout == (n - 1) * p.timeout + p.timeout;
    }
  }

  lemma {:induction false} WaitsBound(p: Policy, play: Play, m: nat)
    requires InTime(p, play) && SafeBackoff(p) && m <= p.maxAttempts - 1
    ensures 0 <= Waits(play, m) <= m * Max(p.backoffInitial, p.backoffMax)
  {
    if m > 0 {
      var b := Max(p.backoffInitial, p.backoffMax);
      WaitsBound(p, play, m - 1);
      SafeBackoffBounds(p, m - 1);
      assert m * b == (m - 1) * b + b;
    }
  }

  /** The most one dispatch may take. */
  function Budget(p: Policy): int
  {
    if p.maxAttempts <= 0 then 0
    else p.maxAttempts * p.timeout + (p.maxAttempts - 1) * Max(p.backoffInitial, p.backoffMax)
  }

  lemma AttemptsWithin(p: Policy, play: Play, n: nat)
    requires InTime(p, play) && n <= p.maxAttempts
    ensures 0 <= Attempts(play, n) <= p.maxAttempts * p.timeout
  {
    assert 0 <= play.took(0) <= p.timeout;
    AttemptsBound(p, play, n);
    MulMonotone(n, p.maxAttempts, p.timeout);
  }

  lemma WaitsWithin(p: Policy, play: Play, m: nat)
    requires InTime(p, play) && SafeBackoff(p) && m <= p.maxAttempts - 1
    ensures 0 <= Waits(play, m) <= (p.maxAttempts - 1) * Max(p.backoffInitial, p.backoffMax)
  {
    WaitsBound(p, play, m);
    if p.maxAttempts > 1 {
      SafeBackoffBounds(p, 0);
      MulMonotone(m, p.maxAttempts - 1, Max(p.backoffInitial, p.backoffMax));
    }
  }

  /** One dispatch never outlasts its budget: a hanging destination cannot pin an agent. */
  lemma DoWithinBudget(p: Policy, play: Play)
    requires InTime(p, play) && SafeBackoff(p)
    ensures 0 <= Elapsed(p, play) <= Budget(p)
  {
    if p.maxAttempts > 0 {
      var k := LastAttempt(p, play);
      NeverPanics(p, play);
      var m := WaitsUsed(p, play, k);
      AttemptsWithin(p, play, k + 1);
      WaitsWithin(p, play, m);
    }
  }

  lemma MulMonotone(a: int, b: int, c: int)
    requires a <= b && 0 <= c
    ensures a * c <= b * c
  {
    assert (b - a) * c >= 0;
  }
}
