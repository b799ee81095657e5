/**
 The supervisor: every agent has a goroutine that runs it, restarts it with backoff, and records its condition.
 */
module Supervisor {
  import opened Prelude
  import opened Retry

  const RESTART_BACKOFF_MAX: int := 30 * SECOND
  const DEGRADED_AFTER: int := 3

  datatype State = Configured | Running | Recovering | Degraded | Draining | Stopped

  datatype Status = Status(state: State, lastErr: string, panics: nat, restarts: nat)

  /** How one call of the agent ended. */
  datatype Result = Clean | Error(err: string) | Panic(value: string)

  /** Where the goroutine is: each step between two of these is what other goroutines can see. */
  datatype Point = Top | Inside | Ran(result: Result) | Failing(err: string) | Waiting | Done

  /**
   The loop's variables and the status it owns. `runs` are the results judged before cancellation and `waits` the
   backoffs slept after them; neither is read by a step.
   */
  datatype Loop = Loop(at: Point, backoff: int, consecutive: nat, status: Status, runs: seq<Result>, waits: seq<int>)

  /** What the scheduler, the agent and the context do to one goroutine. */
  datatype Event = Check(cancelled: bool) | Return(result: Result) | Judge(cancelled: bool) | Mark | Wake | Interrupt

  function Start(initial: int): Loop { Loop(Top, initial, 0, Status(Configured, "", 0, 0), [], []) }

  function ErrorOf(r: Result): string
    requires !r.Clean?
  {
    if r.Error? then r.err else "panic: " + r.value
  }

  function Doubled(backoff: int): int {
    var d := Wrap(2 * backoff);
    if d > RESTART_BACKOFF_MAX then RESTART_BACKOFF_MAX else d
  }

  function Stop(l: Loop): Loop { l.(at := Done, status := l.status.(state := Stopped)) }

  /** One step of a goroutine. An event it is not ready for changes nothing. */
  function Step(initial: int, l: Loop, e: Event): Loop {
    match (l.at, e)
    case (Top, Check(cancelled)) =>
      if cancelled then Stop(l) else l.(at := Inside, status := l.status.(state := Running))
    case (Inside, Return(r)) =>
      l.(at := Ran(r), status := l.status.(panics := l.status.panics + if r.Panic? then 1 else 0))
    case (Ran(r), Judge(cancelled)) =>
      if cancelled then Stop(l)
      else if r.Clean? then
        l.(at := Waiting, consecutive := 0, backoff := initial, runs := l.runs + [r], waits := l.waits + [initial])
      else
        l.(at := Failing(ErrorOf(r)), consecutive := l.consecutive + 1, runs := l.runs + [r],
           status := l.status.(restarts := l.status.restarts + 1))
    case (Failing(err), Mark) =>
      l.(at := Waiting, waits := l.waits + [l.backoff],
         status := l.status.(state := if l.consecutive >= DEGRADED_AFTER then Degraded else Recovering, lastErr := err))
    case (Waiting, Wake) => l.(at := Top, backoff := Doubled(l.backoff))
    case (Waiting, Interrupt) => Stop(l)
    case (_, _) => l
  }

  /** The goroutine after a sequence of events. */
  function After(initial: int, h: seq<Event>): Loop {
    if h == [] then Start(initial) else Step(initial, After(initial, h[..|h| - 1]), h[|h| - 1])
  }

  lemma AfterSnoc(initial: int, h: seq<Event>, e: Event)
    ensures After(initial, h + [e]) == Step(initial, After(initial, h), e)
  {
    assert (h + [e])[..|h|] == h;
  }

  // ---- what a status says about the runs so far -------------------------------

  /** The latest run at or before `i` that returned cleanly, or the first run. */
  function Anchor(runs: seq<Result>, i: nat): (c: nat)
    requires i < |runs|
    ensures c <= i && (c == 0 || runs[c].Clean?) && forall k :: c < k <= i ==> !runs[k].Clean?
  {
    if i == 0 || runs[i].Clean? then i else Anchor(runs, i - 1)
  }

  function Failures(runs: seq<Result>): nat {
    if runs == [] then 0 else Failures(runs[..|runs| - 1]) + if runs[|runs| - 1].Clean? then 0 else 1
  }

  function Panics(runs: seq<Result>): nat {
    if runs == [] then 0 else Panics(runs[..|runs| - 1]) + if runs[|runs| - 1].Panic? then 1 else 0
  }

  /** The length of the run of failures at the end. */
  function Streak(runs: seq<Result>): nat {
    if runs == [] || runs[|runs| - 1].Clean? then 0 else Streak(runs[..|runs| - 1]) + 1
  }

  function LastError(runs: seq<Result>): string {
    if runs == [] then "" else
    if runs[|runs| - 1].Clean? then LastError(runs[..|runs| - 1]) else ErrorOf(runs[|runs| - 1])
  }

  /** The state shown while the goroutine waits after its last run. */
  function Shown(runs: seq<Result>): State {
    if runs == [] then Configured
    else if Streak(runs) == 0 then Running
    else if Streak(runs) >= DEGRADED_AFTER then Degraded
    else Recovering
  }

  /** What the runs judged so far make of the status. A run that ends in a panic after cancellation is counted too. */
  ghost predicate StatusOk(l: Loop) {
    && l.consecutive == Streak(l.runs) && l.status.restarts == Failures(l.runs)
    && (l.at.Done? ==> Panics(l.runs) <= l.status.panics <= Panics(l.runs) + 1)
    && (!l.at.Done? ==> l.status.panics == Panics(l.runs) + if l.at.Ran? && l.at.result.Panic? then 1 else 0)
    && (l.at.Failing? ==>
        && l.runs != [] && !l.runs[|l.runs| - 1].Clean? && l.at.err == ErrorOf(l.runs[|l.runs| - 1])
        && l.status.lastErr == LastError(l.runs[..|l.runs| - 1]))
    && (!l.at.Failing? ==> l.status.lastErr == LastError(l.runs))
    && (l.at.Waiting? ==> l.runs != [])
    && l.status.state == match l.at {
        case Top => Shown(l.runs)
        case Waiting => Shown(l.runs)
        case Done => Stopped
        case _ => Running
      }
  }

  /** What one more run does to the counts of the runs. */
  lemma RunsSnoc(runs: seq<Result>, r: Result)
    ensures Failures(runs + [r]) == Failures(runs) + if r.Clean? then 0 else 1
    ensures Panics(runs + [r]) == Panics(runs) + if r.Panic? then 1 else 0
    ensures Streak(runs + [r]) == if r.Clean? then 0 else Streak(runs) + 1
    ensures LastError(runs + [r]) == if r.Clean? then LastError(runs) else ErrorOf(r)
  {
    assert (runs + [r])[..|runs|] == runs;
  }

  lemma StatusJudged(initial: int, l: Loop, e: Event)
    requires StatusOk(l) && l.at.Ran? && e == Judge(false)
    ensures StatusOk(Step(initial, l, e))
  {
    RunsSnoc(l.runs, l.at.result);
    assert (l.runs + [l.at.result])[..|l.runs|] == l.runs;
  }

  lemma StatusStep(initial: int, l: Loop, e: Event)
    requires StatusOk(l)
    ensures StatusOk(Step(initial, l, e))
  {
    if l.at.Ran? && e == Judge(false) {
      StatusJudged(initial, l, e);
    }
  }

  lemma FewerPanicsThanFailures(runs: seq<Result>)
    ensures Panics(runs) <= Failures(runs)
  {
  }

  /** The status is a function of the judged runs and of where the goroutine is, at every step of every history. */
  lemma {:induction false} StatusIsHistory(initial: int, h: seq<Event>)
    ensures StatusOk(After(initial, h)) && After(initial, h).status.panics <= After(initial, h).status.restarts + 1
  {
    if h != [] {
      StatusIsHistory(initial, h[..|h| - 1]);
      StatusStep(initial, After(initial, h[..|h| - 1]), h[|h| - 1]);
    }
    FewerPanicsThanFailures(After(initial, h).runs);
  }

  /** Three failures in a row, and nothing less, are shown as degraded while the agent waits for its next run. */
  lemma DegradedExactly(initial: int, h: seq<Event>)
    requires After(initial, h).at.Waiting?
    ensures var l := After(initial, h);
      && l.runs != []
      && (l.status.state == Degraded <==>
          |l.runs| >= DEGRADED_AFTER && forall k :: |l.runs| - DEGRADED_AFTER <= k < |l.runs| ==> !l.runs[k].Clean?)
      && (l.status.state == Running <==> l.runs[|l.runs| - 1].Clean?)
      && (l.status.state in {Running, Recovering, Degraded})
  {
    StatusIsHistory(initial, h);
    StreakIsSuffix(After(initial, h).runs, DEGRADED_AFTER);
  }

  lemma {:induction false} StreakIsSuffix(runs: seq<Result>, n: nat)
    ensures Streak(runs) >= n <==> |runs| >= n && forall k :: |runs| - n <= k < |runs| ==> !runs[k].Clean?
  {
    if runs != [] && n > 0 {
      var rest := runs[..|runs| - 1];
      StreakIsSuffix(rest, n - 1);
      assert forall k :: 0 <= k < |rest| ==> rest[k] == runs[k];
    }
  }

  /** Once stopped, always stopped, with nothing more recorded; and only a stopped goroutine shows `Stopped`. */
  lemma {:induction false} StoppedIsTerminal(initial: int, h: seq<Event>, more: seq<Event>)
    requires After(initial, h).status.state == Stopped
    ensures After(initial, h + more) == After(initial, h)
  {
    StatusIsHistory(initial, h);
    if more == [] {
      assert h + more == h;
    } else {
      StoppedIsTerminal(initial, h, more[..|more| - 1]);
      assert h + more == h + more[..|more| - 1] + [more[|more| - 1]];
      AfterSnoc(initial, h + more[..|more| - 1], more[|more| - 1]);
    }
  }

  // ---- the pace of restarts ---------------------------------------------------

  /** The backoff slept `j` runs after the anchor. */
  function WaitFor(initial: int, j: nat): int { Min(initial * Pow2(j), RESTART_BACKOFF_MAX) }

  predicate Paced(initial: int) { 0 <= initial <= RESTART_BACKOFF_MAX }

  lemma WaitDoubles(initial: int, j: nat)
    requires Paced(initial)
    ensures Doubled(WaitFor(initial, j)) == WaitFor(initial, j + 1) && 0 <= WaitFor(initial, j)
  {
    Double(initial, Pow2(j));
  }

  /** The wait after run `i`, by how many runs ago the anchor was. */
  ghost predicate WaitIs(initial: int, runs: seq<Result>, i: nat, wait: int)
    requires i < |runs|
  {
    wait == WaitFor(initial, i - Anchor(runs, i))
  }

  lemma {:induction false} AnchorPrefix(runs: seq<Result>, r: Result, i: nat)
    requires i < |runs|
    ensures Anchor(runs + [r], i) == Anchor(runs, i)
  {
    if i > 0 && !runs[i].Clean? {
      AnchorPrefix(runs, r, i - 1);
    }
  }

  /** The anchor of one more run: itself when clean or first, else that of the run before. */
  lemma AnchorSnoc(runs: seq<Result>, r: Result)
    ensures Anchor(runs + [r], |runs|) == if runs == [] || r.Clean? then |runs| else Anchor(runs, |runs| - 1)
  {
    if runs != [] && !r.Clean? {
      AnchorPrefix(runs, r, |runs| - 1);
    }
  }

  /** The backoff variable, as the next wait sees it. */
  function NextWait(initial: int, runs: seq<Result>): int {
    WaitFor(initial, if runs == [] then 0 else |runs| - Anchor(runs, |runs| - 1))
  }

  ghost predicate WaitsOk(initial: int, runs: seq<Result>, waits: seq<int>) {
    |waits| <= |runs| && forall i :: 0 <= i < |waits| ==> WaitIs(initial, runs, i, waits[i])
  }

  ghost predicate PaceOk(initial: int, l: Loop) {
    && WaitsOk(initial, l.runs, l.waits)
    && (l.at.Failing? ==> |l.runs| == |l.waits| + 1 && WaitIs(initial, l.runs, |l.runs| - 1, l.backoff))
    && (!l.at.Failing? ==> |l.runs| == |l.waits|)
    && (l.at.Waiting? ==> l.runs != [] && WaitIs(initial, l.runs, |l.runs| - 1, l.backoff))
    && (l.at.Top? || l.at.Inside? || l.at.Ran? ==> l.backoff == NextWait(initial, l.runs))
  }

  lemma WaitsPrefix(initial: int, runs: seq<Result>, waits: seq<int>, r: Result)
    requires WaitsOk(initial, runs, waits)
    ensures WaitsOk(initial, runs + [r], waits)
  {
    forall i | 0 <= i < |waits| ensures WaitIs(initial, runs + [r], i, waits[i]) {
      AnchorPrefix(runs, r, i);
    }
  }

  lemma WaitsSnoc(initial: int, runs: seq<Result>, waits: seq<int>, wait: int)
    requires WaitsOk(initial, runs, waits) && |waits| + 1 == |runs| && WaitIs(initial, runs, |waits|, wait)
    ensures WaitsOk(initial, runs, waits + [wait])
  {
  }

  lemma FirstWait(initial: int)
    requires Paced(initial)
    ensures WaitFor(initial, 0) == initial
  {
  }

  lemma JudgeKeepsPace(initial: int, l: Loop)
    requires Paced(initial) && PaceOk(initial, l) && l.at.Ran?
    ensures PaceOk(initial, Step(initial, l, Judge(false)))
  {
    var r := l.at.result;
    WaitsPrefix(initial, l.runs, l.waits, r);
    AnchorSnoc(l.runs, r);
    FirstWait(initial);
    if r.Clean? {
      WaitsSnoc(initial, l.runs + [r], l.waits, initial);
    }
  }

  lemma PaceStep(initial: int, l: Loop, e: Event)
    requires Paced(initial) && PaceOk(initial, l)
    ensures PaceOk(initial, Step(initial, l, e))
  {
    match (l.at, e)
    case (Ran(_), Judge(false)) =>
      JudgeKeepsPace(initial, l);
    case (Failing(_), Mark) =>
      WaitsSnoc(initial, l.runs, l.waits, l.backoff);
    case (Waiting, Wake) =>
      WaitDoubles(initial, |l.runs| - 1 - Anchor(l.runs, |l.runs| - 1));
    case (_, _) =>
  }

  /** Every wait of every run is the initial backoff doubled once per run since the anchor, capped at 30 s. */
  lemma {:induction false} WaitsAreExponential(initial: int, h: seq<Event>)
    requires Paced(initial)
    ensures PaceOk(initial, After(initial, h))
  {
    if h == [] {
      FirstWait(initial);
    } else {
      WaitsAreExponential(initial, h[..|h| - 1]);
      PaceStep(initial, After(initial, h[..|h| - 1]), h[|h| - 1]);
    }
  }

  /** `n` failures in a row. */
  function Crashes(n: nat): seq<Event> {
    if n == 0 then [] else Crashes(n - 1) + [Check(false)] + [Return(Error(""))] + [Judge(false)] + [Mark] + [Wake]
  }

  /** A goroutine at the top, after one more run that fails. */
  function Crash(initial: int, l: Loop): (f: Loop)
    ensures l.at.Top? ==>
      && f.at.Top? && f.backoff == Doubled(l.backoff)
      && f.runs == l.runs + [Error("")] && f.waits == l.waits + [l.backoff]
  {
    var ran := Step(initial, Step(initial, l, Check(false)), Return(Error("")));
    Step(initial, Step(initial, Step(initial, ran, Judge(false)), Mark), Wake)
  }

  lemma CrashStep(initial: int, n: nat)
    ensures After(initial, Crashes(n + 1)) == Crash(initial, After(initial, Crashes(n)))
  {
    var h := Crashes(n);
    AfterSnoc(initial, h, Check(false));
    AfterSnoc(initial, h + [Check(false)], Return(Error("")));
    AfterSnoc(initial, h + [Check(false)] + [Return(Error(""))], Judge(false));
    AfterSnoc(initial, h + [Check(false)] + [Return(Error(""))] + [Judge(false)], Mark);
    AfterSnoc(initial, h + [Check(false)] + [Return(Error(""))] + [Judge(false)] + [Mark], Wake);
  }

  /** A crash loop: durations are int64 values, so every wait is one. */
  ghost predicate Crashing(l: Loop, initial: int, n: nat) {
    && l.at.Top? && IsInt64(l.backoff) && |l.runs| == |l.waits| == n
    && (if n == 0 then l.backoff == initial else l.waits[0] == initial)
    && (forall i :: 0 <= i < n ==> l.runs[i] == Error("") && IsInt64(l.waits[i]))
  }

  lemma {:induction false} CrashLoop(initial: int, n: nat)
    requires IsInt64(initial)
    ensures Crashing(After(initial, Crashes(n)), initial, n)
  {
    if n > 0 {
      CrashLoop(initial, n - 1);
      CrashStep(initial, n - 1);
    }
  }

  /** Below zero the formula leaves the int64 range after enough failures, which no wait can. */
  lemma TooLow(initial: int, j: nat)
    requires initial < 0
    ensures WaitFor(initial, j) <= -1 * Pow2(j)
  {
    Negated(initial, Pow2(j));
  }

  lemma {:induction false} PowSum(a: nat, b: nat)
    ensures Pow2(a + b) == Pow2(a) * Pow2(b)
  {
    if b > 0 {
      PowSum(a, b - 1);
      Double(Pow2(a), Pow2(b - 1));
    }
  }

  lemma Squared(a: nat, v: int, b: nat)
    requires Pow2(a) == v && b == a + a
    ensures Pow2(b) == v * v
  {
    PowSum(a, a);
  }

  /** Sixty-four doublings are more than int64 holds. */
  lemma PastInt64() returns (j: nat)
    ensures j == 64 && Pow2(j) > MAX_INT64 + 1
  {
    assert Pow2(8) == 256;
    Squared(8, 256, 16);
    Squared(16, 0x1_0000, 32);
    Squared(32, 0x1_0000_0000, 64);
    j := 64;
  }

  lemma Negated(a: int, b: int)
    requires a < 0 <= b
    ensures a * b <= -b
  {
    MulMonotone(a, -1, b);
  }

  lemma NotPaced(initial: int, j: nat)
    requires IsInt64(initial) && !Paced(initial) && (if initial < 0 then Pow2(j) > MAX_INT64 + 1 else j == 0)
    ensures !WaitsOk(initial, After(initial, Crashes(j + 1)).runs, After(initial, Crashes(j + 1)).waits)
  {
    CrashLoop(initial, j + 1);
    var l := After(initial, Crashes(j + 1));
    assert Anchor(l.runs, j) == 0;
    if initial < 0 {
      TooLow(initial, j);
    }
    assert !WaitIs(initial, l.runs, j, l.waits[j]);
  }

  /** The pace is exponential in every history exactly when the initial backoff lies between zero and the cap. */
  lemma WaitsExactly(initial: int)
    requires IsInt64(initial)
    ensures Paced(initial) <==> forall h :: WaitsOk(initial, After(initial, h).runs, After(initial, h).waits)
  {
    if Paced(initial) {
      forall h ensures WaitsOk(initial, After(initial, h).runs, After(initial, h).waits) {
        WaitsAreExponential(initial, h);
      }
    } else {
      var j := PastInt64();
      NotPaced(initial, if initial < 0 then j else 0);
    }
  }
}
