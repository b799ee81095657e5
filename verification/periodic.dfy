/**
 The periodic agent: a ticker loop, an overlap guard, a wait group, and the workers it starts.
 */
module Periodic {

  /** Where the loop is: at its select, past the compare-and-swap, in the wait group's Wait, or back from Run. */
  datatype Point = Select | Claimed | Waiting | Returned

  /** A worker: in its task, out of it, with its outcome counted, with the guard cleared, and done. */
  datatype Worker = Busy | Ended(failed: bool) | Counted | Cleared | Gone

  datatype Counters = Counters(ticks: nat, starts: nat, skips: nat, ok: nat, failed: nat, silent: nat)

  datatype Sys = Sys(at: Point, inFlight: bool, group: int, cancelled: bool, workers: seq<Worker>, n: Counters)

  /** One atomic step of the loop, of worker `i`, or of the context. */
  datatype Event =
    | Tick | Launch | Cancel | Leave | Return
    | End(i: nat, failed: bool) | Count(i: nat) | Clear(i: nat) | Exit(i: nat)

  const INITIAL: Sys := Sys(Select, false, 0, false, [], Counters(0, 0, 0, 0, 0, 0))

  /** A failed run is not counted once the context is cancelled; a successful one always is. */
  function Counting(n: Counters, failed: bool, cancelled: bool): Counters {
    if failed && !cancelled then n.(failed := n.failed + 1)
    else if !failed then n.(ok := n.ok + 1)
    else n.(silent := n.silent + 1)
  }

  function Swap(s: Sys): Sys {
    var n := s.n.(ticks := s.n.ticks + 1);
    if s.inFlight then s.(n := n.(skips := n.skips + 1))
    else s.(at := Claimed, inFlight := true, n := n.(starts := n.starts + 1))
  }

  /** One step. An event nothing is ready for changes nothing. */
  function Step(s: Sys, e: Event): Sys {
    match e
    case Tick => if s.at.Select? then Swap(s) else s
    case Launch => if s.at.Claimed? then s.(at := Select, group := s.group + 1, workers := s.workers + [Busy]) else s
    case Cancel => s.(cancelled := true)
    case Leave => if s.at.Select? && s.cancelled then s.(at := Waiting) else s
    case Return => if s.at.Waiting? && s.group == 0 then s.(at := Returned) else s
    case End(i, failed) =>
      if i < |s.workers| && s.workers[i].Busy? then s.(workers := s.workers[i := Ended(failed)]) else s
    case Count(i) =>
      if i < |s.workers| && s.workers[i].Ended? then
        s.(workers := s.workers[i := Counted], n := Counting(s.n, s.workers[i].failed, s.cancelled))
      else s
    case Clear(i) =>
      if i < |s.workers| && s.workers[i].Counted? then s.(inFlight := false, workers := s.workers[i := Cleared]) else s
    case Exit(i) =>
      if i < |s.workers| && s.workers[i].Cleared? then s.(group := s.group - 1, workers := s.workers[i := Gone]) else s
  }

  function After(h: seq<Event>): Sys {
    if h == [] then INITIAL else Step(After(h[..|h| - 1]), h[|h| - 1])
  }

  lemma AfterSnoc(h: seq<Event>, e: Event)
    ensures After(h + [e]) == Step(After(h), e)
  {
    assert (h + [e])[..|h|] == h;
  }

  // ---- what every interleaving keeps ------------------------------------------

  predicate Past(w: Worker) { w.Cleared? || w.Gone? }

  function Live(ws: seq<Worker>): nat {
    if ws == [] then 0 else Live(ws[..|ws| - 1]) + if ws[|ws| - 1].Gone? then 0 else 1
  }

  function Uncounted(ws: seq<Worker>): nat {
    if ws == [] then 0 else Uncounted(ws[..|ws| - 1]) + if ws[|ws| - 1].Busy? || ws[|ws| - 1].Ended? then 1 else 0
  }

  /** Runs are serial: only the latest worker may still hold the guard, and the guard says whether one does. */
  ghost predicate Serial(s: Sys) {
    && (forall i :: 0 <= i < |s.workers| - 1 ==> Past(s.workers[i]))
    && (s.at.Claimed? ==> forall i :: 0 <= i < |s.workers| ==> Past(s.workers[i]))
    && (s.inFlight <==> s.at.Claimed? || (s.workers != [] && !Past(s.workers[|s.workers| - 1])))
  }

  ghost predicate Accounted(s: Sys) {
    && s.n.ticks == s.n.starts + s.n.skips
    && s.n.starts == |s.workers| + (if s.at.Claimed? then 1 else 0)
    && |s.workers| == s.n.ok + s.n.failed + s.n.silent + Uncounted(s.workers)
    && s.group == Live(s.workers)
    && (s.at.Returned? ==> s.group == 0) && (s.at.Waiting? || s.at.Returned? ==> s.cancelled)
  }

  lemma {:induction false} Updated(ws: seq<Worker>, i: nat, w: Worker)
    requires i < |ws|
    ensures Live(ws[i := w]) == Live(ws) + (if w.Gone? then 0 else 1) - (if ws[i].Gone? then 0 else 1)
    ensures Uncounted(ws[i := w]) == Uncounted(ws)
      + (if w.Busy? || w.Ended? then 1 else 0) - (if ws[i].Busy? || ws[i].Ended? then 1 else 0)
  {
    var last := |ws| - 1;
    if i == last {
      assert ws[i := w][..last] == ws[..last];
    } else {
      Updated(ws[..last], i, w);
      assert ws[i := w][..last] == ws[..last][i := w];
    }
  }

  lemma SerialStep(s: Sys, e: Event)
    requires Serial(s)
    ensures Serial(Step(s, e))
  {
  }

  predicate OfWorker(e: Event) { e.End? || e.Count? || e.Clear? || e.Exit? }

  lemma WorkerAccounted(s: Sys, e: Event)
    requires Accounted(s) && OfWorker(e) && e.i < |s.workers|
    ensures Accounted(Step(s, e))
  {
    Updated(s.workers, e.i, Step(s, e).workers[e.i]);
  }

  lemma AccountedStep(s: Sys, e: Event)
    requires Accounted(s)
    ensures Accounted(Step(s, e))
  {
    if OfWorker(e) && e.i < |s.workers| {
      WorkerAccounted(s, e);
    } else if e.Launch? {
      assert (s.workers + [Busy])[..|s.workers|] == s.workers;
    }
  }

  lemma {:induction false} Invariant(h: seq<Event>)
    ensures Serial(After(h)) && Accounted(After(h))
  {
    if h != [] {
      Invariant(h[..|h| - 1]);
      SerialStep(After(h[..|h| - 1]), h[|h| - 1]);
      AccountedStep(After(h[..|h| - 1]), h[|h| - 1]);
    }
  }

  /** No two of the workers hold the guard. */
  ghost predicate AtMostOne(ws: seq<Worker>) {
    forall i, j :: 0 <= i < |ws| && 0 <= j < |ws| && !Past(ws[i]) && !Past(ws[j]) ==> i == j
  }

  /** At most one task is ever running, and a tick starts one exactly when none holds the guard. */
  lemma NoOverlap(h: seq<Event>)
    ensures var s := After(h);
      && AtMostOne(s.workers)
      && (s.at.Select? ==>
          (Step(s, Tick).n.starts == s.n.starts + 1 <==> forall i :: 0 <= i < |s.workers| ==> Past(s.workers[i])))
  {
    Invariant(h);
  }

  /** Every tick received was a start or a skip, and every start ends up counted once at most. */
  lemma TicksAddUp(h: seq<Event>)
    ensures var n := After(h).n; n.ticks == n.starts + n.skips && n.ok + n.failed + n.silent <= n.starts
  {
    Invariant(h);
  }

  // ---- what is counted ----------------------------------------------------------

  /** The last event counts a worker whose task ended that way. */
  predicate CountsLast(h: seq<Event>, failed: bool)
    requires h != []
  {
    var ws, e := After(h[..|h| - 1]).workers, h[|h| - 1];
    e.Count? && e.i < |ws| && ws[e.i] == Ended(failed)
  }

  /** How many workers that ended that way were counted after the context was cancelled, or before. */
  function Outcomes(h: seq<Event>, failed: bool, cancelled: bool): nat {
    if h == [] then 0 else
    var before := h[..|h| - 1];
    Outcomes(before, failed, cancelled) + if CountsLast(h, failed) && (Cancel in before) == cancelled then 1 else 0
  }

  /** Every success is counted as one, a failure as one only before cancellation, and the rest silently. */
  lemma {:induction false} CountsAreOutcomes(h: seq<Event>)
    ensures var s := After(h);
      && s.n.ok == Outcomes(h, false, false) + Outcomes(h, false, true)
      && s.n.failed == Outcomes(h, true, false) && s.n.silent == Outcomes(h, true, true)
      && (s.cancelled <==> Cancel in h)
  {
    if h != [] {
      CountsAreOutcomes(h[..|h| - 1]);
      CountStep(After(h[..|h| - 1]), h[|h| - 1]);
      assert h == h[..|h| - 1] + [h[|h| - 1]];
    }
  }

  lemma CountStep(s: Sys, e: Event)
    ensures var n := Step(s, e).n;
      var counts := e.Count? && e.i < |s.workers| && s.workers[e.i].Ended?;
      var failed := counts && s.workers[e.i].failed;
      && n.ok == s.n.ok + (if counts && !failed then 1 else 0)
      && n.failed == s.n.failed + (if failed && !s.cancelled then 1 else 0)
      && n.silent == s.n.silent + (if failed && s.cancelled then 1 else 0)
      && (Step(s, e).cancelled <==> s.cancelled || e.Cancel?)
  {
  }

  /** Worker i was busy when its task ended that way. */
  ghost predicate EndedWith(h: seq<Event>, i: nat, failed: bool) {
    exists m :: 0 <= m < |h| && Ends(h, m, i, failed)
  }

  ghost predicate Ends(h: seq<Event>, m: nat, i: nat, failed: bool)
    requires m < |h|
  {
    h[m] == End(i, failed) && i < |After(h[..m]).workers| && After(h[..m]).workers[i].Busy?
  }

  /** How a worker is counted is how its task ended. */
  lemma {:induction false} OutcomeIsEnd(h: seq<Event>, i: nat)
    requires i < |After(h).workers| && After(h).workers[i].Ended?
    ensures EndedWith(h, i, After(h).workers[i].failed)
  {
    var before, e, failed := h[..|h| - 1], h[|h| - 1], After(h).workers[i].failed;
    if e == End(i, failed) && i < |After(before).workers| && After(before).workers[i].Busy? {
      assert Ends(h, |before|, i, failed);
    } else {
      OutcomeIsEnd(before, i);
      var m :| 0 <= m < |before| && Ends(before, m, i, failed);
      assert before[..m] == h[..m];
      assert Ends(h, m, i, failed);
    }
  }

  lemma {:induction false} NoneLive(ws: seq<Worker>)
    requires Live(ws) == 0
    ensures Uncounted(ws) == 0 && forall i :: 0 <= i < |ws| ==> ws[i].Gone?
  {
    if ws != [] {
      NoneLive(ws[..|ws| - 1]);
      assert forall i :: 0 <= i < |ws| - 1 ==> ws[..|ws| - 1][i] == ws[i];
    }
  }

  /** When Run is back, every worker it started is done and counted, the guard is clear, and nothing moves again. */
  lemma ReturnIsQuiet(h: seq<Event>, e: Event)
    requires After(h).at.Returned?
    ensures var s := After(h);
      && (forall i :: 0 <= i < |s.workers| ==> s.workers[i].Gone?) && !s.inFlight
      && s.n.starts == |s.workers| == s.n.ok + s.n.failed + s.n.silent
      && Step(s, e) == s
  {
    Invariant(h);
    NoneLive(After(h).workers);
  }

  // ---- no deadlock ------------------------------------------------------------

  /** The steps a worker still has to take. */
  function Left(w: Worker): nat {
    match w
    case Busy => 4
    case Ended(_) => 3
    case Counted => 2
    case Cleared => 1
    case Gone => 0
  }

  function Work(ws: seq<Worker>): nat {
    if ws == [] then 0 else Work(ws[..|ws| - 1]) + Left(ws[|ws| - 1])
  }

  lemma {:induction false} WorkUpdated(ws: seq<Worker>, i: nat, w: Worker)
    requires i < |ws|
    ensures Work(ws[i := w]) == Work(ws) + Left(w) - Left(ws[i])
  {
    var last := |ws| - 1;
    if i == last {
      assert ws[i := w][..last] == ws[..last];
    } else {
      WorkUpdated(ws[..last], i, w);
      assert ws[i := w][..last] == ws[..last][i := w];
    }
  }

  function LiveIndex(ws: seq<Worker>): (i: nat)
    requires Live(ws) > 0
    ensures i < |ws| && !ws[i].Gone?
  {
    if !ws[|ws| - 1].Gone? then |ws| - 1 else LiveIndex(ws[..|ws| - 1])
  }

  function Distance(s: Sys): nat {
    (match s.at case Claimed => 7 case Select => 2 case Waiting => 1 case Returned => 0)
    + (if s.cancelled then 0 else 1) + Work(s.workers)
  }

  /** A step towards the end of Run. */
  function Next(s: Sys): Event
    requires Accounted(s)
  {
    if !s.cancelled then Cancel
    else if s.at.Claimed? then Launch
    else if s.at.Select? then Leave
    else if s.group == 0 then Return
    else
      var i := LiveIndex(s.workers);
      match s.workers[i]
      case Busy => End(i, false)
      case Ended(_) => Count(i)
      case Counted => Clear(i)
      case _ => Exit(i)
  }

  lemma NextIsCloser(s: Sys)
    requires Accounted(s) && !s.at.Returned?
    ensures Distance(Step(s, Next(s))) < Distance(s)
  {
    if s.cancelled && s.at.Claimed? {
      assert (s.workers + [Busy])[..|s.workers|] == s.workers;
    } else if s.cancelled && s.at.Waiting? && s.group != 0 {
      var i := LiveIndex(s.workers);
      WorkUpdated(s.workers, i, Step(s, Next(s)).workers[i]);
    }
  }

  lemma Onward(h: seq<Event>) returns (e: Event)
    requires !After(h).at.Returned?
    ensures Distance(After(h + [e])) < Distance(After(h))
  {
    Invariant(h);
    e := Next(After(h));
    NextIsCloser(After(h));
    AfterSnoc(h, e);
  }

  /** Run never gets stuck: after any history, some continuation brings it back. */
  lemma CanReturn(h: seq<Event>) returns (more: seq<Event>)
    ensures After(h + more).at.Returned?
  {
    more := Heading(h, Distance(After(h)));
  }

  ghost predicate Near(h: seq<Event>, n: nat) { Distance(After(h)) <= n }

  lemma NearStep(h: seq<Event>, n: nat) returns (e: Event)
    requires Near(h, n) && !After(h).at.Returned?
    ensures n > 0 && Near(h + [e], n - 1)
  {
    e := Onward(h);
  }

  lemma {:induction false} Heading(h: seq<Event>, n: nat) returns (more: seq<Event>)
    requires Near(h, n)
    ensures After(h + more).at.Returned?
    decreases n
  {
    if After(h).at.Returned? {
      more := [];
      assert h + more == h;
    } else {
      var e := NearStep(h, n);
      var rest := Heading(h + [e], n - 1);
      more := [e] + rest;
      Regroup(h, e, rest);
    }
  }

  lemma Regroup(h: seq<Event>, e: Event, rest: seq<Event>)
    ensures h + ([e] + rest) == h + [e] + rest
  {
  }

  // ---- unfinished workers ------------------------------------------------------

  /** `n` runs whose workers have cleared the guard but not yet left the wait group. */
  function Slow(n: nat): seq<Event> {
    if n == 0 then [] else
    Slow(n - 1) + [Tick] + [Launch] + [End(n - 1, false)] + [Count(n - 1)] + [Clear(n - 1)]
  }

  ghost predicate Lingering(s: Sys, n: nat) {
    s.at.Select? && !s.inFlight && |s.workers| == n && s.group == n && forall i :: 0 <= i < n ==> s.workers[i].Cleared?
  }

  function Round(s: Sys, n: nat): Sys {
    Step(Step(Step(Step(Step(s, Tick), Launch), End(n, false)), Count(n)), Clear(n))
  }

  lemma RoundLingers(s: Sys, n: nat)
    requires Lingering(s, n)
    ensures Lingering(Round(s, n), n + 1)
  {
  }

  lemma SlowStep(n: nat)
    ensures After(Slow(n + 1)) == Round(After(Slow(n)), n)
  {
    var h := Slow(n);
    AfterSnoc(h, Tick);
    AfterSnoc(h + [Tick], Launch);
    AfterSnoc(h + [Tick] + [Launch], End(n, false));
    AfterSnoc(h + [Tick] + [Launch] + [End(n, false)], Count(n));
    AfterSnoc(h + [Tick] + [Launch] + [End(n, false)] + [Count(n)], Clear(n));
  }

  /** The guard bounds the tasks running, not the workers: any number can be unfinished in the wait group at once. */
  lemma {:induction false} UnfinishedUnbounded(n: nat)
    ensures Lingering(After(Slow(n)), n)
  {
    if n > 0 {
      UnfinishedUnbounded(n - 1);
      SlowStep(n - 1);
      RoundLingers(After(Slow(n - 1)), n - 1);
    }
  }

  // ---- the agent itself --------------------------------------------------------

  /** The agent's shared state, changed by the loop's and the workers' steps. */
  class PeriodicAgent {
    var at: Point
    var inFlight: bool
    var group: int
    var cancelled: bool
    var workers: seq<Worker>
    var n: Counters

    function State(): Sys
      reads this
    {
      Sys(at, inFlight, group, cancelled, workers, n)
    }

    constructor ()
      ensures State() == INITIAL
    {
      at, inFlight, group, cancelled, workers := Select, false, 0, false, [];
      n := Counters(0, 0, 0, 0, 0, 0);
    }

    method CompareAndSwap() returns (won: bool)
      modifies this`inFlight
      ensures won == !old(inFlight) && inFlight
    {
      won := !inFlight;
      inFlight := true;
    }

    method OnTick()
      requires at.Select?
      modifies this
      ensures State() == Step(old(State()), Tick)
    {
      n := n.(ticks := n.ticks + 1);
      var won := CompareAndSwap();
      if !won {
        n := n.(skips := n.skips + 1);
        return;
      }
      n := n.(starts := n.starts + 1);
      at := Claimed;
    }

    method Go()
      requires at.Claimed?
      modifies this
      ensures State() == Step(old(State()), Launch)
    {
      group := group + 1;
      workers := workers + [Busy];
      at := Select;
    }

    method Record(i: nat)
      requires i < |workers| && workers[i].Ended?
      modifies this
      ensures State() == Step(old(State()), Count(i))
    {
      if workers[i].failed && !cancelled {
        n := n.(failed := n.failed + 1);
      } else if !workers[i].failed {
        n := n.(ok := n.ok + 1);
      } else {
        n := n.(silent := n.silent + 1);
      }
      workers := workers[i := Counted];
    }

    /** The two deferred calls of a worker, the guard first. */
    method Deferred(i: nat)
      requires i < |workers| && (workers[i].Counted? || workers[i].Cleared?)
      modifies this
      ensures State() == Step(old(State()), if old(workers)[i].Counted? then Clear(i) else Exit(i))
    {
      if workers[i].Counted? {
        inFlight := false;
        workers := workers[i := Cleared];
      } else {
        group := group - 1;
        workers := workers[i := Gone];
      }
    }

    /**
     The loop and its workers under any schedule. At most one worker holds the guard, every tick was a start or a
     skip, and once the loop is back no worker is left and the guard is clear.
     */
    method Run(schedule: seq<Event>)
      requires State() == INITIAL
      modifies this
      ensures State() == After(schedule)
      ensures AtMostOne(workers)
      ensures n.ticks == n.starts + n.skips
      ensures at.Returned? ==> !inFlight && forall i :: 0 <= i < |workers| ==> workers[i].Gone?
    {
      for k := 0 to |schedule|
        invariant State() == After(schedule[..k])
      {
        assert schedule[..k + 1] == schedule[..k] + [schedule[k]];
        AfterSnoc(schedule[..k], schedule[k]);
        OnEvent(schedule[k]);
      }
      assert schedule[..|schedule|] == schedule;
      NoOverlap(schedule);
      TicksAddUp(schedule);
      if at.Returned? {
        ReturnIsQuiet(schedule, Tick);
      }
    }

    method OnEvent(e: Event)
      modifies this
      ensures State() == Step(old(State()), e)
    {
      match e
      case Tick => if at.Select? { OnTick(); }
      case Launch => if at.Claimed? { Go(); }
      case Cancel => cancelled := true;
      case Leave => if at.Select? && cancelled { at := Waiting; }
      case Return => if at.Waiting? && group == 0 { at := Returned; }
      case End(i, failed) => if i < |workers| && workers[i].Busy? { workers := workers[i := Ended(failed)]; }
      case Count(i) => if i < |workers| && workers[i].Ended? { Record(i); }
      case Clear(i) => if i < |workers| && workers[i].Counted? { Deferred(i); }
      case Exit(i) => if i < |workers| && workers[i].Cleared? { Deferred(i); }
    }
  }
}
