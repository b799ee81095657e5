/**
 The runner: the imperative supervise loop over a shared status record, and many of them side by side.
 */
module Runner {
  import opened Prelude
  import opened Retry
  import opened Supervisor

  /** The status record of one agent, written by its goroutine and read by health reports. */
  class Record {
    var state: State
    var lastErr: string
    var panics: nat
    var restarts: nat

    function Value(): Status
      reads this
    {
      Status(state, lastErr, panics, restarts)
    }

    constructor ()
      ensures Value() == Status(Configured, "", 0, 0)
    {
      state, lastErr, panics, restarts := Configured, "", 0, 0;
    }

    method Set(st: State)
      modifies this
      ensures Value() == old(Value()).(state := st)
    {
      state := st;
    }

    method Fail(st: State, err: string)
      modifies this
      ensures Value() == old(Value()).(state := st, lastErr := err)
    {
      state := st;
      lastErr := err;
    }
  }

  /**
   One turn of the loop as its surroundings play it: the context at each of the three looks, and the agent's result.
   */
  datatype Turn = Turn(before: bool, result: Result, during: bool, interrupted: bool)

  function TurnStep(initial: int, l: Loop, t: Turn): Loop {
    var ran := Step(initial, Step(initial, l, Check(t.before)), Return(t.result));
    Step(initial, Step(initial, Step(initial, ran, Judge(t.during)), Mark), Last(t))
  }

  function Last(t: Turn): Event { if t.interrupted then Interrupt else Wake }

  /** The events of some turns. Those a goroutine is not ready for do nothing, so each turn may list all five. */
  function EventsOf(turns: seq<Turn>): seq<Event> {
    if turns == [] then [] else
    var t := turns[|turns| - 1];
    EventsOf(turns[..|turns| - 1]) + [Check(t.before)] + [Return(t.result)] + [Judge(t.during)] + [Mark] + [Last(t)]
  }

  lemma EventsSnoc(initial: int, turns: seq<Turn>, i: nat)
    requires i < |turns|
    ensures After(initial, EventsOf(turns[..i + 1])) ==
      TurnStep(initial, After(initial, EventsOf(turns[..i])), turns[i])
  {
    var h, t := EventsOf(turns[..i]), turns[i];
    assert turns[..i + 1][..i] == turns[..i];
    AfterSnoc(initial, h, Check(t.before));
    AfterSnoc(initial, h + [Check(t.before)], Return(t.result));
    AfterSnoc(initial, h + [Check(t.before)] + [Return(t.result)], Judge(t.during));
    AfterSnoc(initial, h + [Check(t.before)] + [Return(t.result)] + [Judge(t.during)], Mark);
    AfterSnoc(initial, h + [Check(t.before)] + [Return(t.result)] + [Judge(t.during)] + [Mark], Last(t));
  }

  lemma {:induction false} DoneStays(initial: int, turns: seq<Turn>, i: nat)
    requires i <= |turns| && After(initial, EventsOf(turns[..i])).at.Done?
    ensures After(initial, EventsOf(turns)) == After(initial, EventsOf(turns[..i]))
    decreases |turns| - i
  {
    if i < |turns| {
      EventsSnoc(initial, turns, i);
      DoneStays(initial, turns, i + 1);
    } else {
      assert turns[..i] == turns;
    }
  }

  /** The context was cancelled before the agent was called, or by the time it returned. */
  predicate Cut(t: Turn) { t.before || t.during }

  /**
   The runs judged in the first i turns are the results of the first n of them, in order: those up to the first turn
   that cancellation cuts, or up to the first wait that it interrupts, which stops the goroutine. A panic in the turn
   that is cut is counted all the same.
   */
  ghost predicate Judged(l: Loop, turns: seq<Turn>, i: nat, n: nat)
    requires i <= |turns|
  {
    && n <= i && RunsAre(l.runs, turns, n)
    && (if n > 0 && turns[n - 1].interrupted then l.at.Done?
        else if n < i then l.at.Done? && Cut(turns[n])
        else l.at.Top?)
    && l.status.panics == Panics(l.runs) +
         if n < i && (n > 0 ==> !turns[n - 1].interrupted) && PanicsLate(turns[n]) then 1 else 0
  }

  /** The agent panics when the context is cancelled already. */
  predicate PanicsLate(t: Turn) { !t.before && t.result.Panic? }

  /** The results of the first n turns, none of them cut and none but the last interrupted. */
  ghost predicate RunsAre(runs: seq<Result>, turns: seq<Turn>, n: nat) {
    && |runs| == n <= |turns| && (forall j :: 0 <= j < n ==> runs[j] == turns[j].result && !Cut(turns[j]))
    && (forall j :: 0 <= j < n - 1 ==> !turns[j].interrupted)
  }

  lemma RunsAreSnoc(runs: seq<Result>, turns: seq<Turn>, n: nat)
    requires n < |turns| && RunsAre(runs, turns, n) && !Cut(turns[n]) && (n > 0 ==> !turns[n - 1].interrupted)
    ensures RunsAre(runs + [turns[n].result], turns, n + 1)
  {
  }

  /** What one turn does to a goroutine at the top of its loop. */
  ghost predicate Did(l: Loop, u: Loop, t: Turn) {
    && u.status.panics == l.status.panics + (if !t.before && t.result.Panic? then 1 else 0)
    && u.runs == (if Cut(t) then l.runs else l.runs + [t.result])
    && (if Cut(t) || t.interrupted then u.at.Done? else u.at.Top?)
  }

  lemma TurnDoes(initial: int, l: Loop, t: Turn)
    ensures l.at.Top? ==> Did(l, TurnStep(initial, l, t), t)
    ensures l.at.Done? ==> TurnStep(initial, l, t) == l
  {
  }

  lemma JudgedNext(l: Loop, u: Loop, turns: seq<Turn>, i: nat, n: nat)
    requires i < |turns| && Judged(l, turns, i, n)
    requires if l.at.Top? then Did(l, u, turns[i]) else u == l
    ensures Judged(u, turns, i + 1, if l.at.Top? && !Cut(turns[i]) then n + 1 else n)
  {
    if l.at.Top? && !Cut(turns[i]) {
      JudgedOne(l, u, turns, n);
    }
  }

  lemma JudgedOne(l: Loop, u: Loop, turns: seq<Turn>, n: nat)
    requires n < |turns| && Judged(l, turns, n, n) && l.at.Top? && Did(l, u, turns[n]) && !Cut(turns[n])
    ensures Judged(u, turns, n + 1, n + 1)
  {
    RunsAreSnoc(l.runs, turns, n);
    PanicsSnoc(l.runs, turns[n].result);
  }

  lemma PanicsSnoc(runs: seq<Result>, r: Result)
    ensures Panics(runs + [r]) == Panics(runs) + if r.Panic? then 1 else 0
  {
    assert (runs + [r])[..|runs|] == runs;
  }

  /** What a goroutine has judged after any turns, in terms of the turns alone. */
  lemma {:induction false} RunsAreTurns(initial: int, turns: seq<Turn>, i: nat) returns (n: nat)
    requires i <= |turns|
    ensures Judged(After(initial, EventsOf(turns[..i])), turns, i, n)
  {
    if i == 0 {
      n := 0;
    } else {
      n := RunsAreTurns(initial, turns, i - 1);
      var l := After(initial, EventsOf(turns[..i - 1]));
      EventsSnoc(initial, turns, i - 1);
      TurnDoes(initial, l, turns[i - 1]);
      JudgedNext(l, TurnStep(initial, l, turns[i - 1]), turns, i - 1, n);
      n := if l.at.Top? && !Cut(turns[i - 1]) then n + 1 else n;
    }
  }

  /** The goroutine's own variables, as the step system sees them between two turns. */
  ghost predicate Agrees(l: Loop, backoff: int, consecutive: nat, status: Status, waits: seq<int>) {
    l.at.Top? && l.backoff == backoff && l.consecutive == consecutive && l.status == status && l.waits == waits
  }

  class Runner {
    const backoffInitial: int
    var statuses: map<string, Record>

    constructor (backoffInitial: int)
      ensures statuses == map[] && this.backoffInitial == backoffInitial
    {
      this.backoffInitial := backoffInitial;
      statuses := map[];
    }

    /** Calls the agent; a panic becomes an ordinary error. */
    method RunOnce(st: Record, r: Result) returns (err: Option<string>)
      modifies st
      ensures st.Value() == old(st.Value()).(panics := old(st.panics) + if r.Panic? then 1 else 0)
      ensures err == if r.Clean? then None else Some(ErrorOf(r))
    {
      match r
      case Clean => err := None;
      case Error(e) => err := Some(e);
      case Panic(value) =>
        st.panics := st.panics + 1;
        err := Some("panic: " + value);
    }

    /** One failure: counted, and shown as recovering or degraded. */
    method Failed(st: Record, consecutive: nat, err: string)
      modifies st
      ensures st.Value() == old(st.Value()).(
        restarts := old(st.restarts) + 1, lastErr := err,
        state := if consecutive >= DEGRADED_AFTER then Degraded else Recovering)
    {
      st.restarts := st.restarts + 1;
      var state := Recovering;
      if consecutive >= DEGRADED_AFTER {
        state := Degraded;
      }
      st.Fail(state, err);
    }

    /** The loop follows the step system, judges `n` runs, and touches no status but its own. */
    method Supervise(st: Record, turns: seq<Turn>) returns (waits: seq<int>, stopped: bool, ghost n: nat)
      requires st.Value() == Status(Configured, "", 0, 0)
      modifies st
      ensures var l := After(backoffInitial, EventsOf(turns));
        st.Value() == l.status && waits == l.waits && (stopped <==> l.at.Done?) && (!stopped ==> l.at.Top?)
      ensures Judged(After(backoffInitial, EventsOf(turns)), turns, |turns|, n)
    {
      n := RunsAreTurns(backoffInitial, turns, |turns|);
      assert turns[..|turns|] == turns;
      var backoff := backoffInitial;
      var consecutive := 0;
      waits, stopped := [], false;
      var i := 0;
      while i < |turns|
        invariant i <= |turns| && !stopped
        invariant Agrees(After(backoffInitial, EventsOf(turns[..i])), backoff, consecutive, st.Value(), waits)
      {
        var t := turns[i];
        EventsSnoc(backoffInitial, turns, i);
        backoff, consecutive, waits, stopped :=
          OneTurn(st, t, After(backoffInitial, EventsOf(turns[..i])), backoff, consecutive, waits);
        i := i + 1;
        if stopped {
          DoneStays(backoffInitial, turns, i);
          return;
        }
      }
      assert turns[..|turns|] == turns;
    }

    /** The body of the loop. */
    method OneTurn(st: Record, t: Turn, ghost l: Loop, backoff: int, consecutive: nat, waits: seq<int>)
      returns (backoff': int, consecutive': nat, waits': seq<int>, stopped: bool)
      requires Agrees(l, backoff, consecutive, st.Value(), waits)
      modifies st
      ensures var next := TurnStep(backoffInitial, l, t);
        if stopped then next.at.Done? && st.Value() == next.status && waits' == next.waits
        else Agrees(next, backoff', consecutive', st.Value(), waits')
    {
      backoff', consecutive', waits', stopped := backoff, consecutive, waits, true;
      if t.before {
        st.Set(Stopped);
        return;
      }
      st.Set(Running);
      var err := RunOnce(st, t.result);
      if t.during {
        st.Set(Stopped);
        return;
      } else if err.None? {
        consecutive' := 0;
        backoff' := backoffInitial;
      } else {
        consecutive' := consecutive' + 1;
        Failed(st, consecutive', err.value);
      }
      waits' := waits' + [backoff'];
      if t.interrupted {
        st.Set(Stopped);
        return;
      }
      stopped := false;
      backoff' := Wrap(2 * backoff');
      if backoff' > RESTART_BACKOFF_MAX {
        backoff' := RESTART_BACKOFF_MAX;
      }
    }

    /** Registers a fresh status per agent; under one id, the last one given is the one reported. */
    method Start(ids: seq<string>) returns (own: seq<Record>)
      modifies this
      ensures |own| == |ids|
      ensures forall k :: 0 <= k < |ids| ==> fresh(own[k]) && own[k].Value() == Status(Configured, "", 0, 0)
      ensures forall j, k :: 0 <= j < k < |ids| ==> own[j] != own[k]
      ensures forall id :: id in statuses <==> id in old(statuses) || id in ids
      ensures forall id :: id in statuses ==>
        statuses[id] == if id in ids then own[LastIndex(ids, id)] else old(statuses)[id]
    {
      own := [];
      for i := 0 to |ids|
        invariant |own| == i
        invariant forall k :: 0 <= k < i ==> fresh(own[k]) && own[k].Value() == Status(Configured, "", 0, 0)
        invariant forall j, k :: 0 <= j < k < i ==> own[j] != own[k]
        invariant forall id :: id in statuses <==> id in old(statuses) || id in ids[..i]
        invariant forall id :: id in statuses ==>
          statuses[id] == if id in ids[..i] then own[LastIndex(ids[..i], id)] else old(statuses)[id]
      {
        assert ids[..i + 1] == ids[..i] + [ids[i]];
        var st := new Record();
        statuses := statuses[ids[i] := st];
        own := own + [st];
      }
      assert ids[..|ids|] == ids;
    }

    /** One row per registered id, each the current value of its record. */
    method Health() returns (out: seq<(string, Status)>)
      ensures forall i :: 0 <= i < |out| ==> out[i].0 in statuses && out[i].1 == statuses[out[i].0].Value()
      ensures forall i, j :: 0 <= i < j < |out| ==> out[i].0 != out[j].0
      ensures forall id :: id in statuses ==> exists i :: 0 <= i < |out| && out[i].0 == id
    {
      out := [];
      var rest := statuses.Keys;
      while rest != {}
        invariant rest <= statuses.Keys
        invariant forall i :: 0 <= i < |out| ==>
          out[i].0 in statuses && out[i].0 !in rest && out[i].1 == statuses[out[i].0].Value()
        invariant forall i, j :: 0 <= i < j < |out| ==> out[i].0 != out[j].0
        invariant forall id :: id in statuses && id !in rest ==> exists i :: 0 <= i < |out| && out[i].0 == id
        decreases |rest|
      {
        var id :| id in rest;
        ghost var was := out;
        out := out + [(id, statuses[id].Value())];
        rest := rest - {id};
        assert out[|was|].0 == id && forall i :: 0 <= i < |was| ==> out[i] == was[i];
      }
    }
  }

  /** The last position of an id. */
  function LastIndex(ids: seq<string>, id: string): (k: nat)
    requires id in ids
    ensures k < |ids| && ids[k] == id && forall j :: k < j < |ids| ==> ids[j] != id
  {
    if ids[|ids| - 1] == id then |ids| - 1 else LastIndex(ids[..|ids| - 1], id)
  }

  // ---- many goroutines --------------------------------------------------------

  /** Which goroutine takes a step, and which step. */
  datatype Act = Act(who: nat, event: Event)

  /** All goroutines after an interleaving of their steps. */
  function Together(initial: int, n: nat, trace: seq<Act>): (w: seq<Loop>)
    ensures |w| == n
  {
    if trace == [] then seq(n, _ => Supervisor.Start(initial)) else
    var w, a := Together(initial, n, trace[..|trace| - 1]), trace[|trace| - 1];
    if a.who < n then w[a.who := Step(initial, w[a.who], a.event)] else w
  }

  /** The events one goroutine took part in. */
  function Own(trace: seq<Act>, k: nat): seq<Event> {
    if trace == [] then [] else
    Own(trace[..|trace| - 1], k) + if trace[|trace| - 1].who == k then [trace[|trace| - 1].event] else []
  }

  /** What health reports say of an id. */
  function Reported(ids: seq<string>, w: seq<Loop>, id: string): Status
    requires |w| == |ids| && id in ids
  {
    w[LastIndex(ids, id)].status
  }

  /** In every interleaving each goroutine is where its own steps alone would have taken it. */
  lemma {:induction false} GoroutinesAreIndependent(initial: int, n: nat, trace: seq<Act>, k: nat)
    requires k < n
    ensures Together(initial, n, trace)[k] == After(initial, Own(trace, k))
  {
    if trace != [] {
      var rest, a := trace[..|trace| - 1], trace[|trace| - 1];
      GoroutinesAreIndependent(initial, n, rest, k);
      if a.who == k {
        AfterSnoc(initial, Own(rest, k), a.event);
      } else {
        assert Own(trace, k) == Own(rest, k);
      }
    }
  }

  ghost predicate Unique(ids: seq<string>) { forall j, k :: 0 <= j < k < |ids| ==> ids[j] != ids[k] }

  ghost predicate ReportsOwn(initial: int, ids: seq<string>, trace: seq<Act>) {
    forall k :: 0 <= k < |ids| ==>
      Reported(ids, Together(initial, |ids|, trace), ids[k]) == After(initial, Own(trace, k)).status
  }

  /** Health reports each agent's own status in every interleaving exactly when the ids are unique. */
  lemma HealthIsOwnExactly(initial: int, ids: seq<string>)
    ensures Unique(ids) <==> forall trace :: ReportsOwn(initial, ids, trace)
  {
    if Unique(ids) {
      forall trace ensures ReportsOwn(initial, ids, trace) {
        forall k | 0 <= k < |ids|
          ensures Reported(ids, Together(initial, |ids|, trace), ids[k]) == After(initial, Own(trace, k)).status
        {
          assert LastIndex(ids, ids[k]) == k;
          GoroutinesAreIndependent(initial, |ids|, trace, k);
        }
      }
    } else {
      var j, k :| 0 <= j < k < |ids| && ids[j] == ids[k];
      SharedIdHides(initial, ids, j, LastIndex(ids, ids[j]));
    }
  }

  lemma SharedIdHides(initial: int, ids: seq<string>, j: nat, k: nat)
    requires j < k < |ids| && ids[j] in ids && k == LastIndex(ids, ids[j])
    ensures !ReportsOwn(initial, ids, [Act(j, Check(true))])
  {
    var trace := [Act(j, Check(true))];
    assert trace[..0] == [];
    GoroutinesAreIndependent(initial, |ids|, trace, k);
    assert Own(trace, j) == [] + [Check(true)] && Own(trace, k) == [];
    AfterSnoc(initial, [], Check(true));
    assert Reported(ids, Together(initial, |ids|, trace), ids[j]) != After(initial, Own(trace, j)).status;
  }
}
