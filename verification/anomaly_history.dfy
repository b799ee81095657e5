/**
 The detector's state as a function of what was observed, and the independence of its pairs.
 */
module AnomalyHistory {
  import opened Anomaly

  // ---- active is a property of the current run of breaches ------------------

  /** Where the unbroken run of breached observations at the end of a history starts. */
  function RunStart(h: seq<Observation>): (r: nat)
    ensures r <= |h| && (forall i :: r <= i < |h| ==> h[i].breached) && (r > 0 ==> !h[r - 1].breached)
  {
    if h == [] || !h[|h| - 1].breached then |h| else RunStart(h[..|h| - 1])
  }

  /** Some observation of the run needs no sustain, or lies at least sustainFor after the run's start. */
  ghost predicate Confirmed(cfg: Config, h: seq<Observation>, from: nat)
    requires from <= |h|
  {
    exists i :: from <= i < |h| && Confirms(cfg, h, from, i)
  }

  ghost predicate Confirms(cfg: Config, h: seq<Observation>, from: nat, i: nat)
    requires from <= i < |h|
  {
    !h[i].sustain || h[i].now - h[from].now >= cfg.sustainFor
  }

  lemma ConfirmedSnoc(cfg: Config, h: seq<Observation>, from: nat)
    requires from < |h|
    ensures Confirmed(cfg, h, from) <==> Confirmed(cfg, h[..|h| - 1], from) || Confirms(cfg, h, from, |h| - 1)
  {
    var before := h[..|h| - 1];
    if Confirmed(cfg, before, from) {
      var i :| from <= i < |before| && Confirms(cfg, before, from, i);
      assert Confirms(cfg, h, from, i);
    }
    if Confirmed(cfg, h, from) {
      var i :| from <= i < |h| && Confirms(cfg, h, from, i);
      if i < |before| { assert Confirms(cfg, before, from, i); }
    }
  }

  /** What a state should say after a history. */
  ghost predicate Tells(cfg: Config, st: State, h: seq<Observation>) {
    var r := RunStart(h);
    && st.active == Confirmed(cfg, h, r)
    && st.breachedAt == (if r < |h| then h[r].now else 0)
    && (st.active ==> r < |h| && st.startedAt == h[r].now)
  }

  /** How one step moves the three fields. */
  lemma StepFields(cfg: Config, st: State, o: Observation)
    ensures var after := Step(cfg, st, o).0;
      var onset := if st.breachedAt == 0 then o.now else st.breachedAt;
      && after.breachedAt == (if o.breached then onset else 0)
      && after.active == (o.breached && (st.active || !o.sustain || o.now - onset >= cfg.sustainFor))
      && (after.active ==> after.startedAt == if st.active then st.startedAt else onset)
  {
  }

  lemma TellsSnoc(cfg: Config, st: State, after: State, h: seq<Observation>)
    requires h != [] && Ordered(h) && Tells(cfg, st, h[..|h| - 1])
    requires var o := h[|h| - 1];
      var onset := if st.breachedAt == 0 then o.now else st.breachedAt;
      && after.breachedAt == (if o.breached then onset else 0)
      && after.active == (o.breached && (st.active || !o.sustain || o.now - onset >= cfg.sustainFor))
      && (after.active ==> after.startedAt == if st.active then st.startedAt else onset)
    ensures Tells(cfg, after, h)
  {
    var before := h[..|h| - 1];
    if h[|h| - 1].breached {
      var r := RunStart(h);
      assert r == RunStart(before) && (r < |before| ==> before[r] == h[r]);
      ConfirmedSnoc(cfg, h, r);
    }
  }

  /**
   After any history a pair is active exactly when its current run of breaches is confirmed, and it remembers the
   run's start.
   */
  lemma {:induction false} ActiveIsConfirmed(cfg: Config, h: seq<Observation>)
    requires h != [] && Ordered(h)
    ensures Tells(cfg, After(cfg, h), h)
  {
    var before := h[..|h| - 1];
    var st := Before(cfg, before, h[|h| - 1].now);
    if before != [] { ActiveIsConfirmed(cfg, before); }
    assert Tells(cfg, st, before);
    StepFields(cfg, st, h[|h| - 1]);
    TellsSnoc(cfg, st, After(cfg, h), h);
  }

  /** Without a sustain window, or for a condition that needs none, the first breach is enough. */
  lemma ImmediateActivation(cfg: Config, h: seq<Observation>)
    requires h != [] && Ordered(h) && h[|h| - 1].breached && (cfg.sustainFor <= 0 || !h[|h| - 1].sustain)
    ensures After(cfg, h).active
  {
    ActiveIsConfirmed(cfg, h);
    var r := RunStart(h);
    assert Confirms(cfg, h, r, |h| - 1);
  }

  /** Every check of the run at the end of the history comes at most c after the one before. */
  ghost predicate Checked(h: seq<Observation>, c: int) {
    forall i :: RunStart(h) < i < |h| ==> h[i].now - h[i - 1].now <= c
  }

  /** Where the run first has lasted for the sustain window. */
  function FirstSustained(cfg: Config, h: seq<Observation>, from: nat, i: nat): (k: nat)
    requires from <= i < |h| && h[|h| - 1].now - h[from].now >= cfg.sustainFor
    requires forall j :: from <= j < i ==> h[j].now - h[from].now < cfg.sustainFor
    ensures i <= k < |h| && h[k].now - h[from].now >= cfg.sustainFor
    ensures forall j :: from <= j < k ==> h[j].now - h[from].now < cfg.sustainFor
    decreases |h| - i
  {
    if h[i].now - h[from].now >= cfg.sustainFor then i else FirstSustained(cfg, h, from, i + 1)
  }

  lemma {:induction false} RunStartPrefix(h: seq<Observation>, k: nat)
    requires RunStart(h) <= k < |h|
    ensures RunStart(h[..k + 1]) == RunStart(h)
    decreases |h|
  {
    if k == |h| - 1 {
      assert h[..k + 1] == h;
    } else {
      assert h[..|h| - 1][..k + 1] == h[..k + 1];
      RunStartPrefix(h[..|h| - 1], k);
    }
  }

  lemma ActiveFrom(cfg: Config, h: seq<Observation>, k: nat, j: nat)
    requires Ordered(h) && RunStart(h) <= k < j <= |h| && h[k].now - h[RunStart(h)].now >= cfg.sustainFor
    ensures After(cfg, h[..j]).active
  {
    RunStartPrefix(h, j - 1);
    ActiveIsConfirmed(cfg, h[..j]);
    assert Confirms(cfg, h[..j], RunStart(h), k);
  }

  /**
   A run of breaches that lasts for the sustain window, checked at most c apart, is raised at one of its checks, less
   than sustainFor + c after onset, or at onset itself, and stays so for the rest of the run.
   */
  lemma ActivationLatency(cfg: Config, h: seq<Observation>, c: int) returns (k: nat)
    requires Ordered(h) && RunStart(h) < |h| && Checked(h, c)
    requires h[|h| - 1].now - h[RunStart(h)].now >= cfg.sustainFor
    ensures RunStart(h) <= k < |h|
    ensures k == RunStart(h) || h[k].now - h[RunStart(h)].now < cfg.sustainFor + c
    ensures cfg.sustainFor <= 0 ==> k == RunStart(h)
    ensures forall j :: k < j <= |h| ==> After(cfg, h[..j]).active
  {
    var r := RunStart(h);
    k := FirstSustained(cfg, h, r, r);
    if k > r {
      assert h[k - 1].now - h[r].now < cfg.sustainFor && h[k].now - h[k - 1].now <= c;
    }
    forall j | k < j <= |h| ensures After(cfg, h[..j]).active {
      ActiveFrom(cfg, h, k, j);
    }
  }

  // ---- edges ----------------------------------------------------------------

  predicate ActiveAfter(cfg: Config, h: seq<Observation>) { h != [] && After(cfg, h).active }

  function Rises(cfg: Config, h: seq<Observation>): nat {
    if h == [] then 0 else
    var before := h[..|h| - 1];
    Rises(cfg, before) + if !ActiveAfter(cfg, before) && ActiveAfter(cfg, h) then 1 else 0
  }

  function Falls(cfg: Config, h: seq<Observation>): nat {
    if h == [] then 0 else
    var before := h[..|h| - 1];
    Falls(cfg, before) + if ActiveAfter(cfg, before) && !ActiveAfter(cfg, h) then 1 else 0
  }

  /** How often RESOLVED was attempted. */
  function Resolutions(cfg: Config, h: seq<Observation>): nat {
    if h == [] then 0 else
    var t := Tried(cfg, h);
    Resolutions(cfg, h[..|h| - 1]) + if t.Some? && t.value.forced then 1 else 0
  }

  /**
   Exactly one RESOLVED attempt for each time an active condition clears, and every clear has a detection before it.
   */
  lemma {:induction false} OneResolutionPerClear(cfg: Config, h: seq<Observation>)
    ensures Resolutions(cfg, h) == Falls(cfg, h)
    ensures Rises(cfg, h) == Falls(cfg, h) + if ActiveAfter(cfg, h) then 1 else 0
  {
    if h != [] {
      var before := h[..|h| - 1];
      OneResolutionPerClear(cfg, before);
      assert Before(cfg, before, h[|h| - 1].now).active == ActiveAfter(cfg, before);
      assert ActiveAfter(cfg, h) == After(cfg, h).active;
    }
  }

  // ---- pairs are independent ------------------------------------------------

  /** Different conditions never share a key: no type has a '|' in it. */
  lemma KeyInjective(kind: string, scope: string, kind': string, scope': string)
    requires kind in TYPES && kind' in TYPES && Key(kind, scope) == Key(kind', scope')
    ensures kind == kind' && scope == scope'
  {
    var k := Key(kind, scope);
    assert '|' !in kind && '|' !in kind';
    assert k[|kind|] == '|' && k[|kind'|] == '|';
    assert kind == k[..|kind|] && kind' == k[..|kind|];
    assert scope == k[|kind| + 1..] && scope' == k[|kind| + 1..];
  }

  datatype Report = Report(kind: string, scope: string, o: Observation)

  /** The states of a detector after any interleaving of reports. */
  function States(cfg: Config, reports: seq<Report>): map<string, State> {
    if reports == [] then map[] else
    var last := reports[|reports| - 1];
    var before := States(cfg, reports[..|reports| - 1]);
    var key := Key(last.kind, last.scope);
    before[key := Step(cfg, StateBefore(before, key, last.o.now), last.o).0]
  }

  /** The observations of one pair, in order. */
  function Of(reports: seq<Report>, kind: string, scope: string): seq<Observation> {
    if reports == [] then [] else
    var last := reports[|reports| - 1];
    Of(reports[..|reports| - 1], kind, scope) + if last.kind == kind && last.scope == scope then [last.o] else []
  }

  ghost predicate Known(reports: seq<Report>) { forall i :: 0 <= i < |reports| ==> reports[i].kind in TYPES }

  lemma AfterSnoc(cfg: Config, h: seq<Observation>, o: Observation)
    ensures After(cfg, h + [o]) == Step(cfg, Before(cfg, h, o.now), o).0
    ensures Tried(cfg, h + [o]) == Step(cfg, Before(cfg, h, o.now), o).1
  {
    assert (h + [o])[..|h|] == h;
  }

  /**
   However reports interleave, the state the next report of a pair finds is the one its own observations alone made,
   so what it does to that state and what it sends are its own as well.
   */
  lemma {:induction false} PairsAreIndependent(cfg: Config, reports: seq<Report>, kind: string, scope: string, now: int)
    requires Known(reports) && kind in TYPES
    ensures Key(kind, scope) in States(cfg, reports) <==> Of(reports, kind, scope) != []
    ensures StateBefore(States(cfg, reports), Key(kind, scope), now) == Before(cfg, Of(reports, kind, scope), now)
  {
    if reports != [] {
      var before := reports[..|reports| - 1];
      var last := reports[|reports| - 1];
      if last.kind == kind && last.scope == scope {
        PairsAreIndependent(cfg, before, kind, scope, last.o.now);
        AfterSnoc(cfg, Of(before, kind, scope), last.o);
      } else {
        PairsAreIndependent(cfg, before, kind, scope, now);
        assert Of(reports, kind, scope) == Of(before, kind, scope);
        if Key(last.kind, last.scope) == Key(kind, scope) {
          KeyInjective(last.kind, last.scope, kind, scope);
        }
      }
    }
  }
}
