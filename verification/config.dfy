/**
 Loading the configured agents, and the names that must not clash between them.
 */
module Config {
  import opened Prelude
  import opened Text
  import opened AgentKeys

  type Env = string -> string

  // ---- lists ------------------------------------------------------------------

  /** The trimmed parts that are not empty. */
  function Kept(parts: seq<string>): seq<string> {
    if parts == [] then [] else
    var p := TrimSpace(parts[|parts| - 1]);
    Kept(parts[..|parts| - 1]) + if p == [] then [] else [p]
  }

  /** The entries of a comma-separated list. */
  function Entries(v: string): seq<string> { Kept(Split(v, ',')) }

  lemma KeptSnoc(parts: seq<string>, n: nat)
    requires n < |parts|
    ensures Kept(parts[..n + 1]) == Kept(parts[..n]) + if TrimSpace(parts[n]) == [] then [] else [TrimSpace(parts[n])]
  {
    assert parts[..n + 1][..n] == parts[..n];
  }

  method Csv(v: string) returns (out: seq<string>)
    ensures out == Entries(v)
  {
    out := [];
    var parts := Split(v, ',');
    for n := 0 to |parts|
      invariant out == Kept(parts[..n])
    {
      KeptSnoc(parts, n);
      var p := TrimSpace(parts[n]);
      if p != [] {
        out := out + [p];
      }
    }
    assert parts[..|parts|] == parts;
  }

  /** A name as a list can hold it. */
  ghost predicate Plain(p: string) { p != [] && ',' !in p && !IsSpace(p[0]) && !IsSpace(p[|p| - 1]) }

  lemma {:induction false} KeptPlain(names: seq<string>)
    requires forall i :: 0 <= i < |names| ==> Plain(names[i])
    ensures Kept(names) == names
  {
    if names != [] {
      var rest, last := names[..|names| - 1], names[|names| - 1];
      KeptPlain(rest);
      TrimPlain(last);
      assert rest + [last] == names;
    }
  }

  lemma TrimPlain(p: string)
    requires Plain(p)
    ensures TrimSpace(p) == p
  {
  }

  /** A list written with commas reads back as it was. */
  lemma ListRoundTrip(names: seq<string>)
    requires names != [] && forall i :: 0 <= i < |names| ==> Plain(names[i])
    ensures Entries(Join(names, ',')) == names
  {
    SplitJoin(names, ',');
    KeptPlain(names);
  }

  lemma FreeOfComma(s: string, cut: char -> bool)
    ensures ',' !in s ==> ',' !in Trim(s, cut)
  {
  }

  /** Whatever the list looks like, its entries are plain names. */
  lemma {:induction false} KeptArePlain(parts: seq<string>)
    requires Free(parts, ',')
    ensures forall i :: 0 <= i < |Kept(parts)| ==> Plain(Kept(parts)[i])
  {
    if parts != [] {
      KeptArePlain(parts[..|parts| - 1]);
      FreeOfComma(parts[|parts| - 1], IsSpace);
    }
  }

  lemma EntriesArePlain(v: string)
    ensures forall i :: 0 <= i < |Entries(v)| ==> Plain(Entries(v)[i])
  {
    JoinSplit(v, ',');
    KeptArePlain(Split(v, ','));
  }

  /** The parts at these positions, trimmed, are the entries; every other part is blank. */
  ghost predicate Picks(parts: seq<string>, at: seq<nat>, entries: seq<string>) {
    && |at| == |entries| && (forall k :: 0 <= k < |at| ==> at[k] < |parts| && entries[k] == TrimSpace(parts[at[k]]))
    && (forall j, k :: 0 <= j < k < |at| ==> at[j] < at[k])
    && (forall k :: 0 <= k < |at| ==> entries[k] != [])
    && (forall i :: 0 <= i < |parts| && i !in at ==> TrimSpace(parts[i]) == [])
  }

  lemma PicksNone(parts: seq<string>, part: string, at: seq<nat>, entries: seq<string>)
    requires Picks(parts, at, entries) && TrimSpace(part) == []
    ensures Picks(parts + [part], at, entries)
  {
  }

  lemma PicksOne(parts: seq<string>, part: string, at: seq<nat>, entries: seq<string>)
    requires Picks(parts, at, entries) && TrimSpace(part) != []
    ensures Picks(parts + [part], at + [|parts|], entries + [TrimSpace(part)])
  {
    var longer := at + [|parts|];
    assert longer[|at|] == |parts|;
    assert forall i :: i in longer <==> i in at || i == |parts|;
  }

  lemma {:induction false} KeptAreParts(parts: seq<string>) returns (at: seq<nat>)
    ensures Picks(parts, at, Kept(parts))
  {
    at := [];
    if parts != [] {
      var rest, last := parts[..|parts| - 1], parts[|parts| - 1];
      at := KeptAreParts(rest);
      assert rest + [last] == parts;
      if TrimSpace(last) == [] {
        PicksNone(rest, last, at, Kept(rest));
      } else {
        PicksOne(rest, last, at, Kept(rest));
        at := at + [|rest|];
      }
    }
  }

  /** The entries are the parts between the commas, trimmed, in their order, without the blank ones. */
  lemma EntriesAreParts(v: string) returns (at: seq<nat>)
    ensures Picks(Split(v, ','), at, Entries(v))
  {
    at := KeptAreParts(Split(v, ','));
  }

  // ---- variables ---------------------------------------------------------------

  const SUFFIXES: seq<string> :=
    ["ENABLED", "MODE", "SOURCE", "SOURCE_KIND", "DESTINATIONS", "INTERVAL", "BATCH_SIZE", "BLOCK_TIMEOUT"]

  function EnvName(key: string, suffix: string): string { "AGENT_" + key + "_" + suffix }

  /** No two of the suffixes end in the same two letters. */
  lemma SuffixEnds(a: nat, b: nat)
    requires a < |SUFFIXES| && b < |SUFFIXES|
    ensures |SUFFIXES[a]| >= 2
    ensures SUFFIXES[a][|SUFFIXES[a]| - 2..] == SUFFIXES[b][|SUFFIXES[b]| - 2..] ==> a == b
  {
    Ending(a);
    Ending(b);
  }

  const ENDINGS: seq<string> := ["ED", "DE", "CE", "ND", "NS", "AL", "ZE", "UT"]

  lemma Ending(a: nat)
    requires a < |SUFFIXES|
    ensures |SUFFIXES[a]| >= 2 && SUFFIXES[a][|SUFFIXES[a]| - 2..] == ENDINGS[a]
  {
  }

  lemma EnvNameEnd(key: string, suffix: string)
    requires |suffix| >= 2
    ensures var n := EnvName(key, suffix); |n| >= 2 && n[|n| - 2..] == suffix[|suffix| - 2..]
  {
  }

  /** No two variables of two agents, or of one, have the same name. */
  lemma EnvNameInjective(key1: string, a: nat, key2: string, b: nat)
    requires a < |SUFFIXES| && b < |SUFFIXES| && EnvName(key1, SUFFIXES[a]) == EnvName(key2, SUFFIXES[b])
    ensures key1 == key2 && a == b
  {
    SuffixEnds(a, b);
    SuffixEnds(b, a);
    EnvNameEnd(key1, SUFFIXES[a]);
    EnvNameEnd(key2, SUFFIXES[b]);
    SameSuffix(key1, key2, SUFFIXES[a]);
  }

  lemma SameSuffix(key1: string, key2: string, suffix: string)
    requires EnvName(key1, suffix) == EnvName(key2, suffix)
    ensures key1 == key2
  {
    assert EnvName(key1, suffix)[6..6 + |key1|] == key1;
    assert EnvName(key2, suffix)[6..6 + |key2|] == key2;
  }

  // ---- agents ------------------------------------------------------------------

  datatype Agent = Agent(id: string, key: string, enabled: bool, mode: string, source: string, sourceKind: string,
                         destinations: seq<string>, interval: int, batchSize: int, blockTimeout: int)

  /** The library's parsers of flags, numbers and durations; None is a parse error. */
  datatype Parsers = Parsers(flag: string -> Option<bool>, number: string -> Option<int>,
                             duration: string -> Option<int>)

  datatype Error = EmptyKey(id: string) | Duplicate(previous: string, id: string, key: string)

  datatype Loaded = Ok(agents: seq<Agent>) | Err(error: Error)

  function Or(v: string, default: string): string {
    var t := TrimSpace(v);
    if t == [] then default else t
  }

  /** The value a variable parses to; the default if it is blank or does not parse. */
  function ReadAs<T>(parse: string -> Option<T>, v: string, default: T): T {
    var t := TrimSpace(v);
    if t == [] then default else match parse(t) case Some(x) => x case None => default
  }

  function Var(get: Env, key: string, suffix: string): string { get(EnvName(key, suffix)) }

  function AgentFor(get: Env, parse: Parsers, id: string): Agent {
    var key := NormaliseId(id);
    Agent(id, key, ReadAs(parse.flag, Var(get, key, "ENABLED"), true), TrimSpace(Var(get, key, "MODE")),
          TrimSpace(Var(get, key, "SOURCE")), Or(Var(get, key, "SOURCE_KIND"), "stream"),
          Entries(Var(get, key, "DESTINATIONS")), ReadAs(parse.duration, Var(get, key, "INTERVAL"), 0),
          ReadAs(parse.number, Var(get, key, "BATCH_SIZE"), 100),
          ReadAs(parse.duration, Var(get, key, "BLOCK_TIMEOUT"), 5 * SECOND))
  }

  lemma SuffixNames()
    ensures SUFFIXES[0] == "ENABLED" && SUFFIXES[1] == "MODE" && SUFFIXES[2] == "SOURCE" && SUFFIXES[3] == "SOURCE_KIND"
    ensures SUFFIXES[4] == "DESTINATIONS" && SUFFIXES[5] == "INTERVAL" && SUFFIXES[6] == "BATCH_SIZE"
    ensures SUFFIXES[7] == "BLOCK_TIMEOUT"
  {
  }

  /** What an agent is made from are its eight variables. */
  lemma SameVariables(get: Env, get': Env, key: string)
    requires forall a :: 0 <= a < |SUFFIXES| ==> Var(get, key, SUFFIXES[a]) == Var(get', key, SUFFIXES[a])
    ensures Var(get, key, "ENABLED") == Var(get', key, "ENABLED") && Var(get, key, "MODE") == Var(get', key, "MODE")
    ensures Var(get, key, "SOURCE") == Var(get', key, "SOURCE")
    ensures Var(get, key, "SOURCE_KIND") == Var(get', key, "SOURCE_KIND")
    ensures Var(get, key, "DESTINATIONS") == Var(get', key, "DESTINATIONS")
    ensures Var(get, key, "INTERVAL") == Var(get', key, "INTERVAL")
    ensures Var(get, key, "BATCH_SIZE") == Var(get', key, "BATCH_SIZE")
    ensures Var(get, key, "BLOCK_TIMEOUT") == Var(get', key, "BLOCK_TIMEOUT")
  {
    SuffixNames();
  }

  /** An agent with none of its variables set has the defaults. */
  lemma Defaults(get: Env, parse: Parsers, id: string)
    requires forall a :: 0 <= a < |SUFFIXES| ==> Var(get, NormaliseId(id), SUFFIXES[a]) == ""
    ensures AgentFor(get, parse, id) == Agent(id, NormaliseId(id), true, "", "", "stream", [], 0, 100, 5 * SECOND)
  {
    SameVariables(get, _ => "", NormaliseId(id));
    assert Entries("") == [];
  }

  /** The variable of an agent, without the white space around it. */
  function Value(get: Env, key: string, suffix: string): string { TrimSpace(get("AGENT_" + key + "_" + suffix)) }

  lemma TextFields(get: Env, parse: Parsers, id: string)
    ensures var a, key := AgentFor(get, parse, id), NormaliseId(id);
      && a.id == id && a.key == key
      && a.mode == Value(get, key, "MODE") && a.source == Value(get, key, "SOURCE")
      && a.sourceKind == (if Value(get, key, "SOURCE_KIND") == "" then "stream" else Value(get, key, "SOURCE_KIND"))
      && a.destinations == Entries(get("AGENT_" + key + "_" + "DESTINATIONS"))
  {
  }

  lemma ParsedFields(get: Env, parse: Parsers, id: string)
    ensures var a, key := AgentFor(get, parse, id), NormaliseId(id);
      && IsRead(parse.flag, Value(get, key, "ENABLED"), a.enabled, true)
      && IsRead(parse.duration, Value(get, key, "INTERVAL"), a.interval, 0)
      && IsRead(parse.number, Value(get, key, "BATCH_SIZE"), a.batchSize, 100)
      && IsRead(parse.duration, Value(get, key, "BLOCK_TIMEOUT"), a.blockTimeout, 5 * SECOND)
  {
  }

  /**
   Which variable feeds which field: a flag, a duration or a number that parses is the field's value, text is trimmed, a
   list is split, and what is blank or does not parse leaves the default.
   */
  lemma FieldsFromVariables(get: Env, parse: Parsers, id: string)
    ensures var a, key := AgentFor(get, parse, id), NormaliseId(id);
      && a.id == id && a.key == key
      && a.mode == Value(get, key, "MODE") && a.source == Value(get, key, "SOURCE")
      && a.sourceKind == (if Value(get, key, "SOURCE_KIND") == "" then "stream" else Value(get, key, "SOURCE_KIND"))
      && a.destinations == Entries(get("AGENT_" + key + "_" + "DESTINATIONS"))
      && IsRead(parse.flag, Value(get, key, "ENABLED"), a.enabled, true)
      && IsRead(parse.duration, Value(get, key, "INTERVAL"), a.interval, 0)
      && IsRead(parse.number, Value(get, key, "BATCH_SIZE"), a.batchSize, 100)
      && IsRead(parse.duration, Value(get, key, "BLOCK_TIMEOUT"), a.blockTimeout, 5 * SECOND)
  {
    TextFields(get, parse, id);
    ParsedFields(get, parse, id);
  }

  /** The value of a variable, or its default. */
  ghost predicate IsRead<T>(parse: string -> Option<T>, v: string, x: T, default: T) {
    if v != "" && parse(v).Some? then parse(v) == Some(x) else x == default
  }

  /** The variable is one of the agent's with this key. */
  ghost predicate Belongs(name: string, key: string) {
    exists a :: 0 <= a < |SUFFIXES| && name == EnvName(key, SUFFIXES[a])
  }

  /** Setting one agent's variables leaves every agent with another key as it was. */
  lemma OnlyOwnVariables(get: Env, get': Env, parse: Parsers, key: string, id: string)
    requires forall name :: get(name) == get'(name) || Belongs(name, key)
    requires NormaliseId(id) != key
    ensures AgentFor(get, parse, id) == AgentFor(get', parse, id)
  {
    forall b | 0 <= b < |SUFFIXES|
      ensures Var(get, NormaliseId(id), SUFFIXES[b]) == Var(get', NormaliseId(id), SUFFIXES[b])
    {
      NotShared(get, get', key, NormaliseId(id), b);
    }
    SameVariables(get, get', NormaliseId(id));
  }

  lemma NotShared(get: Env, get': Env, key: string, other: string, b: nat)
    requires forall name :: get(name) == get'(name) || Belongs(name, key)
    requires other != key && b < |SUFFIXES|
    ensures Var(get, other, SUFFIXES[b]) == Var(get', other, SUFFIXES[b])
  {
    var name := EnvName(other, SUFFIXES[b]);
    if get(name) != get'(name) {
      var a :| 0 <= a < |SUFFIXES| && name == EnvName(key, SUFFIXES[a]);
      EnvNameInjective(other, b, key, a);
    }
  }

  /** Every id has a key, and no two the same. */
  ghost predicate Sound(ids: seq<string>) {
    && (forall i :: 0 <= i < |ids| ==> NormaliseId(ids[i]) != [])
    && (forall i, j :: 0 <= i < j < |ids| ==> NormaliseId(ids[i]) != NormaliseId(ids[j]))
  }

  /** `id` is the first of the list that cannot be added to those before it, and `e` says why. */
  ghost predicate Fault(before: seq<string>, id: string, e: Error) {
    Sound(before) &&
    match e
    case EmptyKey(x) => x == id && NormaliseId(id) == []
    case Duplicate(p, x, key) => x == id && key == NormaliseId(id) == NormaliseId(p) && key != [] && p in before
  }

  lemma FaultIsUnsound(ids: seq<string>, n: nat, e: Error)
    requires n < |ids| && Fault(ids[..n], ids[n], e)
    ensures !Sound(ids)
  {
    if e.Duplicate? {
      var i :| 0 <= i < n && ids[..n][i] == e.previous;
      assert ids[i] == e.previous;
    }
  }

  lemma {:induction false} KeptPrefix(parts: seq<string>, n: nat)
    requires n <= |parts|
    ensures Kept(parts[..n]) <= Kept(parts)
    decreases |parts| - n
  {
    if n == |parts| {
      assert parts[..n] == parts;
    } else {
      KeptPrefix(parts, n + 1);
      KeptSnoc(parts, n);
    }
  }

  /** The configured ids. */
  function Ids(get: Env): seq<string> { Entries(TrimSpace(get("CONFLUX_AGENTS"))) }

  ghost predicate Built(get: Env, parse: Parsers, ids: seq<string>, agents: seq<Agent>) {
    |agents| == |ids| && forall i :: 0 <= i < |ids| ==> agents[i] == AgentFor(get, parse, ids[i])
  }

  /** What has been seen is the keys of the ids so far, each with its id. */
  ghost predicate SeenIs(seen: map<string, string>, ids: seq<string>) {
    && (forall i :: 0 <= i < |ids| ==> NormaliseId(ids[i]) in seen)
    && (forall k :: k in seen ==> seen[k] in ids && NormaliseId(seen[k]) == k)
  }

  lemma SoundSnoc(seen: map<string, string>, ids: seq<string>, id: string)
    requires Sound(ids) && SeenIs(seen, ids) && NormaliseId(id) != [] && NormaliseId(id) !in seen
    ensures Sound(ids + [id]) && SeenIs(seen[NormaliseId(id) := id], ids + [id])
  {
  }

  lemma BuiltSnoc(get: Env, parse: Parsers, ids: seq<string>, agents: seq<Agent>, id: string)
    requires Built(get, parse, ids, agents)
    ensures Built(get, parse, ids + [id], agents + [AgentFor(get, parse, id)])
  {
  }

  /** Loading succeeds exactly when the keys are non-empty and distinct; otherwise it names the first id at fault. */
  method LoadAgents(get: Env, parse: Parsers) returns (r: Loaded)
    ensures r.Ok? <==> Sound(Ids(get))
    ensures r.Ok? ==> Built(get, parse, Ids(get), r.agents)
    ensures r.Err? ==> exists n :: 0 <= n < |Ids(get)| && Fault(Ids(get)[..n], Ids(get)[n], r.error)
  {
    var raw := TrimSpace(get("CONFLUX_AGENTS"));
    if raw == [] {
      return Ok([]);
    }
    var parts := Split(raw, ',');
    var seen: map<string, string>, agents: seq<Agent> := map[], [];
    ghost var ids := [];
    for n := 0 to |parts|
      invariant ids == Kept(parts[..n]) && Sound(ids) && SeenIs(seen, ids) && Built(get, parse, ids, agents)
    {
      KeptSnoc(parts, n);
      KeptPrefix(parts, n + 1);
      var id := TrimSpace(parts[n]);
      if id != [] {
        var fault := Refusal(seen, ids, id);
        if fault.Some? {
          Reported(Ids(get), ids, id, fault.value);
          return Err(fault.value);
        }
        SoundSnoc(seen, ids, id);
        BuiltSnoc(get, parse, ids, agents, id);
        seen := seen[NormaliseId(id) := id];
        agents := agents + [AgentFor(get, parse, id)];
        ids := ids + [id];
      }
    }
    assert parts[..|parts|] == parts;
    r := Ok(agents);
  }

  /** Whether an id can join those seen, and if not, why. */
  method Refusal(seen: map<string, string>, ghost ids: seq<string>, id: string) returns (fault: Option<Error>)
    requires Sound(ids) && SeenIs(seen, ids)
    ensures fault.None? ==> NormaliseId(id) != [] && NormaliseId(id) !in seen
    ensures fault.Some? ==> Fault(ids, id, fault.value)
  {
    var key := NormaliseId(id);
    if key == [] {
      return Some(EmptyKey(id));
    }
    if key in seen {
      return Some(Duplicate(seen[key], id, key));
    }
    return None;
  }

  lemma Reported(all: seq<string>, ids: seq<string>, id: string, e: Error)
    requires ids + [id] <= all && Fault(ids, id, e)
    ensures !Sound(all) && exists n :: 0 <= n < |all| && Fault(all[..n], all[n], e)
  {
    var n := |ids|;
    assert all[n] == (ids + [id])[n] && all[..n] == ids;
    FaultIsUnsound(all, n, e);
  }

  // ---- groups and consumers ----------------------------------------------------

  function GroupName(base: string, agent: string): string { base + ":" + agent }

  function ConsumerName(base: string, agent: string, instance: string): string { base + ":" + agent + ":" + instance }

  lemma GroupNameInjective(base: string, a: string, b: string)
    ensures GroupName(base, a) == GroupName(base, b) <==> a == b
  {
    assert GroupName(base, a)[|base| + 1..] == a;
    assert GroupName(base, b)[|base| + 1..] == b;
  }

  /** Loaded agents read through groups of their own. */
  lemma LoadedGroupsDiffer(base: string, ids: seq<string>, i: nat, j: nat)
    requires Sound(ids) && i < j < |ids|
    ensures GroupName(base, ids[i]) != GroupName(base, ids[j])
  {
    GroupNameInjective(base, ids[i], ids[j]);
  }

  /** A reclaim task is given the group of its own agent, so the groups of other agents are not reclaimed. */
  lemma ReclaimedGroupsExactly(base: string, agent: string, reclaimers: set<string>)
    ensures GroupName(base, agent) in (set r | r in reclaimers :: GroupName(base, r)) <==> agent in reclaimers
  {
    forall r | r in reclaimers && GroupName(base, r) == GroupName(base, agent) ensures r == agent {
      GroupNameInjective(base, r, agent);
    }
  }

  /** `b` is `a` with a colon and more after it. */
  predicate Continues(a: string, b: string) { a + ":" <= b }

  /** Within one agent, hence within one group, instances never share a consumer name. */
  lemma InstancesDiffer(base: string, agent: string, i: string, j: string)
    ensures ConsumerName(base, agent, i) == ConsumerName(base, agent, j) <==> i == j
  {
    assert ConsumerName(base, agent, i)[|base + ":" + agent + ":"|..] == i;
    assert ConsumerName(base, agent, j)[|base + ":" + agent + ":"|..] == j;
  }

  /** Two agents can be given one consumer name exactly when one id goes on from the other after a colon. */
  lemma ConsumersClashExactly(base: string, a: string, b: string)
    requires a != b
    ensures (exists i, j :: ConsumerName(base, a, i) == ConsumerName(base, b, j)) <==>
      Continues(a, b) || Continues(b, a)
  {
    if Continues(a, b) {
      Clash(base, a, b);
    } else if Continues(b, a) {
      Clash(base, b, a);
    }
    forall i, j | ConsumerName(base, a, i) == ConsumerName(base, b, j) ensures Continues(a, b) || Continues(b, a) {
      Clashing(base, a, i, b, j);
    }
  }

  lemma Clash(base: string, a: string, b: string)
    requires Continues(a, b)
    ensures exists i, j :: ConsumerName(base, a, i) == ConsumerName(base, b, j)
  {
    var rest := b[|a| + 1..];
    assert b == a + ":" + rest;
    assert ConsumerName(base, a, rest + ":") == ConsumerName(base, b, []);
  }

  lemma Tail(base: string, a: string, i: string)
    ensures ConsumerName(base, a, i)[|base| + 1..] == a + ":" + i
  {
  }

  lemma Clashing(base: string, a: string, i: string, b: string, j: string)
    requires a != b && ConsumerName(base, a, i) == ConsumerName(base, b, j)
    ensures Continues(a, b) || Continues(b, a)
  {
    Tail(base, a, i);
    Tail(base, b, j);
    var t := a + ":" + i;
    assert t == b + ":" + j;
    assert t[..|a|] == a && t[|a|] == ':' && t[..|b|] == b && t[|b|] == ':';
    if |a| < |b| {
      assert t[..|a| + 1] == a + ":" && t[..|b|][..|a| + 1] == t[..|a| + 1];
    } else if |b| < |a| {
      assert t[..|b| + 1] == b + ":" && t[..|a|][..|b| + 1] == t[..|b| + 1];
    }
  }
}
