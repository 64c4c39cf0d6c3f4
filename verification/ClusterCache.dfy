/**
 The generation-guarded cache of the GKE cluster configuration, with fetches and invalidations interleaved
 (pkg/providers/gke/gke.go).
 */
module ClusterCache {
  import opened Basics

  /** The values of the generation counter, an unsigned 64-bit number. */
  const GENERATIONS: nat := 0x1_0000_0000_0000_0000

  type Config = string

  /** A configuration, and how many invalidations there had been when its fetch was sent. */
  datatype Fetched = Fetched(config: Config, sent: nat)

  /** A call that missed the cache: the generation it read then, the invalidations before it, and before its fetch. */
  datatype Flight = Flight(generation: nat, started: nat, sent: Option<nat>)

  /** A call that returned: the invalidations before it started, and what it returned. */
  datatype Returned = Returned(started: nat, result: Fetched)

  datatype State = State(
    cached: Option<Fetched>,
    generation: nat,
    invalidations: nat,
    flights: map<nat, Flight>,
    returned: map<nat, Returned>)

  const INITIAL := State(None, 0, 0, map[], map[])

  predicate Idle(s: State, c: nat) {
    c !in s.flights && c !in s.returned
  }

  // ---------------------------------------------------------------- steps

  /** The first critical section of a call: a hit returns, a miss remembers the generation. */
  function Begin(s: State, c: nat): State {
    match s.cached
    case Some(f) => s.(returned := s.returned[c := Returned(s.invalidations, f)])
    case None => s.(flights := s.flights[c := Flight(s.generation, s.invalidations, None)])
  }

  function Send(s: State, c: nat): State
    requires c in s.flights
  {
    s.(flights := s.flights[c := s.flights[c].(sent := Some(s.invalidations))])
  }

  function Fail(s: State, c: nat): State {
    s.(flights := s.flights - {c})
  }

  /** The second critical section: the answer is cached only under the generation the call began with. */
  function Finish(s: State, c: nat, config: Config): State
    requires c in s.flights && s.flights[c].sent.Some?
  {
    var flight := s.flights[c];
    var f := Fetched(config, flight.sent.value);
    s.(cached := if flight.generation == s.generation then Some(f) else s.cached,
       flights := s.flights - {c},
       returned := s.returned[c := Returned(flight.started, f)])
  }

  function Invalidate(s: State): State {
    s.(cached := None, generation := (s.generation + 1) % GENERATIONS, invalidations := s.invalidations + 1)
  }

  function Expire(s: State): State {
    s.(cached := None)
  }

  datatype Action =
    | BeginCall(call: nat)
    | SendFetch(call: nat)
    | FailFetch(call: nat)
    | FinishFetch(call: nat, config: Config)
    | InvalidateConfig
    | ExpireEntry

  predicate Enabled(s: State, a: Action) {
    match a
    case BeginCall(c) => Idle(s, c)
    case SendFetch(c) => c in s.flights && s.flights[c].sent.None?
    case FailFetch(c) => c in s.flights
    case FinishFetch(c, _) => c in s.flights && s.flights[c].sent.Some?
    case _ => true
  }

  function Apply(s: State, a: Action): State
    requires Enabled(s, a)
  {
    match a
    case BeginCall(c) => Begin(s, c)
    case SendFetch(c) => Send(s, c)
    case FailFetch(c) => Fail(s, c)
    case FinishFetch(c, config) => Finish(s, c, config)
    case InvalidateConfig => Invalidate(s)
    case ExpireEntry => Expire(s)
  }

  /** Any interleaving of the actions of any number of calls. */
  ghost predicate Run(states: seq<State>, actions: seq<Action>) {
    && |states| == |actions| + 1 && states[0] == INITIAL
    && forall i | 0 <= i < |actions| :: Enabled(states[i], actions[i]) && states[i + 1] == Apply(states[i], actions[i])
  }

  /** No call sees the counter come round during its fetch. */
  ghost predicate NoWrap(s: State) {
    forall c | c in s.flights :: s.invalidations - s.flights[c].started < GENERATIONS
  }

  // ---------------------------------------------------------------- what every step keeps

  predicate FlightOk(s: State, f: Flight) {
    && f.started <= s.invalidations && f.generation == f.started % GENERATIONS
    && (f.sent.Some? ==> f.started <= f.sent.value <= s.invalidations)
  }

  ghost predicate Inv(s: State) {
    && s.generation == s.invalidations % GENERATIONS
    && (forall c | c in s.flights :: FlightOk(s, s.flights[c]))
    && (s.cached.Some? ==> s.cached.value.sent == s.invalidations)
    && (forall c | c in s.returned :: s.returned[c].started <= s.returned[c].result.sent)
  }

  lemma NextGeneration(n: nat)
    ensures (n % GENERATIONS + 1) % GENERATIONS == (n + 1) % GENERATIONS
  {
    var q, m := n / GENERATIONS, n % GENERATIONS;
    assert n == q * GENERATIONS + m;
    if m + 1 < GENERATIONS {
      assert n + 1 == q * GENERATIONS + (m + 1);
    } else {
      assert n + 1 == (q + 1) * GENERATIONS;
    }
  }

  lemma SameGeneration(a: nat, b: nat)
    requires a <= b
    ensures a % GENERATIONS == b % GENERATIONS <==> (b - a) % GENERATIONS == 0
  {
    var q, r := a / GENERATIONS, b / GENERATIONS;
    assert b - a == (r - q) * GENERATIONS + (b % GENERATIONS - a % GENERATIONS);
  }

  /** A fetch is cached exactly if the number of invalidations during its call is a multiple of the counter's range. */
  lemma CachedIffSameGeneration(s: State, c: nat, config: Config)
    requires Inv(s) && c in s.flights && s.flights[c].sent.Some?
    ensures Finish(s, c, config).cached ==
            if (s.invalidations - s.flights[c].started) % GENERATIONS == 0
            then Some(Fetched(config, s.flights[c].sent.value))
            else s.cached
  {
    assert FlightOk(s, s.flights[c]);
    SameGeneration(s.flights[c].started, s.invalidations);
  }

  lemma FinishKeepsInv(s: State, c: nat, config: Config)
    requires Inv(s) && NoWrap(s) && c in s.flights && s.flights[c].sent.Some?
    ensures Inv(Finish(s, c, config))
  {
    var s' := Finish(s, c, config);
    assert FlightOk(s, s.flights[c]);
    CachedIffSameGeneration(s, c, config);
    assert forall d | d in s'.flights :: s'.flights[d] == s.flights[d];
  }

  lemma CallKeepsInv(s: State, c: nat)
    requires Inv(s)
    ensures Inv(Begin(s, c)) && Inv(Fail(s, c))
    ensures c in s.flights && s.flights[c].sent.None? ==> Inv(Send(s, c))
  {
    assert c in s.flights ==> FlightOk(s, s.flights[c]);
  }

  lemma StepKeepsInv(s: State, a: Action)
    requires Inv(s) && NoWrap(s) && Enabled(s, a)
    ensures Inv(Apply(s, a))
  {
    match a
    case FinishFetch(c, config) => FinishKeepsInv(s, c, config);
    case InvalidateConfig => NextGeneration(s.invalidations);
    case ExpireEntry =>
    case _ => CallKeepsInv(s, a.call);
  }

  lemma {:induction false} RunKeepsInv(states: seq<State>, actions: seq<Action>, i: nat)
    requires Run(states, actions) && i < |states| && forall j | 0 <= j < |states| :: NoWrap(states[j])
    ensures Inv(states[i])
  {
    if i > 0 {
      RunKeepsInv(states, actions, i - 1);
      StepKeepsInv(states[i - 1], actions[i - 1]);
    }
  }

  /**
   In every run, a call returns a configuration whose fetch was sent after all invalidations that precede the call.
   */
  lemma ReturnsFresh(states: seq<State>, actions: seq<Action>, i: nat, c: nat)
    requires Run(states, actions) && i < |states| && c in states[i].returned && forall j | 0 <= j < |states| ::
             NoWrap(states[j])
    ensures states[i].returned[c].result.sent >= states[i].returned[c].started
  {
    RunKeepsInv(states, actions, i);
  }

  /**
   The condition is needed: once the counter has come round during a fetch, the outdated answer is cached, and the next
   call returns it.
   */
  lemma WrapServesStale(s: State, c: nat, d: nat, config: Config)
    requires Inv(s) && c in s.flights && s.flights[c].sent.Some? && s.flights[c].sent.value < s.invalidations
    requires s.invalidations == s.flights[c].started + GENERATIONS && Idle(s, d)
    ensures var s' := Begin(Finish(s, c, config), d);
            d in s'.returned && s'.returned[d].result.sent < s'.returned[d].started
  {
    CachedIffSameGeneration(s, c, config);
  }

  // ---------------------------------------------------------------- the provider

  /** The provider's fields, changed only inside its mutex; the ghost state records the calls made so far. */
  class Provider {
    var clusterCache: Option<Config>
    var clusterGeneration: nat
    ghost var state: State
    ghost var wrapped: bool                   // whether the counter came round during some fetch

    ghost predicate Valid()
      reads this
    {
      && clusterGeneration == state.generation
      && clusterCache == (if state.cached.Some? then Some(state.cached.value.config) else None)
      && (wrapped || Inv(state))
    }

    constructor ()
      ensures Valid() && state == INITIAL && !wrapped
    {
      clusterCache, clusterGeneration, state, wrapped := None, 0, INITIAL, false;
    }

    /** GetClusterConfig up to its fetch: a cached configuration, or the generation to fetch under. */
    method BeginGetClusterConfig(ghost c: nat) returns (hit: Option<Config>, generation: nat)
      requires Valid() && Idle(state, c)
      modifies this
      ensures Valid() && state == Begin(old(state), c) && wrapped == old(wrapped)
      ensures hit.Some? ==> c in state.returned && state.returned[c].result.config == hit.value
      ensures hit.Some? && !wrapped ==> state.returned[c].result.sent >= old(state).invalidations
      ensures hit.None? ==>
                c in state.flights && state.flights[c].generation == generation && state.flights[c].sent.None?
    {
      if !wrapped { CallKeepsInv(state, c); }
      hit, generation := clusterCache, clusterGeneration;
      state := Begin(state, c);
    }

    /** The request goes out, outside the mutex. */
    method SendFetch(ghost c: nat)
      requires Valid() && c in state.flights && state.flights[c].sent.None?
      modifies `state
      ensures Valid() && state == Send(old(state), c) && state.flights[c].sent.Some?
    {
      if !wrapped { CallKeepsInv(state, c); }
      state := Send(state, c);
    }

    /** The request fails, and with it the call. */
    method FailFetch(ghost c: nat)
      requires Valid() && c in state.flights
      modifies `state
      ensures Valid() && state == Fail(old(state), c) && c !in state.flights && state.returned == old(state).returned
    {
      if !wrapped { CallKeepsInv(state, c); }
      state := Fail(state, c);
    }

    /**
     GetClusterConfig after its fetch: what is returned, and kept if nothing was invalidated, was sent after the call
     began.
     */
    method FinishGetClusterConfig(ghost c: nat, generation: nat, config: Config) returns (result: Config)
      requires Valid() && c in state.flights && state.flights[c].sent.Some? && state.flights[c].generation == generation
      modifies this
      ensures Valid() && state == Finish(old(state), c, config)
      ensures wrapped <==> old(wrapped) || !NoWrap(old(state))
      ensures state.returned[c].result.config == result == config
      ensures !wrapped ==> state.returned[c].result.sent >= state.returned[c].started == old(state).flights[c].started
    {
      if !wrapped && NoWrap(state) { FinishKeepsInv(state, c, config); }
      if generation == clusterGeneration { clusterCache := Some(config); }
      wrapped := wrapped || !NoWrap(state);
      state := Finish(state, c, config);
      result := config;
    }

    method InvalidateClusterConfig()
      requires Valid()
      modifies this
      ensures Valid() && state == Invalidate(old(state)) && clusterCache == None && wrapped == old(wrapped)
    {
      NextGeneration(state.invalidations);
      clusterCache := None;
      clusterGeneration := (clusterGeneration + 1) % GENERATIONS;
      state := Invalidate(state);
    }

    /** The entry's lifetime ends. */
    method ExpireEntry()
      requires Valid()
      modifies `clusterCache, `state
      ensures Valid() && state == Expire(old(state)) && clusterCache == None
    {
      clusterCache := None;
      state := Expire(state);
    }

    /** A whole call that nothing interrupts; answer is None if the fetch fails.  A success is cached. */
    method GetClusterConfig(ghost c: nat, answer: Option<Config>) returns (result: Option<Config>)
      requires Valid() && Idle(state, c)
      modifies this
      ensures Valid() && state.invalidations == old(state).invalidations
      ensures result == if old(clusterCache).Some? then old(clusterCache) else answer
      ensures clusterCache == result
      ensures result.Some? && !wrapped ==>
                c in state.returned && state.returned[c].result.config == result.value
                && state.returned[c].result.sent >= old(state).invalidations
    {
      var hit, generation := BeginGetClusterConfig(c);
      if hit.Some? { return hit; }
      SendFetch(c);
      if answer.None? {
        FailFetch(c);
        return None;
      }
      var config := FinishGetClusterConfig(c, generation, answer.value);
      return Some(config);
    }
  }
}
