/** Any number of requests to one router, completions and streams, one after another. */
module RouterRuns {
  import opened CircuitBreaker
  import opened Common
  import opened LlmRouter
  import opened RouterSpec
  import opened StreamSpec

  /** A request, and the time since the previous one ended. */
  datatype Arrival =
    | Completion(env: Env, chain: seq<Provider>, idle: nat)
    | Streaming(stream: StreamEnv, chain: seq<Provider>, idle: nat)

  /** The router takes up the next request; breakers, clock and the log of calls live on. */
  function TakeUp(s: Progress, idle: nat): Progress {
    s.(now := s.now + idle, answer := None, tried := [], fallbacks := [])
  }

  function Handle(cfg: RouterConfig, a: Arrival, s: Progress): (s': Progress)
    ensures s'.breakers.Keys == s.breakers.Keys
  {
    match a
    case Completion(env, chain, idle) => RunFrom(cfg, env, chain, 0, TakeUp(s, idle))
    case Streaming(stream, chain, idle) => StreamFrom(cfg, stream, chain, 0, StreamProgress(TakeUp(s, idle), [])).walk
  }

  function Serve(cfg: RouterConfig, arrivals: seq<Arrival>, s: Progress): (s': Progress)
    ensures s'.breakers.Keys == s.breakers.Keys
    decreases |arrivals|
  {
    if arrivals == [] then s else Serve(cfg, arrivals[1..], Handle(cfg, arrivals[0], s))
  }

  /** A stream counts as a request with one attempt at each provider. */
  function ConfigOf(cfg: RouterConfig, a: Arrival): RouterConfig {
    if a.Streaming? then OneShot(cfg) else cfg
  }

  function EnvOf(a: Arrival): Env {
    if a.Streaming? then AsEnv(a.stream) else a.env
  }

  lemma HandleIsRun(cfg: RouterConfig, a: Arrival, s: Progress)
    ensures Handle(cfg, a, s) == RunFrom(ConfigOf(cfg, a), EnvOf(a), a.chain, 0, TakeUp(s, a.idle))
  {
    if a.Streaming? {
      StreamIsRun(cfg, a.stream, a.chain, 0, StreamProgress(TakeUp(s, a.idle), []));
    }
  }

  // ---------- circuits between requests ----------

  lemma {:induction false} RunsLeaveNoneHalfOpen(cfg: RouterConfig, arrivals: seq<Arrival>, s: Progress)
    requires cfg.maxRetries >= 1 && cfg.breaker.failureThreshold >= 1
    requires AllSettled(s.breakers, cfg.breaker)
    ensures AllSettled(Serve(cfg, arrivals, s).breakers, cfg.breaker)
    decreases |arrivals|
  {
    if arrivals != [] {
      var a := arrivals[0];
      HandleIsRun(cfg, a, s);
      NoneLeftHalfOpen(ConfigOf(cfg, a), EnvOf(a), a.chain, 0, TakeUp(s, a.idle));
      RunsLeaveNoneHalfOpen(cfg, arrivals[1..], Handle(cfg, a, s));
    }
  }

  /** A stream that fails at once, and a request that is answered at once if it is made at all. */
  const BROKEN := StreamEnv((_: nat) => [], (_: nat) => false, (_: nat) => 0, (_: nat) => 0)
  const PROMPT := Env((_: nat, _: int) => Answer(""), (_: nat, _: int) => 0, (_: nat, _: int) => 0, (_: nat) => 0)

  function BrokenStreams(p: Provider, n: nat): seq<Arrival> {
    if n == 0 then [] else [Streaming(BROKEN, [p], 0)] + BrokenStreams(p, n - 1)
  }

  /** A closed breaker charged with a failed stream. */
  lemma BrokenStream(cfg: RouterConfig, p: Provider, s: Progress)
    requires p in s.breakers && s.breakers[p].state == CLOSED
    ensures Handle(cfg, Streaming(BROKEN, [p], 0), s).breakers[p] == Fail(s.breakers[p], cfg.breaker, s.now)
    ensures Handle(cfg, Streaming(BROKEN, [p], 0), s).now == s.now
  {
    var begin := StreamProgress(TakeUp(s, 0), []);
    StreamAdmitted(cfg, BROKEN, [p], 0, begin);
    assert StreamFailed(cfg, BROKEN, p, 0, begin).walk.breakers[p] == Fail(s.breakers[p], cfg.breaker, s.now);
  }

  /** As many failed streams as the threshold asks for open a closed circuit. */
  lemma {:induction false} BrokenStreamsTrip(cfg: RouterConfig, p: Provider, n: nat, s: Progress)
    requires p in s.breakers && s.breakers[p].state == CLOSED
    requires n >= 1 && s.breakers[p].failureCount + n == cfg.breaker.failureThreshold
    ensures var s' := Serve(cfg, BrokenStreams(p, n), s);
      s'.breakers[p] == Breaker(OPEN, cfg.breaker.failureThreshold, s.now) && s'.now == s.now
  {
    BrokenStream(cfg, p, s);
    if n > 1 {
      BrokenStreamsTrip(cfg, p, n - 1, Handle(cfg, Streaming(BROKEN, [p], 0), s));
    }
    assert BrokenStreams(p, n)[1..] == BrokenStreams(p, n - 1);
  }

  lemma {:induction false} ServeAppend(cfg: RouterConfig, first: seq<Arrival>, a: Arrival, s: Progress)
    ensures Serve(cfg, first + [a], s) == Handle(cfg, a, Serve(cfg, first, s))
    decreases |first|
  {
    if first == [] {
      assert first + [a] == [a] && [a][1..] == [];
    } else {
      ServeAppend(cfg, first[1..], a, Handle(cfg, first[0], s));
      assert (first + [a])[1..] == first[1..] + [a];
    }
  }

  /** With no attempts allowed, a request past the cooldown leaves an open breaker half-open. */
  lemma ProbeLeftBehind(cfg: RouterConfig, p: Provider, idle: nat, s: Progress)
    requires cfg.maxRetries <= 0 && p in s.breakers && s.breakers[p].state == OPEN
    requires s.now + idle - s.breakers[p].lastFailureTime >= cfg.breaker.cooldownMs
    ensures Handle(cfg, Completion(PROMPT, [p], idle), s).breakers[p].state == HALF_OPEN
  {
    var here := Look(PROMPT.pause, 0, TakeUp(s, idle));
    assert Visit(cfg, PROMPT, p, 0, here) == Admit(cfg, p, 0, here);
    RunAdmitted(cfg, PROMPT, [p], 0, TakeUp(s, idle));
  }

  /** From fresh breakers: as many failed streams as open the circuit of `p`, and one request after the cooldown. */
  function ProbingRun(cfg: RouterConfig, p: Provider): seq<Arrival> {
    BrokenStreams(p, Max(cfg.breaker.failureThreshold, 0)) + [Completion(PROMPT, [p], Max(cfg.breaker.cooldownMs, 0))]
  }

  lemma HalfOpenLeftBehind(cfg: RouterConfig, p: Provider, start: Progress)
    requires cfg.maxRetries <= 0 && cfg.breaker.failureThreshold >= 1
    requires p in start.breakers && start.breakers[p] == FRESH
    ensures Serve(cfg, ProbingRun(cfg, p), start).breakers[p].state == HALF_OPEN
  {
    var streams, idle := BrokenStreams(p, cfg.breaker.failureThreshold), Max(cfg.breaker.cooldownMs, 0);
    BrokenStreamsTrip(cfg, p, cfg.breaker.failureThreshold, start);
    ServeAppend(cfg, streams, Completion(PROMPT, [p], idle), start);
    ProbeLeftBehind(cfg, p, idle, Serve(cfg, streams, start));
  }

  /** No circuit is ever left half-open between requests, whatever completions and streams there are, if and
      only if the router is configured to make at least one attempt. */
  lemma NeverHalfOpenIff(cfg: RouterConfig, p: Provider, start: Progress)
    requires cfg.breaker.failureThreshold >= 1
    requires p in start.breakers && forall q :: q in start.breakers ==> start.breakers[q] == FRESH
    ensures (forall arrivals :: AllSettled(Serve(cfg, arrivals, start).breakers, cfg.breaker)) <==> cfg.maxRetries >= 1
  {
    if cfg.maxRetries >= 1 {
      forall arrivals ensures AllSettled(Serve(cfg, arrivals, start).breakers, cfg.breaker) {
        RunsLeaveNoneHalfOpen(cfg, arrivals, start);
      }
    } else {
      HalfOpenLeftBehind(cfg, p, start);
    }
  }
}
