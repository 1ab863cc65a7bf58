/** What one stream of the router amounts to: a request with a single attempt at each provider, whose
    chunks are delivered on the way. */
module StreamSpec {
  import opened CircuitBreaker
  import opened Common
  import opened LlmRouter
  import opened RouterSpec

  function OneShot(cfg: RouterConfig): RouterConfig {
    cfg.(maxRetries := 1)
  }

  function AsEnv(env: StreamEnv): Env {
    Env((i: nat, _: int) => if env.completes(i) then Answer("") else FatalError,
        (i: nat, _: int) => env.latency(i), (_: nat, _: int) => 0, env.pause)
  }

  /** The request that walks the chain as the stream does. */
  function AsRequest(cfg: RouterConfig, env: StreamEnv, chain: seq<Provider>, breakers: map<Provider, Breaker>, start: int)
    : Request
  {
    Request(OneShot(cfg), AsEnv(env), chain, breakers, start)
  }

  // ---------- the walk of a stream ----------

  lemma VisitIsVisit(cfg: RouterConfig, env: StreamEnv, p: Provider, i: nat, s: StreamProgress)
    requires p in s.walk.breakers && s.walk.answer == None
    ensures var visit := Visit(OneShot(cfg), AsEnv(env), p, i, Look(env.pause, i, s.walk));
      && StreamVisit(cfg, env, p, i, s) == StreamProgress(visit, s.events + AllNext(env.chunks(i)))
      && visit.answer == (if env.completes(i) then Some((i, "")) else None)
  {
  }

  lemma StreamPassed(cfg: RouterConfig, env: StreamEnv, chain: seq<Provider>, i: nat, s: StreamProgress)
    requires i < |chain| && !LetsThrough(cfg, env.pause, chain[i], i, s.walk)
    ensures StreamFrom(cfg, env, chain, i, s)
         == StreamFrom(cfg, env, chain, i + 1, s.(walk := PassedOver(env.pause, chain[i], i, s.walk)))
  {
  }

  lemma StreamAdmitted(cfg: RouterConfig, env: StreamEnv, chain: seq<Provider>, i: nat, s: StreamProgress)
    requires i < |chain| && LetsThrough(cfg, env.pause, chain[i], i, s.walk)
    ensures var done := StreamVisit(cfg, env, chain[i], i, s);
      StreamFrom(cfg, env, chain, i, s) ==
        if env.completes(i) then done.(events := done.events + [Completed])
        else StreamFrom(cfg, env, chain, i + 1, StreamFailed(cfg, env, chain[i], i, s))
  {
  }

  /** A stream does to the breakers, the clock and the lists what that request does. */
  lemma {:induction false} StreamIsRun(cfg: RouterConfig, env: StreamEnv, chain: seq<Provider>, i: nat, s: StreamProgress)
    requires s.walk.answer == None
    ensures StreamFrom(cfg, env, chain, i, s).walk == RunFrom(OneShot(cfg), AsEnv(env), chain, i, s.walk)
    decreases |chain| - i
  {
    if i < |chain| {
      var p := chain[i];
      if LetsThrough(cfg, env.pause, p, i, s.walk) {
        VisitIsVisit(cfg, env, p, i, s);
        StreamAdmitted(cfg, env, chain, i, s);
        RunAdmitted(OneShot(cfg), AsEnv(env), chain, i, s.walk);
        if !env.completes(i) {
          StreamIsRun(cfg, env, chain, i + 1, StreamFailed(cfg, env, p, i, s));
        }
      } else {
        StreamPassed(cfg, env, chain, i, s);
        RunPassed(OneShot(cfg), AsEnv(env), chain, i, s.walk);
        StreamIsRun(cfg, env, chain, i + 1, s.(walk := PassedOver(env.pause, p, i, s.walk)));
      }
    }
  }

  /** What the terms of that request mean for a stream: an attempt takes as long as the provider streams,
      an answer is a stream that completes, and a provider that fails is charged once. */
  lemma StreamTerms(cfg: RouterConfig, env: StreamEnv, chain: seq<Provider>, breakers: map<Provider, Breaker>, start: int, j: nat)
    requires j < |chain|
    ensures var r := AsRequest(cfg, env, chain, breakers, start);
      && (r.Answers(j) <==> r.Admits(j) && env.completes(j))
      && (r.Admits(j) <==> chain[j] in breakers && !Skips(breakers[chain[j]], cfg.breaker, r.Arrive(j)))
      && r.Arrive(j) == r.Leave(j) + env.pause(j)
      && r.Leave(j + 1) == r.Arrive(j) + (if r.Admits(j) then env.latency(j) else 0)
      && (chain[j] in breakers ==>
            r.BreakerAfter(j) == (
              if r.Admits(j) then Fail(Probe(breakers[chain[j]], cfg.breaker, r.Arrive(j)), cfg.breaker, r.Leave(j + 1))
              else breakers[chain[j]]))
  {
    var r := AsRequest(cfg, env, chain, breakers, start);
    assert Tries(r.cfg, r.env, j, 1) == 1;
    assert TrialEnd(r.cfg, r.env, j, 1, r.Arrive(j)) == r.Arrive(j) + env.latency(j);
  }

  // ---------- what a stream delivers ----------

  lemma {:induction false} AllNextAppend(a: seq<Chunk>, b: seq<Chunk>)
    ensures AllNext(a + b) == AllNext(a) + AllNext(b)
  {
  }

  /** The chunks of the admitted providers among the first `n` positions, one provider after the other. */
  function Sent(r: Request, env: StreamEnv, n: nat): seq<Chunk>
    requires n <= |r.chain|
  {
    if n == 0 then [] else Sent(r, env, n - 1) + if r.Admits(n - 1) then env.chunks(n - 1) else []
  }

  /** The chunks, and then the terminal event. */
  function StreamEvents(r: Request, env: StreamEnv): seq<StreamEvent> {
    var stop := r.Stop(0);
    if stop < |r.chain| then AllNext(Sent(r, env, stop) + env.chunks(stop)) + [Completed]
    else AllNext(Sent(r, env, stop)) + [Exhausted(r.Registered(stop))]
  }

  /** How a stream ends. The first admitted provider that completes is the last to stream; every admitted one
      before it has streamed and failed, in chain order; and one terminal event follows: completion, or an
      error with every registered provider of the chain. */
  ghost predicate StreamEndsWith(r: Request, env: StreamEnv, s: StreamProgress) {
    var stop := r.Stop(0);
    && r.EndsWith(s.walk)
    && (forall j :: 0 <= j < stop && r.Admits(j) ==> !env.completes(j))
    && (stop < |r.chain| ==> r.Admits(stop) && env.completes(stop))
    && s.events == StreamEvents(r, env)
  }

  /** What is known when the stream reaches position `i`. */
  ghost predicate StreamReached(cfg: RouterConfig, r: Request, env: StreamEnv, i: nat, s: StreamProgress) {
    && Distinct(r.chain) && r == AsRequest(cfg, env, r.chain, r.breakers, r.start)
    && i <= r.Stop(0) && r.Reached(i, s.walk) && s.events == AllNext(Sent(r, env, i))
  }

  lemma ReachedAdmits(cfg: RouterConfig, r: Request, env: StreamEnv, i: nat, s: StreamProgress)
    requires StreamReached(cfg, r, env, i, s) && i < |r.chain|
    ensures r.Admits(i) <==> LetsThrough(cfg, env.pause, r.chain[i], i, s.walk)
    ensures r.Answers(i) <==> r.Admits(i) && env.completes(i)
    ensures s.walk.answer == None
  {
    StreamTerms(cfg, env, r.chain, r.breakers, r.start, i);
    assert r.chain[i] !in r.chain[..i];
  }

  lemma EventsAtStop(cfg: RouterConfig, r: Request, env: StreamEnv, i: nat, s: StreamProgress)
    requires StreamReached(cfg, r, env, i, s) && i == r.Stop(0)
    ensures StreamFrom(cfg, env, r.chain, i, s).events == StreamEvents(r, env)
  {
    if i < |r.chain| {
      ReachedAdmits(cfg, r, env, i, s);
      VisitIsVisit(cfg, env, r.chain[i], i, s);
      StreamAdmitted(cfg, env, r.chain, i, s);
      AllNextAppend(Sent(r, env, i), env.chunks(i));
    }
  }

  lemma EventsAfterFailure(cfg: RouterConfig, r: Request, env: StreamEnv, i: nat, s: StreamProgress)
    requires StreamReached(cfg, r, env, i, s) && i < r.Stop(0) && r.Admits(i)
    ensures r.chain[i] in s.walk.breakers
    ensures var next := StreamFailed(cfg, env, r.chain[i], i, s);
      && StreamReached(cfg, r, env, i + 1, next)
      && StreamFrom(cfg, env, r.chain, i, s) == StreamFrom(cfg, env, r.chain, i + 1, next)
  {
    ReachedAdmits(cfg, r, env, i, s);
    VisitIsVisit(cfg, env, r.chain[i], i, s);
    StreamAdmitted(cfg, env, r.chain, i, s);
    ReachFailed(r, i, s.walk);
    AllNextAppend(Sent(r, env, i), env.chunks(i));
  }

  lemma EventsAfterPass(cfg: RouterConfig, r: Request, env: StreamEnv, i: nat, s: StreamProgress)
    requires StreamReached(cfg, r, env, i, s) && i < r.Stop(0) && !r.Admits(i)
    ensures var next := s.(walk := PassedOver(env.pause, r.chain[i], i, s.walk));
      && StreamReached(cfg, r, env, i + 1, next)
      && StreamFrom(cfg, env, r.chain, i, s) == StreamFrom(cfg, env, r.chain, i + 1, next)
  {
    ReachedAdmits(cfg, r, env, i, s);
    StreamPassed(cfg, env, r.chain, i, s);
    ReachPassed(r, i, s.walk);
    assert Sent(r, env, i + 1) == Sent(r, env, i);
  }

  lemma NextStream(cfg: RouterConfig, r: Request, env: StreamEnv, i: nat, s: StreamProgress) returns (next: StreamProgress)
    requires StreamReached(cfg, r, env, i, s) && i < r.Stop(0)
    ensures StreamReached(cfg, r, env, i + 1, next)
    ensures StreamFrom(cfg, env, r.chain, i, s).events == StreamFrom(cfg, env, r.chain, i + 1, next).events
  {
    if r.Admits(i) {
      EventsAfterFailure(cfg, r, env, i, s);
      next := StreamFailed(cfg, env, r.chain[i], i, s);
    } else {
      EventsAfterPass(cfg, r, env, i, s);
      next := s.(walk := PassedOver(env.pause, r.chain[i], i, s.walk));
    }
  }

  lemma {:induction false} EventsFrom(cfg: RouterConfig, r: Request, env: StreamEnv, i: nat, s: StreamProgress)
    requires StreamReached(cfg, r, env, i, s)
    ensures StreamFrom(cfg, env, r.chain, i, s).events == StreamEvents(r, env)
    decreases r.Stop(0) - i
  {
    if i == r.Stop(0) {
      EventsAtStop(cfg, r, env, i, s);
    } else {
      var next := NextStream(cfg, r, env, i, s);
      EventsFrom(cfg, r, env, i + 1, next);
    }
  }

  /** One call of `stream` on a chain without repetitions, across any fallbacks. */
  lemma StreamMeetsSpec(cfg: RouterConfig, env: StreamEnv, chain: seq<Provider>, breakers: map<Provider, Breaker>, start: int)
    requires Distinct(chain)
    ensures StreamEndsWith(AsRequest(cfg, env, chain, breakers, start), env,
                           StreamFrom(cfg, env, chain, 0, StreamBegin(breakers, start)))
  {
    var r := AsRequest(cfg, env, chain, breakers, start);
    var s := StreamBegin(breakers, start);
    assert chain[..0] == [];
    StreamIsRun(cfg, env, chain, 0, s);
    CompleteMeetsSpec(r);
    EventsFrom(cfg, r, env, 0, s);
    forall j | 0 <= j < |chain| ensures r.Answers(j) <==> r.Admits(j) && env.completes(j) {
      StreamTerms(cfg, env, chain, breakers, start, j);
    }
  }

  /** A stream leaves no circuit half-open. */
  lemma StreamLeavesNoneHalfOpen(cfg: RouterConfig, env: StreamEnv, chain: seq<Provider>, s: StreamProgress)
    requires cfg.breaker.failureThreshold >= 1 && s.walk.answer == None
    requires AllSettled(s.walk.breakers, cfg.breaker)
    ensures AllSettled(StreamFrom(cfg, env, chain, 0, s).walk.breakers, cfg.breaker)
  {
    StreamIsRun(cfg, env, chain, 0, s);
    NoneLeftHalfOpen(OneShot(cfg), AsEnv(env), chain, 0, s.walk);
  }
}
