/** `LLMRouterService.complete`: a request walks the provider chain, skipping open circuits and
    retrying each admitted provider, until one answers. */
module LlmRouter {
  import opened Common
  import opened CircuitBreaker

  type Provider = string

  datatype RouterConfig = RouterConfig(maxRetries: int, retryDelayMs: nat, breaker: Config)

  datatype Outcome = Answer(content: string) | RetryableError | FatalError

  /** What the outside world does to one request: how attempt `k` at chain position `i` ends and how
      long it takes, how much later than asked the retry timer fires, and how much time passes
      before position `i` is looked at. */
  datatype Env = Env(
    outcome: (nat, int) -> Outcome,
    latency: (nat, int) -> nat,
    lateness: (nat, int) -> nat,
    pause: nat -> nat)

  /** One call: the how-manieth attempt of its request at this provider it is, and when it ran. */
  datatype Call = Call(provider: Provider, attempt: int, start: int, end: int)

  /** A request in progress: all breakers and the clock, the answer and the chain position it came
      from, the providers counted as tried, those announced to `onFallback`, every call made and the
      retry delays asked for so far. */
  datatype Progress = Progress(
    breakers: map<Provider, Breaker>,
    now: int,
    answer: Option<(nat, string)>,
    tried: seq<Provider>,
    fallbacks: seq<Provider>,
    calls: seq<Call>,
    waited: nat)

  function Begin(breakers: map<Provider, Breaker>, now: int): Progress {
    Progress(breakers, now, None, [], [], [], 0)
  }

  // ---------- the chain ----------

  function Without(chain: seq<Provider>, p: Provider): seq<Provider> {
    if chain == [] then []
    else (if chain[0] != p then [chain[0]] else []) + Without(chain[1..], p)
  }

  function BuildChain(preferred: Option<Provider>, fallbackChain: seq<Provider>): seq<Provider> {
    if preferred == None || preferred.value == "" then fallbackChain
    else [preferred.value] + Without(fallbackChain, preferred.value)
  }

  lemma DistinctCons(p: Provider, chain: seq<Provider>)
    requires Distinct(chain) && p !in chain
    ensures Distinct([p] + chain)
  {
  }

  lemma {:induction false} WithoutMembers(chain: seq<Provider>, p: Provider)
    ensures forall q :: q in Without(chain, p) <==> q in chain && q != p
    ensures Distinct(chain) ==> Distinct(Without(chain, p))
  {
    if chain != [] {
      WithoutMembers(chain[1..], p);
      var head, rest := chain[0], Without(chain[1..], p);
      assert chain == [head] + chain[1..];
      if Distinct(chain) && head != p {
        DistinctCons(head, rest);
      }
    }
  }

  /** The preferred provider comes first; no fallback is lost or repeated. */
  lemma ChainShape(preferred: Option<Provider>, fallbackChain: seq<Provider>)
    requires Distinct(fallbackChain)
    ensures var chain := BuildChain(preferred, fallbackChain);
      && Distinct(chain)
      && (forall q :: q in fallbackChain ==> q in chain)
      && (preferred.Some? && preferred.value != "" ==> chain != [] && chain[0] == preferred.value)
  {
    if preferred.Some? {
      WithoutMembers(fallbackChain, preferred.value);
      DistinctCons(preferred.value, Without(fallbackChain, preferred.value));
    }
  }

  lemma {:induction false} WithoutAppend(a: seq<Provider>, b: seq<Provider>, p: Provider)
    ensures Without(a + b, p) == Without(a, p) + Without(b, p)
  {
    if a == [] {
      assert a + b == b;
    } else {
      WithoutAppend(a[1..], b, p);
      var all := a + b;
      assert all[0] == a[0] && all[1..] == a[1..] + b;
      Assoc(if a[0] != p then [a[0]] else [], Without(a[1..], p), Without(b, p));
    }
  }

  lemma {:induction false} WithoutAbsent(chain: seq<Provider>, p: Provider)
    requires p !in chain
    ensures Without(chain, p) == chain
  {
    if chain != [] {
      WithoutAbsent(chain[1..], p);
    }
  }

  /** The preferred provider moves to the front, and the fallbacks stay in their order. */
  lemma ChainOrder(p: Provider, a: seq<Provider>, b: seq<Provider>)
    requires p != "" && p !in a && p !in b
    ensures BuildChain(Some(p), a + [p] + b) == [p] + a + b
    ensures BuildChain(Some(p), a) == [p] + a
    ensures BuildChain(None, a) == a && BuildChain(Some(""), a) == a
  {
    WithoutAppend(a + [p], b, p);
    WithoutAppend(a, [p], p);
    WithoutAbsent(a, p);
    WithoutAbsent(b, p);
    assert Without([p], p) == [];
    assert [p] + (a + [] + b) == [p] + a + b;
  }

  // ---------- the attempts at one provider ----------

  /** One call to provider `p` has ended, with the given effect on its breaker. */
  function Called(s: Progress, p: Provider, attempt: int, end: int, b: Breaker): Progress {
    s.(breakers := s.breakers[p := b], now := end, calls := s.calls + [Call(p, attempt, s.now, end)])
  }

  /** One attempt and the wait after it; `true` when another attempt follows. */
  function AttemptOnce(cfg: RouterConfig, env: Env, p: Provider, i: nat, attempt: int, s: Progress): (Progress, bool)
    requires p in s.breakers
  {
    var end := s.now + env.latency(i, attempt);
    var failed := Called(s, p, attempt, end, Fail(s.breakers[p], cfg.breaker, end));
    match env.outcome(i, attempt)
    case Answer(content) => (Called(s, p, attempt, end, Succeed(s.breakers[p])).(answer := Some((i, content))), false)
    case FatalError => (failed, false)
    case RetryableError =>
      if attempt == cfg.maxRetries then (failed, false)
      else
        var wait := if attempt > 0 then cfg.retryDelayMs * attempt else 0;
        (failed.(now := end + wait + env.lateness(i, attempt), waited := s.waited + wait), true)
  }

  function TryFrom(cfg: RouterConfig, env: Env, p: Provider, i: nat, attempt: int, s: Progress): (s': Progress)
    requires p in s.breakers
    ensures s'.breakers.Keys == s.breakers.Keys && s'.tried == s.tried && s'.fallbacks == s.fallbacks
    decreases cfg.maxRetries - attempt
  {
    if attempt > cfg.maxRetries then s
    else
      var (next, again) := AttemptOnce(cfg, env, p, i, attempt, s);
      if again then TryFrom(cfg, env, p, i, attempt + 1, next) else next
  }

  // ---------- the walk along the chain ----------

  /** The provider at position `i` is admitted: its breaker is probed, and a fallback is announced. */
  function Admit(cfg: RouterConfig, p: Provider, i: nat, s: Progress): Progress
    requires p in s.breakers
  {
    s.(breakers := s.breakers[p := Probe(s.breakers[p], cfg.breaker, s.now)],
       fallbacks := if i > 0 then s.fallbacks + [p] else s.fallbacks)
  }

  /** The request as it looks at position `i`, some time after it was done with the one before. */
  function Look(pause: nat -> nat, i: nat, s: Progress): Progress {
    s.(now := s.now + pause(i))
  }

  /** The request after a provider that is not registered, or whose circuit turns it away. */
  function PassedOver(pause: nat -> nat, p: Provider, i: nat, s: Progress): Progress {
    var here := Look(pause, i, s);
    if p in s.breakers then here.(tried := s.tried + [p]) else here
  }

  /** Whether the provider `p` at position `i` is called. */
  predicate LetsThrough(cfg: RouterConfig, pause: nat -> nat, p: Provider, i: nat, s: Progress) {
    p in s.breakers && !Skips(s.breakers[p], cfg.breaker, Look(pause, i, s).now)
  }

  /** All attempts at the admitted provider of position `i`. */
  function Visit(cfg: RouterConfig, env: Env, p: Provider, i: nat, s: Progress): (s': Progress)
    requires p in s.breakers
    ensures s'.breakers.Keys == s.breakers.Keys
  {
    TryFrom(cfg, env, p, i, 1, Admit(cfg, p, i, s))
  }

  function RunFrom(cfg: RouterConfig, env: Env, chain: seq<Provider>, i: nat, s: Progress): (s': Progress)
    ensures s'.breakers.Keys == s.breakers.Keys
    decreases |chain| - i
  {
    if i >= |chain| then s
    else
      var p := chain[i];
      if !LetsThrough(cfg, env.pause, p, i, s) then RunFrom(cfg, env, chain, i + 1, PassedOver(env.pause, p, i, s))
      else
        var done := Visit(cfg, env, p, i, Look(env.pause, i, s));
        if done.answer.Some? then done
        else RunFrom(cfg, env, chain, i + 1, done.(tried := s.tried + [p]))
  }

  // ---------- streaming ----------

  datatype Chunk = Chunk(delta: string, done: bool, usage: Option<nat>)

  /** The chunks the provider at a position sends, whether its stream then completes or fails, and the
      times this takes. */
  datatype StreamEnv = StreamEnv(
    chunks: nat -> seq<Chunk>,
    completes: nat -> bool,
    latency: nat -> nat,
    pause: nat -> nat)

  /** What the subscriber of the router's stream sees. */
  datatype StreamEvent = Next(chunk: Chunk) | Completed | Exhausted(tried: seq<Provider>)

  function AllNext(chunks: seq<Chunk>): (events: seq<StreamEvent>)
    ensures |events| == |chunks| && forall k :: 0 <= k < |chunks| ==> events[k] == Next(chunks[k])
  {
    if chunks == [] then [] else AllNext(chunks[..|chunks| - 1]) + [Next(chunks[|chunks| - 1])]
  }

  /** A stream in progress: the walk along the chain, and the events delivered so far. A stream that
      completes is its provider's answer; the text is in the events. */
  datatype StreamProgress = StreamProgress(walk: Progress, events: seq<StreamEvent>)

  function StreamBegin(breakers: map<Provider, Breaker>, now: int): StreamProgress {
    StreamProgress(Begin(breakers, now), [])
  }

  /** The stream of an admitted provider, and the effect on its breaker. */
  function StreamOnce(cfg: RouterConfig, env: StreamEnv, p: Provider, i: nat, s: StreamProgress): StreamProgress
    requires p in s.walk.breakers
  {
    var end := s.walk.now + env.latency(i);
    var b := s.walk.breakers[p];
    var walk := if env.completes(i) then Called(s.walk, p, 1, end, Succeed(b)).(answer := Some((i, "")))
                else Called(s.walk, p, 1, end, Fail(b, cfg.breaker, end));
    StreamProgress(walk, s.events + AllNext(env.chunks(i)))
  }

  /** The provider at position `i` is admitted and streams. */
  function StreamVisit(cfg: RouterConfig, env: StreamEnv, p: Provider, i: nat, s: StreamProgress): StreamProgress
    requires p in s.walk.breakers
  {
    StreamOnce(cfg, env, p, i, s.(walk := Admit(cfg, p, i, Look(env.pause, i, s.walk))))
  }

  /** The stream of the provider at position `i` has failed. */
  function StreamFailed(cfg: RouterConfig, env: StreamEnv, p: Provider, i: nat, s: StreamProgress): StreamProgress
    requires p in s.walk.breakers
  {
    var done := StreamVisit(cfg, env, p, i, s);
    done.(walk := done.walk.(tried := s.walk.tried + [p]))
  }

  function StreamFrom(cfg: RouterConfig, env: StreamEnv, chain: seq<Provider>, i: nat, s: StreamProgress): (s': StreamProgress)
    ensures s'.walk.breakers.Keys == s.walk.breakers.Keys
    decreases |chain| - i
  {
    if i >= |chain| then s.(events := s.events + [Exhausted(s.walk.tried)])
    else
      var p := chain[i];
      if !LetsThrough(cfg, env.pause, p, i, s.walk) then
        StreamFrom(cfg, env, chain, i + 1, s.(walk := PassedOver(env.pause, p, i, s.walk)))
      else if env.completes(i) then
        var done := StreamVisit(cfg, env, p, i, s);
        done.(events := done.events + [Completed])
      else StreamFrom(cfg, env, chain, i + 1, StreamFailed(cfg, env, p, i, s))
  }

  // ---------- the service ----------

  class LLMRouterService {
    const cfg: RouterConfig
    const fallbackChain: seq<Provider>
    const circuitBreakers: map<Provider, ProviderCircuitBreaker>

    ghost predicate Valid() {
      && (forall p :: p in circuitBreakers ==> circuitBreakers[p].cfg == cfg.breaker)
      && (forall p, q :: p in circuitBreakers && q in circuitBreakers && p != q
            ==> circuitBreakers[p] != circuitBreakers[q])
    }

    ghost function Breakers(): map<Provider, Breaker>
      reads circuitBreakers.Values
    {
      map p | p in circuitBreakers :: circuitBreakers[p].View()
    }

    constructor (cfg: RouterConfig, fallbackChain: seq<Provider>, circuitBreakers: map<Provider, ProviderCircuitBreaker>)
      requires forall p :: p in circuitBreakers ==> circuitBreakers[p].cfg == cfg.breaker
      requires forall p, q :: p in circuitBreakers && q in circuitBreakers && p != q
                 ==> circuitBreakers[p] != circuitBreakers[q]
      ensures Valid() && this.cfg == cfg && this.fallbackChain == fallbackChain && this.circuitBreakers == circuitBreakers
    {
      this.cfg, this.fallbackChain, this.circuitBreakers := cfg, fallbackChain, circuitBreakers;
    }

    /** One pass through the body of the retry loop, entered at time `start`. */
    method TryOnce(env: Env, p: Provider, i: nat, attempt: int, start: int, ghost s: Progress)
      returns (answer: Option<(nat, string)>, now: int, again: bool, ghost s': Progress)
      requires Valid() && p in circuitBreakers && attempt >= 1
      requires s.breakers == Breakers() && s.now == start && s.answer == None
      modifies circuitBreakers.Values
      ensures (s', again) == AttemptOnce(cfg, env, p, i, attempt, s)
      ensures s'.breakers == Breakers() && s'.now == now && s'.answer == answer
    {
      var cb := circuitBreakers[p];
      answer, again, now := None, false, start + env.latency(i, attempt);
      match env.outcome(i, attempt) {
        case Answer(content) =>
          cb.RecordSuccess();
          answer := Some((i, content));
        case FatalError =>
          cb.RecordFailure(now);
        case RetryableError =>
          cb.RecordFailure(now);
          if attempt != cfg.maxRetries {
            now := now + cfg.retryDelayMs * attempt + env.lateness(i, attempt);
            again := true;
          }
      }
      s' := AttemptOnce(cfg, env, p, i, attempt, s).0;
    }

    /** The retry loop at chain position `i`. */
    method Attempt(env: Env, p: Provider, i: nat, start: int, ghost s: Progress)
      returns (answer: Option<(nat, string)>, now: int, ghost s': Progress)
      requires Valid() && p in circuitBreakers
      requires s.breakers == Breakers() && s.now == start && s.answer == None
      modifies circuitBreakers.Values
      ensures s' == TryFrom(cfg, env, p, i, 1, s)
      ensures s'.breakers == Breakers() && s'.now == now && s'.answer == answer
    {
      answer, now, s' := None, start, s;
      var attempt, again := 1, true;
      while attempt <= cfg.maxRetries && again
        invariant attempt >= 1
        invariant s'.breakers == Breakers() && s'.now == now && s'.answer == answer
        invariant again ==> answer == None
        invariant TryFrom(cfg, env, p, i, 1, s) == if again then TryFrom(cfg, env, p, i, attempt, s') else s'
        decreases cfg.maxRetries - attempt
      {
        answer, now, again, s' := TryOnce(env, p, i, attempt, now, s');
        attempt := attempt + 1;
      }
    }

    /** Asks the breaker of provider `p` whether to skip it. */
    method IsOpen(p: Provider, now: int) returns (open: bool)
      requires Valid() && p in circuitBreakers
      modifies circuitBreakers.Values
      ensures open == Skips(old(Breakers())[p], cfg.breaker, now)
      ensures Breakers() == old(Breakers())[p := Probe(old(Breakers())[p], cfg.breaker, now)]
      ensures open ==> Breakers() == old(Breakers())
    {
      open := circuitBreakers[p].IsOpen(now);
      assert open ==> Breakers()[p] == old(Breakers())[p];
    }

    /** Without an answer, the source throws an exception that lists the tried providers. */
    method Complete(env: Env, preferred: Option<Provider>, start: int)
      returns (answer: Option<(nat, string)>, tried: seq<Provider>, fallbacks: seq<Provider>, end: int, ghost s: Progress)
      requires Valid()
      modifies circuitBreakers.Values
      ensures s == RunFrom(cfg, env, BuildChain(preferred, fallbackChain), 0, Begin(old(Breakers()), start))
      ensures s.breakers == Breakers() && s.now == end
      ensures s.answer == answer && s.tried == tried && s.fallbacks == fallbacks
    {
      var chain := BuildChain(preferred, fallbackChain);
      answer, tried, fallbacks, end, s := None, [], [], start, Begin(Breakers(), start);
      ghost var goal := RunFrom(cfg, env, chain, 0, s);
      var chainIdx := 0;
      while chainIdx < |chain|
        invariant chainIdx <= |chain|
        invariant s.breakers == Breakers() && s.now == end
        invariant s.answer == answer == None && s.tried == tried && s.fallbacks == fallbacks
        invariant goal == RunFrom(cfg, env, chain, chainIdx, s)
      {
        var p := chain[chainIdx];
        ghost var before := s;
        end := end + env.pause(chainIdx);
        s := Look(env.pause, chainIdx, s);
        if p in circuitBreakers {
          var open := IsOpen(p, end);
          if !open {
            if chainIdx > 0 {
              fallbacks := fallbacks + [p];
            }
            answer, end, s := Attempt(env, p, chainIdx, end, Admit(cfg, p, chainIdx, s));
            assert s == Visit(cfg, env, p, chainIdx, Look(env.pause, chainIdx, before));
            if answer.Some? {
              return;
            }
          }
          tried := tried + [p];
          s := s.(tried := tried);
          assert open ==> s == PassedOver(env.pause, p, chainIdx, before);
        }
        chainIdx := chainIdx + 1;
      }
    }

    /** The subscription to the stream of one provider. */
    method Subscribe(env: StreamEnv, p: Provider, i: nat, start: int, ghost s: StreamProgress)
      returns (chunks: seq<StreamEvent>, end: int, ghost s': StreamProgress)
      requires Valid() && p in circuitBreakers && s.walk.breakers == Breakers() && s.walk.now == start
      modifies circuitBreakers.Values
      ensures s' == StreamOnce(cfg, env, p, i, s)
      ensures s'.walk.breakers == Breakers() && s'.walk.now == end && s'.events == s.events + chunks
      ensures s'.walk.tried == s.walk.tried && s'.walk.fallbacks == s.walk.fallbacks
    {
      var cb := circuitBreakers[p];
      chunks, end := AllNext(env.chunks(i)), start + env.latency(i);
      if env.completes(i) {
        cb.RecordSuccess();
      } else {
        cb.RecordFailure(end);
      }
      s' := StreamOnce(cfg, env, p, i, s);
    }

    method Stream(env: StreamEnv, preferred: Option<Provider>, start: int)
      returns (events: seq<StreamEvent>, fallbacks: seq<Provider>, end: int, ghost s: StreamProgress)
      requires Valid()
      modifies circuitBreakers.Values
      ensures s == StreamFrom(cfg, env, BuildChain(preferred, fallbackChain), 0, StreamBegin(old(Breakers()), start))
      ensures s.walk.breakers == Breakers() && s.walk.now == end
      ensures s.events == events && s.walk.fallbacks == fallbacks
    {
      var chain := BuildChain(preferred, fallbackChain);
      var tried: seq<Provider> := [];
      events, fallbacks, end, s := [], [], start, StreamBegin(Breakers(), start);
      ghost var goal := StreamFrom(cfg, env, chain, 0, s);
      var chainIdx := 0;
      while chainIdx < |chain|
        invariant chainIdx <= |chain|
        invariant s.walk.breakers == Breakers() && s.walk.now == end && s.events == events
        invariant s.walk.tried == tried && s.walk.fallbacks == fallbacks
        invariant goal == StreamFrom(cfg, env, chain, chainIdx, s)
      {
        var p := chain[chainIdx];
        ghost var before := s;
        end := end + env.pause(chainIdx);
        s := s.(walk := Look(env.pause, chainIdx, s.walk));
        if p in circuitBreakers {
          var open := IsOpen(p, end);
          if !open {
            if chainIdx > 0 {
              fallbacks := fallbacks + [p];
            }
            var chunks;
            chunks, end, s := Subscribe(env, p, chainIdx, end, s.(walk := Admit(cfg, p, chainIdx, s.walk)));
            assert s == StreamVisit(cfg, env, p, chainIdx, before);
            events := events + chunks;
            if env.completes(chainIdx) {
              events := events + [Completed];
              s := s.(events := events);
              return;
            }
          }
          tried := tried + [p];
          s := s.(walk := s.walk.(tried := tried));
          assert open ==> s == before.(walk := PassedOver(env.pause, p, chainIdx, before.walk));
        }
        chainIdx := chainIdx + 1;
      }
      events := events + [Exhausted(tried)];
      s := s.(events := events);
    }
  }
}
