/** What one request of the router amounts to, independently of its loops: the first admitted
    provider that succeeds answers, and exactly the providers before it are charged. */
module RouterSpec {
  import opened Common
  import opened CircuitBreaker
  import opened LlmRouter

  // ---------- the attempts at one provider ----------

  /** The number of attempts made, counting from `attempt`: up to the first that is not a retryable
      error, and at most until the retry limit. */
  function Tries(cfg: RouterConfig, env: Env, i: nat, attempt: int): nat
    decreases cfg.maxRetries - attempt
  {
    if attempt > cfg.maxRetries then 0
    else if env.outcome(i, attempt).RetryableError? then 1 + Tries(cfg, env, i, attempt + 1)
    else 1
  }

  lemma {:induction false} TriesIsFirst(cfg: RouterConfig, env: Env, i: nat, attempt: int)
    requires attempt >= 1
    ensures var n := Tries(cfg, env, i, attempt);
      && n <= Max(0, cfg.maxRetries - attempt + 1)
      && (forall k :: attempt <= k < attempt + n - 1 ==> env.outcome(i, k).RetryableError?)
      && (attempt + n - 1 < cfg.maxRetries ==> n >= 1 && !env.outcome(i, attempt + n - 1).RetryableError?)
    decreases cfg.maxRetries - attempt
  {
    if attempt <= cfg.maxRetries && env.outcome(i, attempt).RetryableError? {
      TriesIsFirst(cfg, env, i, attempt + 1);
    }
  }

  predicate Succeeds(cfg: RouterConfig, env: Env, i: nat, attempt: int) {
    var n := Tries(cfg, env, i, attempt);
    n >= 1 && env.outcome(i, attempt + n - 1).Answer?
  }

  /** The time at which the attempts end. */
  function TrialEnd(cfg: RouterConfig, env: Env, i: nat, attempt: int, now: int): int
    decreases cfg.maxRetries - attempt
  {
    if attempt > cfg.maxRetries then now
    else
      var end := now + env.latency(i, attempt);
      if env.outcome(i, attempt).RetryableError? && attempt < cfg.maxRetries then
        TrialEnd(cfg, env, i, attempt + 1, end + Max(0, cfg.retryDelayMs * attempt) + env.lateness(i, attempt))
      else end
  }

  /** A breaker after `n` failures, the last of them at time `last`. */
  function FailTimes(b: Breaker, cfg: Config, n: nat, last: int): Breaker {
    if n == 0 then b
    else Breaker(if b.failureCount + n >= cfg.failureThreshold then OPEN else b.state, b.failureCount + n, last)
  }

  function Triangle(k: nat): nat {
    if k == 0 then 0 else Triangle(k - 1) + (k - 1)
  }

  lemma {:induction false} TriangleClosed(k: nat)
    ensures 2 * Triangle(k) == k * (k - 1)
  {
    if k > 0 {
      TriangleClosed(k - 1);
    }
  }

  /** The delays asked for by `n` attempts, numbered from `attempt` on, when all but the last are repeated. */
  function Waits(delay: nat, attempt: nat, n: nat): int {
    if n == 0 then 0 else delay * (Triangle(attempt + n - 1) - Triangle(attempt))
  }

  lemma WaitsStep(delay: nat, attempt: nat, n: nat)
    requires n >= 1
    ensures delay * attempt + Waits(delay, attempt + 1, n) == Waits(delay, attempt, 1 + n)
  {
    assert Triangle(attempt + 1) == Triangle(attempt) + attempt;
    WaitStep(delay, attempt, Triangle(attempt + n), Triangle(attempt));
  }

  lemma WaitsClosed(delay: nat, k: nat)
    ensures 2 * Waits(delay, 1, k) == delay * (k * (k - 1))
  {
    TriangleClosed(k);
    assert Triangle(1) == 0;
    TwiceDelay(delay, Triangle(k));
  }

  lemma WaitStep(delay: int, attempt: int, high: int, low: int)
    ensures delay * attempt + delay * (high - (low + attempt)) == delay * (high - low)
  {
  }

  lemma TwiceDelay(delay: int, x: int)
    ensures 2 * (delay * (x - 0)) == delay * (2 * x)
  {
  }

  /** All calls go to `p`, are attempts numbered from `attempt` on, and happen between the two times
      and one after the other. */
  ghost predicate CallsBy(calls: seq<Call>, p: Provider, attempt: int, from: int, until: int) {
    && (forall k :: 0 <= k < |calls| ==>
          calls[k].provider == p && calls[k].attempt == attempt + k && from <= calls[k].start <= calls[k].end <= until)
    && (forall k, l :: 0 <= k < l < |calls| ==> calls[k].end <= calls[l].start)
  }

  /** The retry loop makes `Tries` calls; if the last one answers the breaker is reset, otherwise it
      is charged with exactly the failed attempts. It waits `retryDelayMs` times 1, 2, ... between them. */
  ghost predicate TrialMeetsSpec(cfg: RouterConfig, env: Env, p: Provider, i: nat, attempt: int, s: Progress, s': Progress)
    requires p in s.breakers && attempt >= 1
  {
    var n := Tries(cfg, env, i, attempt);
    && s'.now == TrialEnd(cfg, env, i, attempt, s.now)
    && s'.breakers.Keys == s.breakers.Keys
    && (forall q :: q in s.breakers && q != p ==> s'.breakers[q] == s.breakers[q])
    && |s'.calls| == |s.calls| + n && s.calls <= s'.calls
    && CallsBy(s'.calls[|s.calls|..], p, attempt, s.now, s'.now)
    && s'.waited == s.waited + Waits(cfg.retryDelayMs, attempt, n)
    && (if Succeeds(cfg, env, i, attempt) then
          s'.answer == Some((i, env.outcome(i, attempt + n - 1).content))
          && s'.breakers[p].state == CLOSED && s'.breakers[p].failureCount == 0
        else
          s'.answer == None && s'.breakers[p] == FailTimes(s.breakers[p], cfg.breaker, n, s'.now))
  }

  lemma {:induction false} TrialSpec(cfg: RouterConfig, env: Env, p: Provider, i: nat, attempt: int, s: Progress)
    requires p in s.breakers && attempt >= 1 && s.answer == None
    ensures TrialMeetsSpec(cfg, env, p, i, attempt, s, TryFrom(cfg, env, p, i, attempt, s))
    decreases cfg.maxRetries - attempt
  {
    if attempt > cfg.maxRetries {
      assert s.calls[|s.calls|..] == [];
    } else {
      var (next, again) := AttemptOnce(cfg, env, p, i, attempt, s);
      if again {
        TrialSpec(cfg, env, p, i, attempt + 1, next);
        TrialCompose(cfg, env, p, i, attempt, s, TryFrom(cfg, env, p, i, attempt + 1, next));
      } else {
        assert next.calls[|s.calls|..] == [Call(p, attempt, s.now, next.now)];
        assert Tries(cfg, env, i, attempt) == 1;
      }
    }
  }

  lemma VisitSpec(cfg: RouterConfig, env: Env, p: Provider, i: nat, s: Progress)
    requires p in s.breakers && s.answer == None
    ensures TrialMeetsSpec(cfg, env, p, i, 1, Admit(cfg, p, i, s), Visit(cfg, env, p, i, s))
    ensures var s' := Visit(cfg, env, p, i, s);
      s'.tried == s.tried && s'.fallbacks == if i > 0 then s.fallbacks + [p] else s.fallbacks
  {
    TrialSpec(cfg, env, p, i, 1, Admit(cfg, p, i, s));
  }

  /** A failed attempt followed by a trial that meets its specification. */
  lemma TrialCompose(cfg: RouterConfig, env: Env, p: Provider, i: nat, attempt: int, s: Progress, s': Progress)
    requires p in s.breakers && 1 <= attempt < cfg.maxRetries && env.outcome(i, attempt).RetryableError?
    requires TrialMeetsSpec(cfg, env, p, i, attempt + 1, AttemptOnce(cfg, env, p, i, attempt, s).0, s')
    ensures TrialMeetsSpec(cfg, env, p, i, attempt, s, s')
  {
    var next := AttemptOnce(cfg, env, p, i, attempt, s).0;
    var first := Call(p, attempt, s.now, s.now + env.latency(i, attempt));
    TrialEndLater(cfg, env, i, attempt + 1, next.now);
    CallsCompose(s.calls, first, s'.calls, p, s.now, next.now, s'.now);
    var n := Tries(cfg, env, i, attempt + 1);
    FailAgain(s.breakers[p], cfg.breaker, first.end, n, s'.now);
    WaitsStep(cfg.retryDelayMs, attempt, n);
  }

  lemma FailAgain(b: Breaker, cfg: Config, at: int, n: nat, last: int)
    requires n >= 1
    ensures FailTimes(Fail(b, cfg, at), cfg, n, last) == FailTimes(b, cfg, 1 + n, last)
  {
  }

  lemma CallsCompose(before: seq<Call>, first: Call, after: seq<Call>, p: Provider, from: int, mid: int, until: int)
    requires first.provider == p && from <= first.start <= first.end <= mid <= until
    requires before + [first] <= after && CallsBy(after[|before| + 1..], p, first.attempt + 1, mid, until)
    ensures before <= after && CallsBy(after[|before|..], p, first.attempt, from, until)
  {
    assert after[|before|] == (before + [first])[|before|] == first;
    assert after[|before|..] == [first] + after[|before| + 1..];
  }

  lemma {:induction false} TrialEndLater(cfg: RouterConfig, env: Env, i: nat, attempt: int, now: int)
    ensures TrialEnd(cfg, env, i, attempt, now) >= now
    decreases cfg.maxRetries - attempt
  {
    if attempt < cfg.maxRetries {
      var end := now + env.latency(i, attempt);
      TrialEndLater(cfg, env, i, attempt + 1, end + Max(0, cfg.retryDelayMs * attempt) + env.lateness(i, attempt));
    }
  }

  /** A provider that makes k attempts waits retryDelayMs * k * (k - 1) / 2 in all. */
  lemma WaitOfProvider(cfg: RouterConfig, env: Env, p: Provider, i: nat, s: Progress)
    requires p in s.breakers && s.answer == None
    ensures var k := Tries(cfg, env, i, 1);
      2 * (TryFrom(cfg, env, p, i, 1, s).waited - s.waited) == cfg.retryDelayMs * (k * (k - 1))
  {
    var k := Tries(cfg, env, i, 1);
    TrialSpec(cfg, env, p, i, 1, s);
    WaitsClosed(cfg.retryDelayMs, k);
  }

  function Total(f: int -> nat, from: int, n: nat): nat
    decreases n
  {
    if n == 0 then 0 else f(from) + Total(f, from + 1, n - 1)
  }

  /** The attempts take the time of all calls, and between any two the delay asked for and the lateness of its timer. */
  lemma {:induction false} TimeOfTrial(cfg: RouterConfig, env: Env, i: nat, attempt: int, now: int)
    requires attempt >= 1
    ensures var n := Tries(cfg, env, i, attempt);
      TrialEnd(cfg, env, i, attempt, now) == now
        + Total(k => env.latency(i, k), attempt, n)
        + (if n == 0 then 0 else Total(k => env.lateness(i, k), attempt, n - 1))
        + Waits(cfg.retryDelayMs, attempt, n)
    decreases cfg.maxRetries - attempt
  {
    if attempt <= cfg.maxRetries {
      var end := now + env.latency(i, attempt);
      if env.outcome(i, attempt).RetryableError? && attempt < cfg.maxRetries {
        var n := Tries(cfg, env, i, attempt + 1);
        TimeOfTrial(cfg, env, i, attempt + 1, end + Max(0, cfg.retryDelayMs * attempt) + env.lateness(i, attempt));
        WaitsStep(cfg.retryDelayMs, attempt, n);
        WaitNonNegative(cfg.retryDelayMs, attempt);
      } else {
        assert Tries(cfg, env, i, attempt) == 1;
        assert Waits(cfg.retryDelayMs, attempt, 1) == 0;
      }
    }
  }

  lemma WaitNonNegative(delay: nat, attempt: nat)
    ensures delay * attempt >= 0
  {
  }

  // ---------- a whole request ----------

  datatype Request = Request(cfg: RouterConfig, env: Env, chain: seq<Provider>, breakers: map<Provider, Breaker>, start: int) {

    /** When position `j` is looked at, if nothing before it answers. */
    function Arrive(j: nat): int
      requires j < |chain|
      decreases j, 1
    {
      Leave(j) + env.pause(j)
    }

    /** When the positions before `j` are done with, if none of them answers. */
    function Leave(j: nat): int
      requires j <= |chain|
      decreases j, 0
    {
      if j == 0 then start
      else if Admits(j - 1) then TrialEnd(cfg, env, j - 1, 1, Leave(j - 1) + env.pause(j - 1))
      else Leave(j - 1) + env.pause(j - 1)
    }

    /** The provider at position `j` is registered and its circuit lets the request through. */
    predicate Admits(j: nat)
      requires j < |chain|
      decreases j, 1
    {
      chain[j] in breakers && !Skips(breakers[chain[j]], cfg.breaker, Leave(j) + env.pause(j))
    }

    predicate Answers(j: nat)
      requires j < |chain|
    {
      Admits(j) && Succeeds(cfg, env, j, 1)
    }

    /** The first position at or after `j` that answers, or the length of the chain. */
    function Stop(j: nat): (stop: nat)
      requires j <= |chain|
      ensures j <= stop <= |chain|
      ensures stop < |chain| ==> Answers(stop)
      ensures forall k :: j <= k < stop ==> !Answers(k)
      decreases |chain| - j
    {
      if j == |chain| || Answers(j) then j else Stop(j + 1)
    }

    function Attempted(lo: nat, hi: nat): seq<Provider>
      requires hi <= |chain|
    {
      if hi <= lo then [] else Attempted(lo, hi - 1) + if Admits(hi - 1) then [chain[hi - 1]] else []
    }

    function Registered(hi: nat): seq<Provider>
      requires hi <= |chain|
    {
      if hi == 0 then [] else Registered(hi - 1) + if chain[hi - 1] in breakers then [chain[hi - 1]] else []
    }

    /** The breaker of position `j` after the provider was passed over or failed. */
    function BreakerAfter(j: nat): Breaker
      requires j < |chain| && chain[j] in breakers
    {
      var b := breakers[chain[j]];
      if Admits(j) then FailTimes(Probe(b, cfg.breaker, Arrive(j)), cfg.breaker, Tries(cfg, env, j, 1), Leave(j + 1))
      else b
    }

    /** What is known when the walk reaches position `i` without an answer. */
    ghost predicate Reached(i: nat, s: Progress)
      requires i <= |chain|
    {
      && s.now == Leave(i) && s.answer == None
      && s.tried == Registered(i) && s.fallbacks == Attempted(1, i)
      && s.breakers.Keys == breakers.Keys
      && (forall j :: 0 <= j < i && chain[j] in breakers ==> s.breakers[chain[j]] == BreakerAfter(j))
      && (forall p :: p in breakers && p !in chain[..i] ==> s.breakers[p] == breakers[p])
    }

    /** How the request ends. The answer comes from the first position that answers; fallbacks are announced for
        exactly the attempted positions behind the first one; the providers in front of the answer are charged
        as `BreakerAfter` says, the answering one is reset, and no other breaker changes. */
    ghost predicate EndsWith(s: Progress) {
      var stop := Stop(0);
      var seen := if stop < |chain| then stop + 1 else stop;
      && s.answer == (if stop < |chain| then Some((stop, env.outcome(stop, Tries(cfg, env, stop, 1)).content)) else None)
      && s.now == Leave(seen)
      && s.tried == Registered(stop)
      && s.fallbacks == Attempted(1, seen)
      && s.breakers.Keys == breakers.Keys
      && (forall j :: 0 <= j < stop && chain[j] in breakers ==> s.breakers[chain[j]] == BreakerAfter(j))
      && (stop < |chain| ==> s.breakers[chain[stop]].state == CLOSED && s.breakers[chain[stop]].failureCount == 0)
      && (forall p :: p in breakers && p !in chain[..seen] ==> s.breakers[p] == breakers[p])
    }

    function Result(): Progress {
      RunFrom(cfg, env, chain, 0, Begin(breakers, start))
    }
  }

  lemma RunAdmitted(cfg: RouterConfig, env: Env, chain: seq<Provider>, i: nat, s: Progress)
    requires i < |chain| && LetsThrough(cfg, env.pause, chain[i], i, s)
    ensures var done := Visit(cfg, env, chain[i], i, Look(env.pause, i, s));
      RunFrom(cfg, env, chain, i, s)
        == if done.answer.Some? then done else RunFrom(cfg, env, chain, i + 1, done.(tried := s.tried + [chain[i]]))
  {
  }

  lemma RunPassed(cfg: RouterConfig, env: Env, chain: seq<Provider>, i: nat, s: Progress)
    requires i < |chain| && !LetsThrough(cfg, env.pause, chain[i], i, s)
    ensures RunFrom(cfg, env, chain, i, s) == RunFrom(cfg, env, chain, i + 1, PassedOver(env.pause, chain[i], i, s))
  {
  }

  /** One position that does not answer: it is passed over ... */
  lemma ReachPassed(r: Request, i: nat, s: Progress)
    requires Distinct(r.chain) && i < |r.chain| && r.Reached(i, s) && !r.Admits(i)
    ensures r.Reached(i + 1, PassedOver(r.env.pause, r.chain[i], i, s))
    ensures RunFrom(r.cfg, r.env, r.chain, i, s)
         == RunFrom(r.cfg, r.env, r.chain, i + 1, PassedOver(r.env.pause, r.chain[i], i, s))
  {
    var p := r.chain[i];
    assert p !in r.chain[..i];
    RunPassed(r.cfg, r.env, r.chain, i, s);
    ReachedNext(r, i, s, PassedOver(r.env.pause, p, i, s), p);
  }

  /** ... or it is admitted and fails. */
  function FailedAt(cfg: RouterConfig, env: Env, p: Provider, i: nat, s: Progress): Progress
    requires p in s.breakers
  {
    Visit(cfg, env, p, i, Look(env.pause, i, s)).(tried := s.tried + [p])
  }

  lemma ReachFailed(r: Request, i: nat, s: Progress)
    requires Distinct(r.chain) && i < |r.chain| && r.Reached(i, s) && r.Admits(i) && !r.Answers(i)
    ensures var next := FailedAt(r.cfg, r.env, r.chain[i], i, s);
      && r.Reached(i + 1, next)
      && RunFrom(r.cfg, r.env, r.chain, i, s) == RunFrom(r.cfg, r.env, r.chain, i + 1, next)
  {
    var p := r.chain[i];
    assert p !in r.chain[..i];
    VisitSpec(r.cfg, r.env, p, i, Look(r.env.pause, i, s));
    RunAdmitted(r.cfg, r.env, r.chain, i, s);
    FailedFacts(r, i, s, Visit(r.cfg, r.env, p, i, Look(r.env.pause, i, s)));
    ReachedNext(r, i, s, FailedAt(r.cfg, r.env, p, i, s), p);
  }

  lemma FailedFacts(r: Request, i: nat, s: Progress, done: Progress)
    requires i < |r.chain| && r.Admits(i) && !r.Answers(i)
    requires s.now == r.Leave(i) && r.chain[i] in s.breakers && s.breakers[r.chain[i]] == r.breakers[r.chain[i]]
    requires TrialMeetsSpec(r.cfg, r.env, r.chain[i], i, 1, Admit(r.cfg, r.chain[i], i, Look(r.env.pause, i, s)), done)
    ensures done.answer == None && done.now == r.Leave(i + 1)
    ensures done.breakers.Keys == s.breakers.Keys && done.breakers[r.chain[i]] == r.BreakerAfter(i)
    ensures forall q :: q in s.breakers && q != r.chain[i] ==> done.breakers[q] == s.breakers[q]
  {
    assert r.Leave(i + 1) == TrialEnd(r.cfg, r.env, i, 1, r.Arrive(i));
  }

  lemma ReachedNext(r: Request, i: nat, s: Progress, s': Progress, p: Provider)
    requires Distinct(r.chain) && i < |r.chain| && r.Reached(i, s) && p == r.chain[i]
    requires s'.now == r.Leave(i + 1) && s'.answer == None
    requires s'.tried == s.tried + (if p in r.breakers then [p] else [])
    requires s'.fallbacks == s.fallbacks + (if r.Admits(i) && i > 0 then [p] else [])
    requires s'.breakers.Keys == s.breakers.Keys
    requires forall q :: q in s.breakers && q != p ==> s'.breakers[q] == s.breakers[q]
    requires p in r.breakers ==> s'.breakers[p] == r.BreakerAfter(i)
    ensures r.Reached(i + 1, s')
  {
    assert r.chain[..i + 1] == r.chain[..i] + [p];
    forall j | 0 <= j < i + 1 && r.chain[j] in r.breakers ensures s'.breakers[r.chain[j]] == r.BreakerAfter(j) {
      if j < i {
        assert r.chain[j] != p;
      }
    }
  }

  lemma ReachNext(r: Request, i: nat, s: Progress) returns (s': Progress)
    requires Distinct(r.chain) && i < r.Stop(0) && r.Reached(i, s)
    ensures r.Reached(i + 1, s')
    ensures RunFrom(r.cfg, r.env, r.chain, i, s) == RunFrom(r.cfg, r.env, r.chain, i + 1, s')
  {
    if r.Admits(i) {
      ReachFailed(r, i, s);
      s' := FailedAt(r.cfg, r.env, r.chain[i], i, s);
    } else {
      ReachPassed(r, i, s);
      s' := PassedOver(r.env.pause, r.chain[i], i, s);
    }
  }

  lemma {:induction false} ReachStop(r: Request, i: nat, s: Progress) returns (s': Progress)
    requires Distinct(r.chain) && i <= r.Stop(0) && r.Reached(i, s)
    ensures r.Reached(r.Stop(0), s')
    ensures RunFrom(r.cfg, r.env, r.chain, i, s) == RunFrom(r.cfg, r.env, r.chain, r.Stop(0), s')
    decreases r.Stop(0) - i
  {
    if i == r.Stop(0) {
      s' := s;
    } else {
      var next := ReachNext(r, i, s);
      s' := ReachStop(r, i + 1, next);
    }
  }

  /** One call of `complete` on a chain without repetitions: the earliest registered, admitted provider that
      succeeds within its attempts answers, and all that follows from this for the fallbacks, the reported
      list and every breaker is exactly so. */
  lemma CompleteMeetsSpec(r: Request)
    requires Distinct(r.chain)
    ensures r.EndsWith(r.Result())
  {
    assert r.chain[..0] == [];
    var s := ReachStop(r, 0, Begin(r.breakers, r.start));
    if r.Stop(0) < |r.chain| {
      AnswerAt(r, r.Stop(0), s);
      AnswerCompletes(r, s, r.Result());
    } else {
      ExhaustionCompletes(r, s);
    }
  }

  lemma ExhaustionCompletes(r: Request, s: Progress)
    requires r.Stop(0) == |r.chain| && r.Reached(|r.chain|, s)
    ensures r.EndsWith(s)
  {
  }

  /** Breakers of other positions are as they were when the answering position was reached. */
  lemma AnswerCompletes(r: Request, s: Progress, s': Progress)
    requires Distinct(r.chain) && r.Stop(0) < |r.chain|
    requires r.Reached(r.Stop(0), s) && AnsweredAt(r, r.Stop(0), s, s')
    ensures r.EndsWith(s')
  {
    var stop := r.Stop(0);
    var last := r.chain[stop];
    assert r.chain[..stop + 1] == r.chain[..stop] + [last];
    forall j | 0 <= j < stop && r.chain[j] in r.breakers ensures s'.breakers[r.chain[j]] == r.BreakerAfter(j) {
      assert r.chain[j] != last;
    }
    forall p | p in r.breakers && p !in r.chain[..stop + 1] ensures s'.breakers[p] == r.breakers[p] {
      assert p !in r.chain[..stop] && p != last;
    }
  }

  ghost predicate AnsweredAt(r: Request, i: nat, s: Progress, s': Progress)
    requires i < |r.chain| && r.Answers(i)
  {
    && s'.answer == Some((i, r.env.outcome(i, Tries(r.cfg, r.env, i, 1)).content))
    && s'.tried == s.tried && s'.fallbacks == r.Attempted(1, i + 1) && s'.now == r.Leave(i + 1)
    && s'.breakers.Keys == s.breakers.Keys
    && (forall p :: p in s.breakers && p != r.chain[i] ==> s'.breakers[p] == s.breakers[p])
    && r.chain[i] in s'.breakers
    && s'.breakers[r.chain[i]].state == CLOSED && s'.breakers[r.chain[i]].failureCount == 0
  }

  /** The position that answers. */
  lemma AnswerAt(r: Request, i: nat, s: Progress)
    requires Distinct(r.chain) && i < |r.chain| && r.Reached(i, s) && r.Answers(i)
    ensures AnsweredAt(r, i, s, RunFrom(r.cfg, r.env, r.chain, i, s))
  {
    var p := r.chain[i];
    assert p !in r.chain[..i];
    var here := Look(r.env.pause, i, s);
    VisitSpec(r.cfg, r.env, p, i, here);
    AnswerFacts(r, i, s, Visit(r.cfg, r.env, p, i, here));
    RunAdmitted(r.cfg, r.env, r.chain, i, s);
  }

  lemma AnswerFacts(r: Request, i: nat, s: Progress, s': Progress)
    requires i < |r.chain| && r.Reached(i, s) && r.Answers(i)
    requires TrialMeetsSpec(r.cfg, r.env, r.chain[i], i, 1, Admit(r.cfg, r.chain[i], i, Look(r.env.pause, i, s)), s')
    requires s'.tried == s.tried && s'.fallbacks == if i > 0 then s.fallbacks + [r.chain[i]] else s.fallbacks
    ensures AnsweredAt(r, i, s, s')
  {
    LeaveAdmitted(r, i);
    AnswerFallbacks(r, i);
    assert Admit(r.cfg, r.chain[i], i, Look(r.env.pause, i, s)).now == r.Arrive(i);
  }

  lemma LeaveAdmitted(r: Request, i: nat)
    requires i < |r.chain| && r.Admits(i)
    ensures r.Leave(i + 1) == TrialEnd(r.cfg, r.env, i, 1, r.Arrive(i))
  {
  }

  lemma AnswerFallbacks(r: Request, i: nat)
    requires i < |r.chain| && r.Admits(i)
    ensures r.Attempted(1, i + 1) == r.Attempted(1, i) + if i > 0 then [r.chain[i]] else []
  {
  }

  // ---------- accounting ----------

  /** The number of registered chain entries from position `i` on. */
  function Entries(chain: seq<Provider>, i: nat, breakers: map<Provider, Breaker>): nat
    decreases |chain| - i
  {
    if i >= |chain| then 0 else (if chain[i] in breakers then 1 else 0) + Entries(chain, i + 1, breakers)
  }

  lemma {:induction false} EntriesOfKeys(chain: seq<Provider>, i: nat, b: map<Provider, Breaker>, b': map<Provider, Breaker>)
    requires b.Keys == b'.Keys
    ensures Entries(chain, i, b) == Entries(chain, i, b')
    decreases |chain| - i
  {
    if i < |chain| {
      EntriesOfKeys(chain, i + 1, b, b');
    }
  }

  ghost predicate WithinBudget(cfg: RouterConfig, s: Progress, s': Progress, entries: nat)
    requires cfg.maxRetries >= 0
  {
    && |s'.calls| <= |s.calls| + entries * cfg.maxRetries
    && s'.waited <= s.waited + entries * (cfg.retryDelayMs * Triangle(cfg.maxRetries))
  }

  lemma OneMoreEntry(cfg: RouterConfig, s: Progress, s': Progress, s'': Progress, entries: nat)
    requires cfg.maxRetries >= 0 && WithinBudget(cfg, s, s', 1) && WithinBudget(cfg, s', s'', entries)
    ensures WithinBudget(cfg, s, s'', 1 + entries)
  {
  }

  /** One request makes at most P * maxRetries calls and waits at most
      P * retryDelayMs * maxRetries * (maxRetries - 1) / 2, for P registered chain entries. */
  lemma {:induction false} RetryAccounting(cfg: RouterConfig, env: Env, chain: seq<Provider>, i: nat, s: Progress)
    requires s.answer == None && cfg.maxRetries >= 0
    ensures WithinBudget(cfg, s, RunFrom(cfg, env, chain, i, s), Entries(chain, i, s.breakers))
    decreases |chain| - i
  {
    if i < |chain| {
      var p := chain[i];
      if LetsThrough(cfg, env.pause, p, i, s) {
        RunAdmitted(cfg, env, chain, i, s);
        VisitWithinBudget(cfg, env, p, i, Look(env.pause, i, s));
        var next := FailedAt(cfg, env, p, i, s);
        var entries := Entries(chain, i + 1, s.breakers);
        if Visit(cfg, env, p, i, Look(env.pause, i, s)).answer == None {
          EntriesOfKeys(chain, i + 1, s.breakers, next.breakers);
          RetryAccounting(cfg, env, chain, i + 1, next);
          OneMoreEntry(cfg, s, next, RunFrom(cfg, env, chain, i + 1, next), entries);
        } else {
          NonNegativeBudget(cfg, entries);
          OneMoreEntry(cfg, s, next, next, entries);
        }
      } else {
        var next := PassedOver(env.pause, p, i, s);
        RunPassed(cfg, env, chain, i, s);
        RetryAccounting(cfg, env, chain, i + 1, next);
        FreeEntry(cfg, s, next, RunFrom(cfg, env, chain, i + 1, next),
                  if p in s.breakers then 1 else 0, Entries(chain, i + 1, s.breakers));
      }
    }
  }

  /** An entry that is passed over uses nothing of its share. */
  lemma FreeEntry(cfg: RouterConfig, s: Progress, s': Progress, s'': Progress, share: nat, entries: nat)
    requires cfg.maxRetries >= 0 && share <= 1
    requires s'.calls == s.calls && s'.waited == s.waited && WithinBudget(cfg, s', s'', entries)
    ensures WithinBudget(cfg, s, s'', share + entries)
  {
    if share == 1 {
      NonNegativeBudget(cfg, 1);
      OneMoreEntry(cfg, s, s', s'', entries);
    }
  }

  lemma NonNegativeBudget(cfg: RouterConfig, entries: nat)
    requires cfg.maxRetries >= 0
    ensures entries * cfg.maxRetries >= 0 && entries * (cfg.retryDelayMs * Triangle(cfg.maxRetries)) >= 0
  {
    DelayMonotone(cfg.retryDelayMs, 0, Triangle(cfg.maxRetries));
  }

  lemma VisitWithinBudget(cfg: RouterConfig, env: Env, p: Provider, i: nat, s: Progress)
    requires p in s.breakers && s.answer == None && cfg.maxRetries >= 0
    ensures WithinBudget(cfg, s, Visit(cfg, env, p, i, s), 1)
  {
    VisitSpec(cfg, env, p, i, s);
    TriesIsFirst(cfg, env, i, 1);
    assert Triangle(1) == 0;
    TriangleMonotone(Tries(cfg, env, i, 1), cfg.maxRetries);
    DelayMonotone(cfg.retryDelayMs, Triangle(Tries(cfg, env, i, 1)), Triangle(cfg.maxRetries));
    DelayMonotone(cfg.retryDelayMs, 0, Triangle(cfg.maxRetries));
  }

  lemma {:induction false} TriangleMonotone(a: nat, b: nat)
    requires a <= b
    ensures Triangle(a) <= Triangle(b)
    decreases b - a
  {
    if a < b {
      TriangleMonotone(a, b - 1);
    }
  }

  lemma DelayMonotone(delay: nat, a: nat, b: nat)
    requires a <= b
    ensures 0 <= delay * a <= delay * b
  {
  }

  // ---------- between requests ----------

  /** A breaker that is closed just when it is below its threshold. */
  predicate Sound(b: Breaker, cfg: Config) {
    0 <= b.failureCount && (b.state == CLOSED <==> b.failureCount < cfg.failureThreshold)
  }

  predicate AllSettled(breakers: map<Provider, Breaker>, cfg: Config) {
    forall p :: p in breakers ==> Sound(breakers[p], cfg) && breakers[p].state != HALF_OPEN
  }

  lemma VisitSettles(cfg: RouterConfig, env: Env, p: Provider, i: nat, s: Progress)
    requires cfg.maxRetries >= 1 && cfg.breaker.failureThreshold >= 1
    requires p in s.breakers && s.answer == None && AllSettled(s.breakers, cfg.breaker)
    requires !Skips(s.breakers[p], cfg.breaker, s.now)
    ensures AllSettled(Visit(cfg, env, p, i, s).breakers, cfg.breaker)
  {
    VisitSpec(cfg, env, p, i, s);
    var b, n := s.breakers[p], Tries(cfg, env, i, 1);
    FailuresSettle(b, cfg.breaker, s.now, n, Visit(cfg, env, p, i, s).now);
  }

  /** Once a request was let through, at least one failure settles the breaker. */
  lemma FailuresSettle(b: Breaker, cfg: Config, now: int, n: nat, last: int)
    requires cfg.failureThreshold >= 1 && n >= 1 && Sound(b, cfg) && !Skips(b, cfg, now)
    ensures var after := FailTimes(Probe(b, cfg, now), cfg, n, last);
      Sound(after, cfg) && after.state != HALF_OPEN
  {
  }

  /** No provider is left half-open by a request, as long as every admitted provider is called. */
  lemma {:induction false} NoneLeftHalfOpen(cfg: RouterConfig, env: Env, chain: seq<Provider>, i: nat, s: Progress)
    requires cfg.maxRetries >= 1 && cfg.breaker.failureThreshold >= 1 && s.answer == None
    requires AllSettled(s.breakers, cfg.breaker)
    ensures AllSettled(RunFrom(cfg, env, chain, i, s).breakers, cfg.breaker)
    decreases |chain| - i
  {
    if i < |chain| {
      var p := chain[i];
      if LetsThrough(cfg, env.pause, p, i, s) {
        VisitSettles(cfg, env, p, i, Look(env.pause, i, s));
        RunAdmitted(cfg, env, chain, i, s);
        if Visit(cfg, env, p, i, Look(env.pause, i, s)).answer == None {
          NoneLeftHalfOpen(cfg, env, chain, i + 1, FailedAt(cfg, env, p, i, s));
        }
      } else {
        RunPassed(cfg, env, chain, i, s);
        NoneLeftHalfOpen(cfg, env, chain, i + 1, PassedOver(env.pause, p, i, s));
      }
    }
  }
}
