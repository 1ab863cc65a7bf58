/** How often a provider that always fails is called, over any number of completions and streams one
    after another. */
module RateBound {
  import opened Common
  import opened CircuitBreaker
  import opened LlmRouter
  import opened RouterRuns
  import opened RouterSpec

  function CallsTo(calls: seq<Call>, p: Provider): seq<Call> {
    if calls == [] then [] else IfTo(calls[0], p) + CallsTo(calls[1..], p)
  }

  function IfTo(call: Call, p: Provider): seq<Call> {
    if call.provider == p then [call] else []
  }

  lemma {:induction false} CallsToAppend(a: seq<Call>, b: seq<Call>, p: Provider)
    ensures CallsTo(a + b, p) == CallsTo(a, p) + CallsTo(b, p)
  {
    if a == [] {
      assert a + b == b;
    } else {
      CallsToAppend(a[1..], b, p);
      var all := a + b;
      assert all[0] == a[0] && all[1..] == a[1..] + b;
      Assoc(IfTo(a[0], p), CallsTo(a[1..], p), CallsTo(b, p));
    }
  }

  lemma {:induction false} CallsToOne(calls: seq<Call>, p: Provider, q: Provider)
    requires forall k :: 0 <= k < |calls| ==> calls[k].provider == q
    ensures CallsTo(calls, p) == if p == q then calls else []
  {
    if calls != [] {
      CallsToOne(calls[1..], p, q);
    }
  }

  ghost predicate NeverAnswers(env: Env, chain: seq<Provider>, p: Provider) {
    forall i: nat, k :: i < |chain| && chain[i] == p ==> !env.outcome(i, k).Answer?
  }

  ghost predicate AlwaysFails(a: Arrival, p: Provider) {
    match a
    case Completion(env, chain, _) => NeverAnswers(env, chain, p)
    case Streaming(stream, chain, _) => forall i: nat :: i < |chain| && chain[i] == p ==> !stream.completes(i)
  }

  // ---------- the invariant ----------

  /** The index of the first call of the request that call `l` belongs to. */
  function Admission(calls: seq<Call>, l: nat): int
    requires l < |calls|
  {
    l + 1 - calls[l].attempt
  }

  /** Every request makes at most `maxRetries` calls, starting with its first attempt; and a request that was
      admitted when `failureThreshold` calls had failed came at least a cooldown after all of them. */
  ghost predicate Spaced(cfg: RouterConfig, calls: seq<Call>) {
    && (forall l :: 0 <= l < |calls| ==>
          1 <= calls[l].attempt <= cfg.maxRetries && 0 <= Admission(calls, l) && calls[Admission(calls, l)].attempt == 1)
    && (forall k, l :: 0 <= k < l < |calls| && l >= cfg.breaker.failureThreshold && calls[l].attempt == 1
          ==> calls[l].start >= calls[k].end + cfg.breaker.cooldownMs)
  }

  ghost predicate InOrder(calls: seq<Call>) {
    && (forall k :: 0 <= k < |calls| ==> calls[k].start <= calls[k].end)
    && (forall k, l :: 0 <= k < l < |calls| ==> calls[k].end <= calls[l].start)
  }

  /** A breaker and the calls so far to its provider, which never answered. */
  ghost predicate Charged(cfg: RouterConfig, calls: seq<Call>, b: Breaker, now: int) {
    && Sound(b, cfg.breaker) && b.state != HALF_OPEN
    && b.failureCount == |calls|
    && Spaced(cfg, calls) && InOrder(calls)
    && (calls != [] ==> b.lastFailureTime <= now)
    && (forall k :: 0 <= k < |calls| ==> calls[k].end <= b.lastFailureTime)
  }

  ghost predicate Inv(cfg: RouterConfig, p: Provider, s: Progress) {
    p in s.breakers && Charged(cfg, CallsTo(s.calls, p), s.breakers[p], s.now)
  }

  /** The calls a visit adds. */
  lemma VisitCalls(cfg: RouterConfig, env: Env, q: Provider, i: nat, s: Progress, p: Provider) returns (more: seq<Call>)
    requires q in s.breakers && s.answer == None
    ensures var s' := Visit(cfg, env, q, i, s);
      && s'.now >= s.now && |more| == Tries(cfg, env, i, 1)
      && CallsBy(more, q, 1, s.now, s'.now)
      && CallsTo(s'.calls, p) == CallsTo(s.calls, p) + if p == q then more else []
  {
    VisitSpec(cfg, env, q, i, s);
    TrialEndLater(cfg, env, i, 1, s.now);
    var s' := Visit(cfg, env, q, i, s);
    more := s'.calls[|s.calls|..];
    assert s'.calls == s.calls + more;
    CallsToAppend(s.calls, more, p);
    CallsToOne(more, p, q);
  }

  /** Requests that may make fewer attempts than the configuration allows, as streams do. */
  predicate Within(used: RouterConfig, cfg: RouterConfig) {
    used.breaker == cfg.breaker && 1 <= used.maxRetries <= cfg.maxRetries && cfg.breaker.failureThreshold >= 1
  }

  /** A visit to another provider does not matter. */
  lemma OtherVisit(cfg: RouterConfig, used: RouterConfig, env: Env, q: Provider, i: nat, s: Progress, p: Provider)
    requires q in s.breakers && s.answer == None && q != p && Inv(cfg, p, s)
    ensures Inv(cfg, p, Visit(used, env, q, i, s))
  {
    var _ := VisitCalls(used, env, q, i, s, p);
    VisitSpec(used, env, q, i, s);
    assert CallsTo(s.calls, p) + [] == CallsTo(s.calls, p);
  }

  /** A visit to the failing provider adds at most `maxRetries` calls, and if its circuit had tripped,
      none of them before the cooldown of its last failure is over. */
  lemma FailingVisit(cfg: RouterConfig, used: RouterConfig, env: Env, i: nat, s: Progress, p: Provider)
    requires Within(used, cfg)
    requires Inv(cfg, p, s) && s.answer == None && !Skips(s.breakers[p], cfg.breaker, s.now)
    requires forall k :: !env.outcome(i, k).Answer?
    ensures Inv(cfg, p, Visit(used, env, p, i, s)) && Visit(used, env, p, i, s).answer == None
  {
    var more := VisitCalls(used, env, p, i, s, p);
    VisitSpec(used, env, p, i, s);
    TriesIsFirst(used, env, i, 1);
    Extended(cfg, CallsTo(s.calls, p), more, s.breakers[p], s.now, Visit(used, env, p, i, s).now, p);
  }

  lemma Extended(cfg: RouterConfig, calls: seq<Call>, more: seq<Call>, b: Breaker, from: int, until: int, p: Provider)
    requires Charged(cfg, calls, b, from) && !Skips(b, cfg.breaker, from)
    requires 1 <= |more| <= cfg.maxRetries && CallsBy(more, p, 1, from, until)
    ensures Charged(cfg, calls + more, FailTimes(Probe(b, cfg.breaker, from), cfg.breaker, |more|, until), until)
  {
    var all := calls + more;
    assert from <= more[0].start <= more[0].end <= until;
    SpacedExtended(cfg, calls, more, b, from, until, p);
    forall k, l | 0 <= k < l < |all| ensures all[k].end <= all[l].start {
      if k < |calls| <= l {
        assert all[k] == calls[k] && all[l] == more[l - |calls|];
      } else if l >= |calls| {
        assert all[k] == more[k - |calls|] && all[l] == more[l - |calls|];
      }
    }
  }

  lemma SpacedExtended(cfg: RouterConfig, calls: seq<Call>, more: seq<Call>, b: Breaker, from: int, until: int, p: Provider)
    requires Charged(cfg, calls, b, from) && !Skips(b, cfg.breaker, from)
    requires 1 <= |more| <= cfg.maxRetries && CallsBy(more, p, 1, from, until)
    ensures Spaced(cfg, calls + more)
  {
    var all := calls + more;
    forall l | 0 <= l < |all|
      ensures 1 <= all[l].attempt <= cfg.maxRetries && 0 <= Admission(all, l) && all[Admission(all, l)].attempt == 1
    {
      if l >= |calls| {
        assert all[l] == more[l - |calls|] && all[|calls|] == more[0];
      } else {
        assert all[l] == calls[l] && all[Admission(calls, l)] == calls[Admission(calls, l)];
      }
    }
    forall k, l | 0 <= k < l < |all| && l >= cfg.breaker.failureThreshold && all[l].attempt == 1
      ensures all[l].start >= all[k].end + cfg.breaker.cooldownMs
    {
      if l >= |calls| {
        assert all[l] == more[l - |calls|];
        assert all[k] == calls[k] && b.state == OPEN;
      }
    }
  }

  lemma {:induction false} RequestKeepsInv(cfg: RouterConfig, used: RouterConfig, env: Env, chain: seq<Provider>, i: nat,
                                           s: Progress, p: Provider)
    requires Within(used, cfg)
    requires NeverAnswers(env, chain, p) && Inv(cfg, p, s) && s.answer == None
    ensures Inv(cfg, p, RunFrom(used, env, chain, i, s))
    decreases |chain| - i
  {
    if i < |chain| {
      var q := chain[i];
      if LetsThrough(used, env.pause, q, i, s) {
        AdmittedKeepsInv(cfg, used, env, chain, i, s, p);
        RunAdmitted(used, env, chain, i, s);
        if Visit(used, env, q, i, Look(env.pause, i, s)).answer == None {
          RequestKeepsInv(cfg, used, env, chain, i + 1, FailedAt(used, env, q, i, s), p);
        }
      } else {
        PassedKeepsInv(cfg, env, q, i, s, p);
        RunPassed(used, env, chain, i, s);
        RequestKeepsInv(cfg, used, env, chain, i + 1, PassedOver(env.pause, q, i, s), p);
      }
    }
  }

  /** Time passes, and nothing else the invariant speaks of changes. */
  lemma PassedKeepsInv(cfg: RouterConfig, env: Env, q: Provider, i: nat, s: Progress, p: Provider)
    requires Inv(cfg, p, s)
    ensures Inv(cfg, p, Look(env.pause, i, s)) && Inv(cfg, p, PassedOver(env.pause, q, i, s))
  {
    ChargedLater(cfg, CallsTo(s.calls, p), s.breakers[p], s.now, s.now + env.pause(i));
  }

  lemma ChargedLater(cfg: RouterConfig, calls: seq<Call>, b: Breaker, now: int, later: int)
    requires Charged(cfg, calls, b, now) && now <= later
    ensures Charged(cfg, calls, b, later)
  {
  }

  lemma AdmittedKeepsInv(cfg: RouterConfig, used: RouterConfig, env: Env, chain: seq<Provider>, i: nat, s: Progress, p: Provider)
    requires Within(used, cfg) && i < |chain| && LetsThrough(used, env.pause, chain[i], i, s)
    requires NeverAnswers(env, chain, p) && Inv(cfg, p, s) && s.answer == None
    ensures Inv(cfg, p, Visit(used, env, chain[i], i, Look(env.pause, i, s)))
  {
    var q, here := chain[i], Look(env.pause, i, s);
    PassedKeepsInv(cfg, env, q, i, s, p);
    if q == p {
      assert here.answer == None && !Skips(here.breakers[p], cfg.breaker, here.now);
      FailingVisit(cfg, used, env, i, here, p);
    } else {
      OtherVisit(cfg, used, env, q, i, here, p);
    }
  }

  lemma {:induction false} RunKeepsInv(cfg: RouterConfig, arrivals: seq<Arrival>, s: Progress, p: Provider)
    requires cfg.maxRetries >= 1 && cfg.breaker.failureThreshold >= 1
    requires forall a :: a in arrivals ==> AlwaysFails(a, p)
    requires Inv(cfg, p, s)
    ensures Inv(cfg, p, Serve(cfg, arrivals, s))
    decreases |arrivals|
  {
    if arrivals != [] {
      var a := arrivals[0];
      assert a in arrivals && forall x :: x in arrivals[1..] ==> x in arrivals;
      HandleIsRun(cfg, a, s);
      RequestKeepsInv(cfg, ConfigOf(cfg, a), EnvOf(a), a.chain, 0, TakeUp(s, a.idle), p);
      RunKeepsInv(cfg, arrivals[1..], Handle(cfg, a, s), p);
    }
  }

  /** The circuit of `p` is closed without failures, as at first or after an answer; the log of calls starts here. */
  ghost predicate Starting(start: Progress, p: Provider) {
    && p in start.breakers && start.breakers[p].state == CLOSED && start.breakers[p].failureCount == 0
    && start.calls == []
  }

  // ---------- the bounds ----------

  /** Between requests, the circuit of a provider that never answered is open just when it was called
      at least failureThreshold times. */
  lemma TrippedIff(cfg: RouterConfig, arrivals: seq<Arrival>, start: Progress, p: Provider)
    requires cfg.maxRetries >= 1 && cfg.breaker.failureThreshold >= 1
    requires Starting(start, p) && forall a :: a in arrivals ==> AlwaysFails(a, p)
    ensures var end := Serve(cfg, arrivals, start);
      end.breakers[p].state == if |CallsTo(end.calls, p)| >= cfg.breaker.failureThreshold then OPEN else CLOSED
  {
    RunKeepsInv(cfg, arrivals, start, p);
  }

  lemma {:induction false} NoCallsElsewhere(cfg: RouterConfig, env: Env, chain: seq<Provider>, i: nat, s: Progress, p: Provider)
    requires s.answer == None && forall j :: i <= j < |chain| ==> chain[j] != p
    ensures CallsTo(RunFrom(cfg, env, chain, i, s).calls, p) == CallsTo(s.calls, p)
    decreases |chain| - i
  {
    if i < |chain| {
      var q := chain[i];
      if LetsThrough(cfg, env.pause, q, i, s) {
        RunAdmitted(cfg, env, chain, i, s);
        var _ := VisitCalls(cfg, env, q, i, Look(env.pause, i, s), p);
        if Visit(cfg, env, q, i, Look(env.pause, i, s)).answer == None {
          NoCallsElsewhere(cfg, env, chain, i + 1, FailedAt(cfg, env, q, i, s), p);
        }
      } else {
        RunPassed(cfg, env, chain, i, s);
        NoCallsElsewhere(cfg, env, chain, i + 1, PassedOver(env.pause, q, i, s), p);
      }
    }
  }

  /** A request calls each provider at most `maxRetries` times. */
  lemma {:induction false} CallsOfRequest(cfg: RouterConfig, env: Env, chain: seq<Provider>, i: nat, s: Progress, p: Provider)
    requires Distinct(chain) && s.answer == None && cfg.maxRetries >= 0
    ensures |CallsTo(RunFrom(cfg, env, chain, i, s).calls, p)| <= |CallsTo(s.calls, p)| + cfg.maxRetries
    decreases |chain| - i
  {
    if i < |chain| {
      var q := chain[i];
      if LetsThrough(cfg, env.pause, q, i, s) {
        RunAdmitted(cfg, env, chain, i, s);
        TriesIsFirst(cfg, env, i, 1);
        var _ := VisitCalls(cfg, env, q, i, Look(env.pause, i, s), p);
        if Visit(cfg, env, q, i, Look(env.pause, i, s)).answer == None {
          if q == p {
            NoCallsElsewhere(cfg, env, chain, i + 1, FailedAt(cfg, env, q, i, s), p);
          } else {
            CallsOfRequest(cfg, env, chain, i + 1, FailedAt(cfg, env, q, i, s), p);
          }
        }
      } else {
        RunPassed(cfg, env, chain, i, s);
        CallsOfRequest(cfg, env, chain, i + 1, PassedOver(env.pause, q, i, s), p);
      }
    }
  }

  /** As long as the circuit of a provider that always fails is closed when a request comes in, the provider has
      had at most failureThreshold - 1 + maxRetries calls when that request is done. */
  lemma CallsBeforeTrip(cfg: RouterConfig, arrivals: seq<Arrival>, a: Arrival, start: Progress, p: Provider)
    requires cfg.maxRetries >= 1 && cfg.breaker.failureThreshold >= 1 && Distinct(a.chain)
    requires Starting(start, p) && forall x :: x in arrivals ==> AlwaysFails(x, p)
    requires Serve(cfg, arrivals, start).breakers[p].state == CLOSED
    ensures |CallsTo(Serve(cfg, arrivals + [a], start).calls, p)| <= cfg.breaker.failureThreshold - 1 + cfg.maxRetries
  {
    var s := Serve(cfg, arrivals, start);
    TrippedIff(cfg, arrivals, start, p);
    ServeAppend(cfg, arrivals, a, start);
    HandleIsRun(cfg, a, s);
    CallsOfRequest(ConfigOf(cfg, a), EnvOf(a), a.chain, 0, TakeUp(s, a.idle), p);
  }

  /** Over every run of requests from a circuit without failures, the calls to a provider that always fails come one after
      another. At most failureThreshold - 1 + maxRetries of them belong to requests that its circuit admitted
      while it was closed, that is, before failureThreshold calls had failed. Every later request is admitted at
      least a cooldown after all calls before it. */
  lemma FailingProviderSpacing(cfg: RouterConfig, arrivals: seq<Arrival>, start: Progress, p: Provider)
    requires cfg.maxRetries >= 1 && cfg.breaker.failureThreshold >= 1
    requires Starting(start, p) && forall a :: a in arrivals ==> AlwaysFails(a, p)
    ensures var calls := CallsTo(Serve(cfg, arrivals, start).calls, p);
      InOrder(calls) && FewBeforeTrip(cfg, calls) && ApartAfterTrip(cfg, calls)
  {
    RunKeepsInv(cfg, arrivals, start, p);
    SpacedMeans(cfg, CallsTo(Serve(cfg, arrivals, start).calls, p));
  }

  ghost predicate FewBeforeTrip(cfg: RouterConfig, calls: seq<Call>) {
    forall l :: 0 <= l < |calls| && Admission(calls, l) < cfg.breaker.failureThreshold
      ==> l < cfg.breaker.failureThreshold - 1 + cfg.maxRetries
  }

  ghost predicate ApartAfterTrip(cfg: RouterConfig, calls: seq<Call>) {
    forall k, l ::
      0 <= l < |calls| && cfg.breaker.failureThreshold <= Admission(calls, l) && 0 <= k < |calls| && k < Admission(calls, l)
      ==> calls[l].start >= calls[k].end + cfg.breaker.cooldownMs
  }

  lemma SpacedMeans(cfg: RouterConfig, calls: seq<Call>)
    requires Spaced(cfg, calls) && InOrder(calls)
    ensures FewBeforeTrip(cfg, calls) && ApartAfterTrip(cfg, calls)
  {
    forall k, l |
      0 <= l < |calls| && cfg.breaker.failureThreshold <= Admission(calls, l) && 0 <= k < |calls| && k < Admission(calls, l)
      ensures calls[l].start >= calls[k].end + cfg.breaker.cooldownMs
    {
      AfterAdmission(cfg, calls, k, l);
    }
  }

  lemma AfterAdmission(cfg: RouterConfig, calls: seq<Call>, k: nat, l: nat)
    requires Spaced(cfg, calls) && InOrder(calls) && l < |calls|
    requires k < Admission(calls, l) && Admission(calls, l) >= cfg.breaker.failureThreshold
    ensures calls[l].start >= calls[k].end + cfg.breaker.cooldownMs
  {
    var first := Admission(calls, l);
    assert calls[first].start >= calls[k].end + cfg.breaker.cooldownMs;
    assert first < l ==> calls[first].end <= calls[l].start;
  }

  lemma {:induction false} SpacedChain(cfg: RouterConfig, calls: seq<Call>, lo: nat, q: nat)
    requires cfg.maxRetries >= 1 && Spaced(cfg, calls) && InOrder(calls) && lo + q * cfg.maxRetries < |calls|
    requires lo >= cfg.breaker.failureThreshold - 1
    ensures calls[lo].start + q * cfg.breaker.cooldownMs <= calls[lo + q * cfg.maxRetries].start
    decreases q
  {
    if q > 0 {
      var m := cfg.maxRetries;
      MulStep(q, m);
      MulStep(q, cfg.breaker.cooldownMs);
      SpacedChain(cfg, calls, lo, q - 1);
      AfterAdmission(cfg, calls, lo + (q - 1) * m, lo + q * m);
    }
  }

  lemma MulStep(q: nat, x: int)
    requires q > 0
    ensures q * x == (q - 1) * x + x
    ensures x >= 0 ==> (q - 1) * x >= 0
  {
  }

  /** Once the circuit of a provider that always fails has tripped, which its call number failureThreshold
      does, any window of length `length` holds at most maxRetries * (length / cooldownMs + 1) calls to it. */
  lemma FailingProviderRate(cfg: RouterConfig, arrivals: seq<Arrival>, start: Progress, p: Provider,
                            lo: nat, hi: nat, length: nat)
    requires cfg.maxRetries >= 1 && cfg.breaker.failureThreshold >= 1 && cfg.breaker.cooldownMs > 0
    requires Starting(start, p) && forall a :: a in arrivals ==> AlwaysFails(a, p)
    requires var calls := CallsTo(Serve(cfg, arrivals, start).calls, p);
      && cfg.breaker.failureThreshold - 1 <= lo < hi <= |calls|
      && calls[hi - 1].start - calls[lo].start <= length
    ensures hi - lo <= cfg.maxRetries * (length / cfg.breaker.cooldownMs + 1)
  {
    RunKeepsInv(cfg, arrivals, start, p);
    WindowBound(cfg, CallsTo(Serve(cfg, arrivals, start).calls, p), lo, hi, length);
  }

  lemma WindowBound(cfg: RouterConfig, calls: seq<Call>, lo: nat, hi: nat, length: nat)
    requires cfg.maxRetries >= 1 && cfg.breaker.cooldownMs > 0
    requires cfg.breaker.failureThreshold - 1 <= lo < hi <= |calls|
    requires Spaced(cfg, calls) && InOrder(calls) && calls[hi - 1].start - calls[lo].start <= length
    ensures hi - lo <= cfg.maxRetries * (length / cfg.breaker.cooldownMs + 1)
  {
    var m, c := cfg.maxRetries, cfg.breaker.cooldownMs;
    var q := (hi - 1 - lo) / m;
    DivideBounds(hi - 1 - lo, m);
    SpacedChain(cfg, calls, lo, q);
    assert lo + q * m == hi - 1 || calls[lo + q * m].end <= calls[hi - 1].start;
    QuotientBound(q, c, length);
    MulMonotone(m, q + 1, length / c + 1);
  }

  lemma DivideBounds(x: nat, m: int)
    requires m >= 1
    ensures 0 <= x / m && 0 <= (x / m) * m <= x < m * (x / m + 1)
  {
    MulCommutes(x / m, m);
    MulMonotone(m, 0, x / m);
  }

  lemma QuotientBound(q: nat, c: int, length: nat)
    requires c > 0 && q * c <= length
    ensures q <= length / c
  {
    if q > length / c {
      MulMonotone(c, length / c + 1, q);
    }
  }

  lemma MulCommutes(q: int, m: int)
    ensures q * m == m * q && (q + 1) * m == q * m + m
  {
  }

  lemma MulMonotone(m: nat, a: int, b: int)
    requires a <= b
    ensures m * a <= m * b
  {
  }
}
