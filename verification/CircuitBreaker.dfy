/** The per-provider circuit breaker, and what its state says about the history of calls. */
module CircuitBreaker {

  datatype CircuitState = CLOSED | OPEN | HALF_OPEN

  datatype Config = Config(failureThreshold: int, cooldownMs: int)

  datatype Breaker = Breaker(state: CircuitState, failureCount: int, lastFailureTime: int)

  const FRESH := Breaker(CLOSED, 0, 0)

  /** The answer of `isOpen` at time `now`: true when the provider is to be skipped. */
  predicate Skips(b: Breaker, cfg: Config, now: int) {
    b.state == OPEN && now - b.lastFailureTime < cfg.cooldownMs
  }

  /** The breaker after `isOpen`: an open breaker whose cooldown has elapsed becomes half-open. */
  function Probe(b: Breaker, cfg: Config, now: int): Breaker {
    if b.state == OPEN && !Skips(b, cfg, now) then b.(state := HALF_OPEN) else b
  }

  function Succeed(b: Breaker): Breaker {
    b.(state := CLOSED, failureCount := 0)
  }

  function Fail(b: Breaker, cfg: Config, now: int): Breaker {
    Breaker(if b.failureCount + 1 >= cfg.failureThreshold then OPEN else b.state, b.failureCount + 1, now)
  }

  class ProviderCircuitBreaker {
    var state: CircuitState
    var failureCount: int
    var lastFailureTime: int
    const cfg: Config

    function View(): Breaker
      reads this
    {
      Breaker(state, failureCount, lastFailureTime)
    }

    constructor (cfg: Config)
      ensures View() == FRESH && this.cfg == cfg
    {
      this.cfg := cfg;
      state, failureCount, lastFailureTime := CLOSED, 0, 0;
    }

    method IsOpen(now: int) returns (open: bool)
      modifies this
      ensures open == Skips(old(View()), cfg, now)
      ensures View() == Probe(old(View()), cfg, now)
    {
      if state == OPEN {
        if now - lastFailureTime >= cfg.cooldownMs {
          state := HALF_OPEN;
          return false;
        }
        return true;
      }
      return false;
    }

    method RecordSuccess()
      modifies this
      ensures View() == Succeed(old(View()))
    {
      failureCount := 0;
      state := CLOSED;
    }

    method RecordFailure(now: int)
      modifies this
      ensures View() == Fail(old(View()), cfg, now)
    {
      failureCount := failureCount + 1;
      lastFailureTime := now;
      if failureCount >= cfg.failureThreshold {
        state := OPEN;
      }
    }
  }

  // ---------- every interleaving of calls ----------

  /** What any number of concurrent requests do to one breaker, in the order it happens. */
  datatype Event = Probed(at: int) | Succeeded | Failed(at: int)

  function Step(b: Breaker, cfg: Config, e: Event): Breaker {
    match e
    case Probed(at) => Probe(b, cfg, at)
    case Succeeded => Succeed(b)
    case Failed(at) => Fail(b, cfg, at)
  }

  function Run(cfg: Config, history: seq<Event>): Breaker {
    if history == [] then FRESH
    else Step(Run(cfg, history[..|history| - 1]), cfg, history[|history| - 1])
  }

  function FailuresSinceSuccess(history: seq<Event>): nat {
    if history == [] then 0
    else
      var before := FailuresSinceSuccess(history[..|history| - 1]);
      match history[|history| - 1]
      case Probed(_) => before
      case Succeeded => 0
      case Failed(_) => before + 1
  }

  function LastFailure(history: seq<Event>): int {
    if history == [] then 0
    else match history[|history| - 1]
      case Failed(at) => at
      case _ => LastFailure(history[..|history| - 1])
  }

  /** Since the last success or failure, `isOpen` was asked after the cooldown of the last failure. */
  ghost predicate CooledDown(cfg: Config, history: seq<Event>) {
    exists i :: 0 <= i < |history| && CoolingProbe(cfg, history, i)
  }

  ghost predicate CoolingProbe(cfg: Config, history: seq<Event>, i: nat)
    requires i < |history|
  {
    && history[i].Probed?
    && history[i].at - LastFailure(history) >= cfg.cooldownMs
    && forall j :: i < j < |history| ==> history[j].Probed?
  }

  /** The state of a breaker is determined by its history: it is closed just when fewer failures than
      the threshold happened since the last success, and half-open just when it is not closed and
      a request has come after the cooldown. */
  lemma {:induction false} StateFromHistory(cfg: Config, history: seq<Event>)
    requires cfg.failureThreshold >= 1
    ensures Run(cfg, history) == Breaker(
      if FailuresSinceSuccess(history) < cfg.failureThreshold then CLOSED
      else if CooledDown(cfg, history) then HALF_OPEN
      else OPEN,
      FailuresSinceSuccess(history), LastFailure(history))
  {
    if history != [] {
      var n := |history| - 1;
      var before, e := history[..n], history[n];
      StateFromHistory(cfg, before);
      if e.Probed? {
        if e.at - LastFailure(history) >= cfg.cooldownMs {
          assert CoolingProbe(cfg, history, n);
        }
        if CooledDown(cfg, before) {
          var i: nat :| i < n && CoolingProbe(cfg, before, i);
          assert history[i] == before[i];
          forall j | i < j <= n ensures history[j].Probed? {
            assert j < n ==> history[j] == before[j];
          }
          assert CoolingProbe(cfg, history, i);
        }
        if CooledDown(cfg, history) && e.at - LastFailure(history) < cfg.cooldownMs {
          var i: nat :| i <= n && CoolingProbe(cfg, history, i);
          assert before[i] == history[i];
          forall j | i < j < n ensures before[j].Probed? {
            assert before[j] == history[j];
          }
          assert CoolingProbe(cfg, before, i);
        }
      }
    }
  }

  /** Any failure of a half-open breaker reopens it, and any success closes every breaker. */
  lemma FailureReopens(cfg: Config, history: seq<Event>, now: int)
    requires cfg.failureThreshold >= 1 && Run(cfg, history).state == HALF_OPEN
    ensures Run(cfg, history + [Failed(now)]).state == OPEN
    ensures Run(cfg, history + [Succeeded]).state == CLOSED
  {
    StateFromHistory(cfg, history);
    assert (history + [Failed(now)])[..|history|] == history;
    assert (history + [Succeeded])[..|history|] == history;
  }

  predicate ClockMonotone(history: seq<Event>) {
    forall i, j :: 0 <= i < j < |history| && !history[i].Succeeded? && !history[j].Succeeded?
      ==> history[i].at <= history[j].at
  }

  /** On a clock that does not run backwards, a request is turned away just when the threshold has
      been reached since the last success and the cooldown of the last failure has not elapsed:
      a half-open breaker does not limit the number of requests. */
  lemma TurnedAwayIff(cfg: Config, history: seq<Event>, now: int)
    requires cfg.failureThreshold >= 1
    requires forall i :: 0 <= i < |history| && !history[i].Succeeded? ==> history[i].at <= now
    ensures Skips(Run(cfg, history), cfg, now) <==>
      FailuresSinceSuccess(history) >= cfg.failureThreshold && now - LastFailure(history) < cfg.cooldownMs
  {
    StateFromHistory(cfg, history);
    if CooledDown(cfg, history) {
      var i: nat :| i < |history| && CoolingProbe(cfg, history, i);
      assert history[i].at <= now;
    }
  }

  /** The documented "one test request" is not what happens: until an answer comes back, every
      request after the cooldown is admitted. */
  lemma TwoTestRequests()
    ensures var cfg := Config(1, 10);
      var once := Run(cfg, [Failed(0), Probed(10)]);
      once.state == HALF_OPEN && !Skips(once, cfg, 10) && Probe(once, cfg, 10) == once
  {
    var cfg := Config(1, 10);
    var h: seq<Event> := [Failed(0), Probed(10)];
    assert h[..1] == [Failed(0)] && h[..1][..0] == [];
    assert Run(cfg, h[..1]) == Fail(FRESH, cfg, 0);
  }

  /** A second request after the cooldown is turned away if and only if a failure was recorded after
      the first one (with the threshold reached since the last success) less than a cooldown ago. */
  lemma SecondTestRequest(cfg: Config, history: seq<Event>, first: int, between: seq<Event>, now: int)
    requires cfg.failureThreshold >= 1
    requires var all := history + [Probed(first)] + between;
      forall i :: 0 <= i < |all| && !all[i].Succeeded? ==> all[i].at <= now
    requires !Skips(Run(cfg, history), cfg, first) && ClockMonotone(history + [Probed(first)])
    ensures var all := history + [Probed(first)] + between;
      Skips(Run(cfg, all), cfg, now) <==>
        && (exists i :: 0 <= i < |between| && between[i].Failed?)
        && FailuresSinceSuccess(all) >= cfg.failureThreshold && now - LastFailure(all) < cfg.cooldownMs
  {
    var all := history + [Probed(first)] + between;
    TurnedAwayIff(cfg, all, now);
    if !exists i :: 0 <= i < |between| && between[i].Failed? {
      assert first == all[|history|].at <= now;
      forall i | 0 <= i < |history| && !history[i].Succeeded? ensures history[i].at <= first {
        var h := history + [Probed(first)];
        assert h[i] == history[i] && h[|history|] == Probed(first);
      }
      TurnedAwayIff(cfg, history, first);
      QuietSuffix(history, [Probed(first)] + between);
      assert history + ([Probed(first)] + between) == all;
    }
  }

  /** Without failures, the count of failures does not grow and the last one stays the last. */
  lemma {:induction false} QuietSuffix(history: seq<Event>, quiet: seq<Event>)
    requires forall i :: 0 <= i < |quiet| ==> !quiet[i].Failed?
    ensures FailuresSinceSuccess(history + quiet) <= FailuresSinceSuccess(history)
    ensures LastFailure(history + quiet) == LastFailure(history)
  {
    if quiet == [] {
      assert history + quiet == history;
    } else {
      var n := |quiet| - 1;
      QuietSuffix(history, quiet[..n]);
      assert (history + quiet)[..|history| + n] == history + quiet[..n];
      assert (history + quiet)[|history| + n] == quiet[n];
    }
  }
}
