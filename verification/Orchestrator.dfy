/** The agent pipeline: required agents fail the run, optional agents are skipped once the run is
    degraded or over budget, and get one retry otherwise. */
module Orchestrator {
  import opened Common
  import opened Degradation
  import opened Text

  datatype Role = PLANNER | RESEARCHER | GENERATOR | OPTIMIZER | QA

  const PIPELINE: seq<Role> := [PLANNER, RESEARCHER, GENERATOR, OPTIMIZER, QA]

  function TimeoutOf(role: Role): nat {
    match role
    case PLANNER => 30_000
    case RESEARCHER => 20_000
    case GENERATOR => 120_000
    case OPTIMIZER => 60_000
    case QA => 60_000
  }

  predicate IsOptional(role: Role) {
    role == OPTIMIZER || role == QA
  }

  /** One attempt of an agent: when its task would settle and how, how late its timer fires, whether the task
      wins a tie with the timer, and which reasons are appended and whether the run is cancelled while it is
      awaited -- by the agent itself, by an abandoned task of an earlier attempt, or from outside. */
  datatype Attempt = Attempt(duration: nat, ok: bool, late: nat, beatsTimer: bool, reasons: seq<Reason>, cancels: bool)

  /** The content fields of the context, as the agents -- abandoned ones included -- have left them by the time
      the result is put together. */
  datatype Content = Content(
    draft: Str, optimized: Str, final: Str, seoKeywords: seq<Str>, readabilityScore: real, citations: seq<Str>)

  /** The attempts of every role, counted from 1, and the content they leave. */
  datatype Env = Env(attempts: (Role, nat) -> Attempt, content: Content)

  datatype Event = AgentStart(role: Role) | AgentDone(role: Role)

  datatype State = State(elapsed: nat, reasons: seq<Reason>, cancelled: bool, events: seq<Event>)

  datatype ContentResult = ContentResult(
    raw: Str, optimized: Str, seoKeywords: seq<Str>, readabilityScore: real, wordCount: nat, citations: seq<Str>,
    degraded: bool, degradationReasons: seq<Reason>)

  datatype Outcome = Finished(result: ContentResult) | AgentFailed(role: Role) | ContractViolation

  /** When the timer of an attempt fires. */
  function TimerOf(role: Role, a: Attempt): nat {
    TimeoutOf(role) + a.late
  }

  predicate InTime(role: Role, a: Attempt) {
    a.duration < TimerOf(role, a) || (a.duration == TimerOf(role, a) && a.beatsTimer)
  }

  predicate Succeeds(role: Role, a: Attempt) {
    InTime(role, a) && a.ok
  }

  /** The race of a task against its timer. */
  function WithTimeout(role: Role, a: Attempt, s: State): State {
    s.(elapsed := s.elapsed + (if InTime(role, a) then a.duration else TimerOf(role, a)),
       reasons := AppendedAll(s.reasons, a.reasons),
       cancelled := s.cancelled || a.cancels)
  }

  function Mark(s: State, reason: Reason): State {
    s.(reasons := Appended(s.reasons, reason))
  }

  function Emit(s: State, e: Event): State {
    s.(events := s.events + [e])
  }

  function RunWithRetry(role: Role, env: Env, s: State): State {
    var first := WithTimeout(role, env.attempts(role, 1), s);
    if Succeeds(role, env.attempts(role, 1)) then first
    else
      var second := WithTimeout(role, env.attempts(role, 2), Mark(first, CONTRACT_RETRY));
      if Succeeds(role, env.attempts(role, 2)) then second else Mark(second, OPTIONAL_AGENT_SKIPPED)
  }

  predicate ShouldSkipOptional(budget: Option<int>, s: State) {
    s.reasons != [] || (budget.Some? && s.elapsed >= budget.value)
  }

  /** `a || b` on strings. */
  function Or(a: Str, b: Str): Str {
    if a != [] then a else b
  }

  /** The number of words: positions where one starts. */
  function WordCount(text: Str): nat {
    if text == [] then 0
    else
      var n := |text| - 1;
      WordCount(text[..n]) + if !IsWhite(text[n]) && (n == 0 || IsWhite(text[n - 1])) then 1 else 0
  }

  /** White space separates words: the counts on both sides add up. */
  lemma {:induction false} WordCountSplits(text: Str, n: nat)
    requires n < |text| && IsWhite(text[n])
    ensures WordCount(text) == WordCount(text[..n]) + WordCount(text[n + 1..])
  {
    var last := |text| - 1;
    if n == last {
      assert text[n + 1..] == [];
    } else {
      var init, tail := text[..last], text[n + 1..];
      WordCountSplits(init, n);
      assert init[..n] == text[..n] && init[n + 1..] == tail[..|tail| - 1];
    }
  }

  lemma {:induction false} WordCountOfWord(word: Str)
    requires word != [] && forall k :: 0 <= k < |word| ==> !IsWhite(word[k])
    ensures WordCount(word) == 1
  {
    if |word| > 1 {
      WordCountOfWord(word[..|word| - 1]);
    } else {
      assert word[..0] == [];
    }
  }

  /** The result: the raw draft stands in for text that a skipped agent did not write. */
  function Assemble(c: Content, reasons: seq<Reason>): ContentResult {
    ContentResult(c.draft, Or(c.optimized, c.draft), c.seoKeywords, c.readabilityScore,
                  WordCount(Or(c.final, Or(c.optimized, c.draft))), c.citations, reasons != [], reasons)
  }

  /** What the contract gate asks of a result beyond the types of its fields. */
  predicate MeetsContract(r: ContentResult) {
    0.0 <= r.readabilityScore <= 100.0
  }

  function Finish(env: Env, s: State): Outcome {
    var r := Assemble(env.content, s.reasons);
    if MeetsContract(r) then Finished(r) else ContractViolation
  }

  /** The pipeline from stage `i` on. `budget` is absent when there is no degradation service. */
  function RunFrom(budget: Option<int>, env: Env, i: nat, s: State): (Outcome, State)
    decreases |PIPELINE| - i
  {
    if i >= |PIPELINE| || s.cancelled then (Finish(env, s), s)
    else
      var role := PIPELINE[i];
      if IsOptional(role) && ShouldSkipOptional(budget, s) then
        RunFrom(budget, env, i + 1, Mark(s, OPTIONAL_AGENT_SKIPPED))
      else
        var started := Emit(s, AgentStart(role));
        if IsOptional(role) then
          RunFrom(budget, env, i + 1, Emit(RunWithRetry(role, env, started), AgentDone(role)))
        else
          var tried := WithTimeout(role, env.attempts(role, 1), started);
          if Succeeds(role, env.attempts(role, 1)) then RunFrom(budget, env, i + 1, Emit(tried, AgentDone(role)))
          else (AgentFailed(role), tried)
  }

  // ---------- the service ----------

  class AgentContext {
    const degradation: DegradedExecutionContext
    var isCancelled: bool

    constructor ()
      ensures !isCancelled && fresh(degradation) && degradation.reasons == []
    {
      degradation := new DegradedExecutionContext();
      isCancelled := false;
    }

    method Cancel()
      modifies this
      ensures isCancelled
    {
      isCancelled := true;
    }
  }

  class AgentOrchestratorService {
    const latencyBudgetMs: Option<int>

    constructor (latencyBudgetMs: Option<int>)
      ensures this.latencyBudgetMs == latencyBudgetMs
    {
      this.latencyBudgetMs := latencyBudgetMs;
    }

    /** Awaits one attempt of an agent, with everything that happens to the context meanwhile. */
    method Await(role: Role, a: Attempt, ctx: AgentContext, elapsed: nat, ghost s: State)
      returns (ok: bool, now: nat, ghost s': State)
      requires s.elapsed == elapsed && s.reasons == ctx.degradation.reasons && s.cancelled == ctx.isCancelled
      modifies ctx, ctx.degradation
      ensures s' == WithTimeout(role, a, s) && ok == Succeeds(role, a)
      ensures s'.elapsed == now && s'.reasons == ctx.degradation.reasons && s'.cancelled == ctx.isCancelled
    {
      for j := 0 to |a.reasons|
        invariant ctx.degradation.reasons == AppendedAll(s.reasons, a.reasons[..j])
        invariant ctx.isCancelled == s.cancelled
      {
        assert a.reasons[..j + 1][..j] == a.reasons[..j];
        ctx.degradation.Append(a.reasons[j]);
      }
      assert a.reasons[..|a.reasons|] == a.reasons;
      if a.cancels {
        ctx.Cancel();
      }
      var inTime := InTime(role, a);
      now := elapsed + (if inTime then a.duration else TimerOf(role, a));
      ok := inTime && a.ok;
      s' := WithTimeout(role, a, s);
    }

    method RunOptional(role: Role, env: Env, ctx: AgentContext, elapsed: nat, ghost s: State)
      returns (now: nat, ghost s': State)
      requires s.elapsed == elapsed && s.reasons == ctx.degradation.reasons && s.cancelled == ctx.isCancelled
      modifies ctx, ctx.degradation
      ensures s' == RunWithRetry(role, env, s)
      ensures s'.elapsed == now && s'.reasons == ctx.degradation.reasons && s'.cancelled == ctx.isCancelled
    {
      var ok;
      ok, now, s' := Await(role, env.attempts(role, 1), ctx, elapsed, s);
      if !ok {
        ctx.degradation.Append(CONTRACT_RETRY);
        ok, now, s' := Await(role, env.attempts(role, 2), ctx, now, Mark(s', CONTRACT_RETRY));
        if !ok {
          ctx.degradation.Append(OPTIONAL_AGENT_SKIPPED);
          s' := Mark(s', OPTIONAL_AGENT_SKIPPED);
        }
      }
    }

    method Run(ctx: AgentContext, env: Env)
      returns (outcome: Outcome, events: seq<Event>, elapsed: nat)
      modifies ctx, ctx.degradation
      ensures (outcome, State(elapsed, ctx.degradation.reasons, ctx.isCancelled, events))
           == RunFrom(latencyBudgetMs, env, 0, State(0, old(ctx.degradation.reasons), old(ctx.isCancelled), []))
    {
      ghost var s := State(0, ctx.degradation.reasons, ctx.isCancelled, []);
      ghost var goal := RunFrom(latencyBudgetMs, env, 0, s);
      events, elapsed := [], 0;
      for i := 0 to |PIPELINE|
        invariant s == State(elapsed, ctx.degradation.reasons, ctx.isCancelled, events)
        invariant goal == RunFrom(latencyBudgetMs, env, i, s)
      {
        var role := PIPELINE[i];
        if ctx.isCancelled {
          break;
        }
        var isOptional := IsOptional(role);
        if isOptional && (ctx.degradation.IsDegraded() || (latencyBudgetMs.Some? && elapsed >= latencyBudgetMs.value)) {
          ctx.degradation.Append(OPTIONAL_AGENT_SKIPPED);
          s := Mark(s, OPTIONAL_AGENT_SKIPPED);
          continue;
        }
        events := events + [AgentStart(role)];
        s := Emit(s, AgentStart(role));
        if isOptional {
          elapsed, s := RunOptional(role, env, ctx, elapsed, s);
        } else {
          var ok;
          ok, elapsed, s := Await(role, env.attempts(role, 1), ctx, elapsed, s);
          if !ok {
            outcome := AgentFailed(role);
            return;
          }
        }
        events := events + [AgentDone(role)];
        s := Emit(s, AgentDone(role));
      }
      var result := Assemble(env.content, ctx.degradation.reasons);
      outcome := if MeetsContract(result) then Finished(result) else ContractViolation;
    }
  }
}
