/** What every run of the agent pipeline guarantees: event order, degradation and latency. */
module PipelineSpec {
  import opened Common
  import opened Degradation
  import opened Orchestrator

  // ---------- events ----------

  /** Start and end of the first `n` agents, one after the other in pipeline order. */
  function Bracketed(n: nat): seq<Event>
    requires n <= |PIPELINE|
  {
    if n == 0 then [] else Bracketed(n - 1) + [AgentStart(PIPELINE[n - 1]), AgentDone(PIPELINE[n - 1])]
  }

  /** The agents that ran are a prefix of the pipeline, each started and ended once, in order; only a
      required agent can be left without an end, and exactly when its failure ended the run. */
  ghost predicate ProperlyBracketed(outcome: Outcome, events: seq<Event>, n: nat) {
    && n <= |PIPELINE|
    && (if outcome.AgentFailed? then
          n < |PIPELINE| && outcome.role == PIPELINE[n] && !IsOptional(PIPELINE[n])
          && events == Bracketed(n) + [AgentStart(PIPELINE[n])]
        else events == Bracketed(n))
  }

  lemma {:induction false} EventsFrom(budget: Option<int>, env: Env, i: nat, s: State, n: nat) returns (m: nat)
    requires n <= i <= |PIPELINE| && s.events == Bracketed(n)
    requires n < i ==> n >= 3 && s.reasons != []
    ensures var (outcome, s') := RunFrom(budget, env, i, s);
      n <= m && ProperlyBracketed(outcome, s'.events, m)
    decreases |PIPELINE| - i
  {
    if i >= |PIPELINE| || s.cancelled {
      m := n;
    } else {
      var role := PIPELINE[i];
      if IsOptional(role) && ShouldSkipOptional(budget, s) {
        m := EventsFrom(budget, env, i + 1, Mark(s, OPTIONAL_AGENT_SKIPPED), n);
      } else {
        var started := Emit(s, AgentStart(role));
        var tried := if IsOptional(role) then RunWithRetry(role, env, started)
                     else WithTimeout(role, env.attempts(role, 1), started);
        if IsOptional(role) || Succeeds(role, env.attempts(role, 1)) {
          assert tried.events + [AgentDone(role)] == Bracketed(n) + [AgentStart(role), AgentDone(role)];
          m := EventsFrom(budget, env, i + 1, Emit(tried, AgentDone(role)), n + 1);
        } else {
          m := n;
        }
      }
    }
  }

  /** Every run, whatever the agents do, with or without a budget, degraded from the start or not. */
  lemma EventOrder(budget: Option<int>, env: Env, reasons: seq<Reason>, cancelled: bool) returns (n: nat)
    ensures var (outcome, s) := RunFrom(budget, env, 0, State(0, reasons, cancelled, []));
      ProperlyBracketed(outcome, s.events, n)
  {
    n := EventsFrom(budget, env, 0, State(0, reasons, cancelled, []), 0);
  }

  // ---------- reasons ----------

  /** The record of reasons only grows, without repetitions, and a cancelled run stays cancelled. */
  ghost predicate Grows(s: State, s': State) {
    Distinct(s'.reasons) && s.reasons <= s'.reasons && (s.cancelled ==> s'.cancelled)
  }

  lemma AttemptGrows(role: Role, a: Attempt, s: State)
    requires Distinct(s.reasons)
    ensures Grows(s, WithTimeout(role, a, s))
  {
    AppendOnly(s.reasons, a.reasons);
  }

  lemma MarkGrows(s: State, reason: Reason)
    requires Distinct(s.reasons)
    ensures Grows(s, Mark(s, reason)) && reason in Mark(s, reason).reasons
  {
  }

  lemma GrowsOn(s: State, s': State, s'': State)
    requires Grows(s, s') && Grows(s', s'')
    ensures Grows(s, s'') && forall r :: r in s'.reasons ==> r in s''.reasons
  {
    assert forall k :: 0 <= k < |s'.reasons| ==> s''.reasons[k] == s'.reasons[k];
  }

  lemma RetryGrows(role: Role, env: Env, s: State)
    requires Distinct(s.reasons)
    ensures Grows(s, RunWithRetry(role, env, s))
    ensures !Succeeds(role, env.attempts(role, 1)) ==> CONTRACT_RETRY in RunWithRetry(role, env, s).reasons
  {
    var first := WithTimeout(role, env.attempts(role, 1), s);
    AttemptGrows(role, env.attempts(role, 1), s);
    if !Succeeds(role, env.attempts(role, 1)) {
      SecondGrows(role, env, first);
      GrowsOn(s, first, RunWithRetry(role, env, s));
    }
  }

  lemma SecondGrows(role: Role, env: Env, first: State)
    requires Distinct(first.reasons)
    ensures var second := WithTimeout(role, env.attempts(role, 2), Mark(first, CONTRACT_RETRY));
      var last := if Succeeds(role, env.attempts(role, 2)) then second else Mark(second, OPTIONAL_AGENT_SKIPPED);
      Grows(first, last) && CONTRACT_RETRY in last.reasons
  {
    var marked := Mark(first, CONTRACT_RETRY);
    var second := WithTimeout(role, env.attempts(role, 2), marked);
    MarkGrows(first, CONTRACT_RETRY);
    AttemptGrows(role, env.attempts(role, 2), marked);
    GrowsOn(first, marked, second);
    MarkGrows(second, OPTIONAL_AGENT_SKIPPED);
    GrowsOn(first, second, Mark(second, OPTIONAL_AGENT_SKIPPED));
  }

  lemma {:induction false} ReasonsGrow(budget: Option<int>, env: Env, i: nat, s: State)
    requires Distinct(s.reasons)
    ensures Grows(s, RunFrom(budget, env, i, s).1)
    decreases |PIPELINE| - i
  {
    if i < |PIPELINE| && !s.cancelled {
      var role := PIPELINE[i];
      if IsOptional(role) && ShouldSkipOptional(budget, s) {
        ReasonsGrow(budget, env, i + 1, Mark(s, OPTIONAL_AGENT_SKIPPED));
      } else {
        var started := Emit(s, AgentStart(role));
        var tried := if IsOptional(role) then RunWithRetry(role, env, started)
                     else WithTimeout(role, env.attempts(role, 1), started);
        if IsOptional(role) {
          RetryGrows(role, env, started);
        } else {
          AttemptGrows(role, env.attempts(role, 1), started);
        }
        ReasonsGrow(budget, env, i + 1, Emit(tried, AgentDone(role)));
      }
    }
  }

  // ---------- the undisturbed run ----------

  /** The first attempt of stage `j` succeeds in time, and nothing is appended or cancelled meanwhile. */
  predicate Smooth(env: Env, j: nat)
    requires j < |PIPELINE|
  {
    var a := env.attempts(PIPELINE[j], 1);
    Succeeds(PIPELINE[j], a) && a.reasons == [] && !a.cancels
  }

  function TimeOfFirst(env: Env, n: nat): nat
    requires n <= |PIPELINE|
  {
    if n == 0 then 0 else TimeOfFirst(env, n - 1) + env.attempts(PIPELINE[n - 1], 1).duration
  }

  /** All stages before `n` are smooth, and the budget was not used up when an optional one started. */
  predicate Undisturbed(budget: Option<int>, env: Env, n: nat)
    requires n <= |PIPELINE|
  {
    forall j :: 0 <= j < n ==>
      Smooth(env, j) && (IsOptional(PIPELINE[j]) && budget.Some? ==> TimeOfFirst(env, j) < budget.value)
  }

  function CleanState(env: Env, n: nat): State
    requires n <= |PIPELINE|
  {
    State(TimeOfFirst(env, n), [], false, Bracketed(n))
  }

  lemma SmoothStage(budget: Option<int>, env: Env, i: nat)
    requires i < |PIPELINE| && Undisturbed(budget, env, i + 1)
    ensures RunFrom(budget, env, i, CleanState(env, i)) == RunFrom(budget, env, i + 1, CleanState(env, i + 1))
  {
    var role, s := PIPELINE[i], CleanState(env, i);
    var a := env.attempts(role, 1);
    var tried := WithTimeout(role, a, Emit(s, AgentStart(role)));
    assert Smooth(env, i);
    assert Bracketed(i) + [AgentStart(role)] + [AgentDone(role)] == Bracketed(i + 1);
    assert Emit(tried, AgentDone(role)) == CleanState(env, i + 1);
  }

  lemma {:induction false} UndisturbedRun(budget: Option<int>, env: Env, n: nat)
    requires n <= |PIPELINE| && Undisturbed(budget, env, n)
    ensures RunFrom(budget, env, 0, CleanState(env, 0)) == RunFrom(budget, env, n, CleanState(env, n))
  {
    if n > 0 {
      UndisturbedRun(budget, env, n - 1);
      SmoothStage(budget, env, n - 1);
    }
  }

  /** Once a run is degraded or cancelled, no optional agent starts any more. */
  lemma {:induction false} NoOptionalOnceDisturbed(budget: Option<int>, env: Env, i: nat, s: State, role: Role)
    requires IsOptional(role) && (s.reasons != [] || s.cancelled) && AgentStart(role) !in s.events
    requires Distinct(s.reasons)
    ensures AgentStart(role) !in RunFrom(budget, env, i, s).1.events
    decreases |PIPELINE| - i
  {
    if i < |PIPELINE| && !s.cancelled {
      var r := PIPELINE[i];
      if IsOptional(r) {
        NoOptionalOnceDisturbed(budget, env, i + 1, Mark(s, OPTIONAL_AGENT_SKIPPED), role);
      } else {
        var started := Emit(s, AgentStart(r));
        var tried := WithTimeout(r, env.attempts(r, 1), started);
        AttemptGrows(r, env.attempts(r, 1), started);
        if Succeeds(r, env.attempts(r, 1)) {
          NoOptionalOnceDisturbed(budget, env, i + 1, Emit(tried, AgentDone(r)), role);
        }
      }
    }
  }

  /** A stage that does not go smoothly ends the run or leaves it degraded or cancelled. */
  lemma DisturbedAt(budget: Option<int>, env: Env, i: nat, role: Role)
    requires i < |PIPELINE| && IsOptional(role) && AgentStart(role) !in Bracketed(i)
    requires Undisturbed(budget, env, i) && !Undisturbed(budget, env, i + 1)
    requires role == PIPELINE[i] ==> budget.Some? && TimeOfFirst(env, i) >= budget.value
    ensures AgentStart(role) !in RunFrom(budget, env, i, CleanState(env, i)).1.events
  {
    var r, s := PIPELINE[i], CleanState(env, i);
    if IsOptional(r) && ShouldSkipOptional(budget, s) {
      NoOptionalOnceDisturbed(budget, env, i + 1, Mark(s, OPTIONAL_AGENT_SKIPPED), role);
    } else {
      var started := Emit(s, AgentStart(r));
      var a := env.attempts(r, 1);
      assert !Smooth(env, i);
      AttemptGrows(r, a, started);
      AppendOnly(started.reasons, a.reasons);
      assert a.reasons != [] ==> a.reasons[0] in WithTimeout(r, a, started).reasons;
      if IsOptional(r) {
        RetryGrows(r, env, started);
        NoOptionalOnceDisturbed(budget, env, i + 1, Emit(RunWithRetry(r, env, started), AgentDone(r)), role);
      } else if Succeeds(r, a) {
        NoOptionalOnceDisturbed(budget, env, i + 1, Emit(WithTimeout(r, a, started), AgentDone(r)), role);
      }
    }
  }

  lemma {:induction false} StartsWithin(n: nat, k: nat)
    requires n <= |PIPELINE| && k < |PIPELINE|
    ensures AgentStart(PIPELINE[k]) in Bracketed(n) <==> k < n
  {
    if n > 0 {
      StartsWithin(n - 1, k);
    }
  }

  lemma FirstDisturbance(budget: Option<int>, env: Env, n: nat) returns (i: nat)
    requires n <= |PIPELINE| && !Undisturbed(budget, env, n)
    ensures i < n && Undisturbed(budget, env, i) && !Undisturbed(budget, env, i + 1)
  {
    i := n - 1;
    if !Undisturbed(budget, env, i) {
      i := FirstDisturbance(budget, env, i);
    }
  }

  /** An optional agent (OPTIMIZER is stage 3, QA stage 4) starts if and only if the run was neither
      degraded nor cancelled at the outset, every stage before it succeeded at the first attempt
      without any reason appended, and the budget was not used up. */
  lemma OptionalStartsIff(budget: Option<int>, env: Env, k: nat, reasons: seq<Reason>, cancelled: bool)
    requires 3 <= k < |PIPELINE| && Distinct(reasons)
    ensures AgentStart(PIPELINE[k]) in RunFrom(budget, env, 0, State(0, reasons, cancelled, [])).1.events <==>
      reasons == [] && !cancelled && Undisturbed(budget, env, k) && (budget.Some? ==> TimeOfFirst(env, k) < budget.value)
  {
    var s := State(0, reasons, cancelled, []);
    var role := PIPELINE[k];
    if reasons != [] || cancelled {
      NoOptionalOnceDisturbed(budget, env, 0, s, role);
    } else if !Undisturbed(budget, env, k) {
      var i := FirstDisturbance(budget, env, k);
      UndisturbedRun(budget, env, i);
      StartsWithin(i, k);
      DisturbedAt(budget, env, i, role);
    } else {
      UndisturbedRun(budget, env, k);
      StartsWithin(k, k);
      if budget.Some? && TimeOfFirst(env, k) >= budget.value {
        DisturbedAt(budget, env, k, role);
      } else {
        StartPersists(budget, env, k, role);
      }
    }
  }

  lemma StartPersists(budget: Option<int>, env: Env, k: nat, role: Role)
    requires k < |PIPELINE| && IsOptional(role) && role == PIPELINE[k]
    requires budget.Some? ==> TimeOfFirst(env, k) < budget.value
    ensures AgentStart(role) in RunFrom(budget, env, k, CleanState(env, k)).1.events
  {
    var started := Emit(CleanState(env, k), AgentStart(role));
    assert started.events[|Bracketed(k)|] == AgentStart(role);
    EventsKept(budget, env, k + 1, Emit(RunWithRetry(role, env, started), AgentDone(role)));
  }

  lemma {:induction false} EventsKept(budget: Option<int>, env: Env, i: nat, s: State)
    ensures s.events <= RunFrom(budget, env, i, s).1.events
    decreases |PIPELINE| - i
  {
    if i < |PIPELINE| && !s.cancelled {
      var role := PIPELINE[i];
      var started := Emit(s, AgentStart(role));
      if IsOptional(role) && ShouldSkipOptional(budget, s) {
        EventsKept(budget, env, i + 1, Mark(s, OPTIONAL_AGENT_SKIPPED));
      } else if IsOptional(role) {
        EventsKept(budget, env, i + 1, Emit(RunWithRetry(role, env, started), AgentDone(role)));
      } else {
        EventsKept(budget, env, i + 1, Emit(WithTimeout(role, env.attempts(role, 1), started), AgentDone(role)));
      }
    }
  }

  /** A result shows the content as it is and the final record of reasons, and is degraded just when there are
      any; where the optimizer left no text the draft stands in; and only the readability score can keep a
      result from being delivered. */
  lemma {:induction false} OutcomeReports(budget: Option<int>, env: Env, i: nat, s: State)
    ensures var (outcome, s') := RunFrom(budget, env, i, s);
      var c := env.content;
      && (outcome.Finished? ==>
            var r := outcome.result;
            && r.degradationReasons == s'.reasons && (r.degraded <==> s'.reasons != [])
            && r.raw == c.draft && r.seoKeywords == c.seoKeywords && r.citations == c.citations
            && r.optimized == (if c.optimized == [] then c.draft else c.optimized)
            && r.wordCount == WordCount(if c.final != [] then c.final else if c.optimized != [] then c.optimized else c.draft)
            && 0.0 <= r.readabilityScore == c.readabilityScore <= 100.0)
      && (outcome.ContractViolation? ==> !(0.0 <= c.readabilityScore <= 100.0))
    decreases |PIPELINE| - i
  {
    if i < |PIPELINE| && !s.cancelled {
      var role := PIPELINE[i];
      var started := Emit(s, AgentStart(role));
      if IsOptional(role) && ShouldSkipOptional(budget, s) {
        OutcomeReports(budget, env, i + 1, Mark(s, OPTIONAL_AGENT_SKIPPED));
      } else if IsOptional(role) {
        OutcomeReports(budget, env, i + 1, Emit(RunWithRetry(role, env, started), AgentDone(role)));
      } else {
        OutcomeReports(budget, env, i + 1, Emit(WithTimeout(role, env.attempts(role, 1), started), AgentDone(role)));
      }
    }
  }

  predicate IsClean(outcome: Outcome, s: State) {
    outcome.Finished? && !outcome.result.degraded && !s.cancelled
  }

  /** There is a result that is neither degraded nor cancelled if and only if the run was undisturbed to the
      end and the result passes its contract gate; and then all five agents ran exactly once. */
  lemma CleanResultIff(budget: Option<int>, env: Env, reasons: seq<Reason>, cancelled: bool)
    requires Distinct(reasons)
    ensures var (outcome, s) := RunFrom(budget, env, 0, State(0, reasons, cancelled, []));
      && (IsClean(outcome, s) <==>
            && reasons == [] && !cancelled && Undisturbed(budget, env, |PIPELINE|)
            && 0.0 <= env.content.readabilityScore <= 100.0)
      && (IsClean(outcome, s) ==>
            && s.elapsed == TimeOfFirst(env, |PIPELINE|) && s.reasons == []
            && s.events == [AgentStart(PLANNER), AgentDone(PLANNER), AgentStart(RESEARCHER), AgentDone(RESEARCHER),
                            AgentStart(GENERATOR), AgentDone(GENERATOR), AgentStart(OPTIMIZER), AgentDone(OPTIMIZER),
                            AgentStart(QA), AgentDone(QA)])
  {
    if reasons != [] || cancelled {
      ReasonsGrow(budget, env, 0, State(0, reasons, cancelled, []));
      OutcomeReports(budget, env, 0, State(0, reasons, cancelled, []));
    } else {
      assert State(0, reasons, cancelled, []) == CleanState(env, 0);
      if Undisturbed(budget, env, |PIPELINE|) {
        UndisturbedRun(budget, env, |PIPELINE|);
        FullPipeline();
        assert RunFrom(budget, env, 5, CleanState(env, 5)) == (Finish(env, CleanState(env, 5)), CleanState(env, 5));
      } else {
        var i := FirstDisturbance(budget, env, |PIPELINE|);
        UndisturbedRun(budget, env, i);
        DisturbedResult(budget, env, i);
        OutcomeReports(budget, env, i, CleanState(env, i));
      }
    }
  }

  lemma FullPipeline()
    ensures Bracketed(5) == [
      AgentStart(PLANNER), AgentDone(PLANNER), AgentStart(RESEARCHER), AgentDone(RESEARCHER),
      AgentStart(GENERATOR), AgentDone(GENERATOR), AgentStart(OPTIMIZER), AgentDone(OPTIMIZER),
      AgentStart(QA), AgentDone(QA)]
  {
    assert Bracketed(1) == [AgentStart(PLANNER), AgentDone(PLANNER)];
    assert Bracketed(2) == Bracketed(1) + [AgentStart(RESEARCHER), AgentDone(RESEARCHER)];
    assert Bracketed(3) == Bracketed(2) + [AgentStart(GENERATOR), AgentDone(GENERATOR)];
    assert Bracketed(4) == Bracketed(3) + [AgentStart(OPTIMIZER), AgentDone(OPTIMIZER)];
  }

  lemma DisturbedResult(budget: Option<int>, env: Env, i: nat)
    requires i < |PIPELINE| && Undisturbed(budget, env, i) && !Undisturbed(budget, env, i + 1)
    ensures var (outcome, s) := RunFrom(budget, env, i, CleanState(env, i));
      outcome.AgentFailed? || s.reasons != [] || s.cancelled
  {
    var r, s := PIPELINE[i], CleanState(env, i);
    if IsOptional(r) && ShouldSkipOptional(budget, s) {
      ReasonsGrow(budget, env, i + 1, Mark(s, OPTIONAL_AGENT_SKIPPED));
    } else {
      var started := Emit(s, AgentStart(r));
      var a := env.attempts(r, 1);
      assert !Smooth(env, i);
      AttemptGrows(r, a, started);
      AppendOnly(started.reasons, a.reasons);
      assert a.reasons != [] ==> a.reasons[0] in WithTimeout(r, a, started).reasons;
      if IsOptional(r) {
        RetryGrows(r, env, started);
        ReasonsGrow(budget, env, i + 1, Emit(RunWithRetry(r, env, started), AgentDone(r)));
      } else if Succeeds(r, a) {
        ReasonsGrow(budget, env, i + 1, Emit(WithTimeout(r, a, started), AgentDone(r)));
      }
    }
  }

  // ---------- latency ----------

  /** No timer fires more than `lateness` after it is due. */
  ghost predicate Punctual(env: Env, lateness: nat) {
    forall role, k :: env.attempts(role, k).late <= lateness
  }

  /** The longest a run can take, with timers up to `late` behind: 170 s for the required agents, or 120 s after the
      last moment at which an optional agent may start -- and in any case 350 s, since a retried OPTIMIZER rules
      out QA -- and the lateness of every timer in that. */
  function WorstCase(budget: Option<int>, late: nat): int {
    match budget
    case None => 350_000 + 6 * late
    case Some(b) => Max(170_000 + 3 * late, Min(b + 119_999 + 2 * late, 350_000 + 6 * late))
  }

  /** The latest end of a run that reaches an optional stage after `elapsed`, not degraded. */
  function OptionalEnd(budget: Option<int>, elapsed: int, late: nat): int {
    if budget.Some? && elapsed >= budget.value then elapsed else elapsed + 120_000 + 2 * late
  }

  lemma StageQA(budget: Option<int>, env: Env, s: State, late: nat)
    requires Punctual(env, late)
    ensures var end := RunFrom(budget, env, 4, s).1.elapsed;
      end <= OptionalEnd(budget, s.elapsed, late) && (s.reasons != [] ==> end == s.elapsed)
  {
    EndOfPipeline(budget, env, Mark(s, OPTIONAL_AGENT_SKIPPED));
    EndOfPipeline(budget, env, Emit(RunWithRetry(QA, env, Emit(s, AgentStart(QA))), AgentDone(QA)));
  }

  lemma EndOfPipeline(budget: Option<int>, env: Env, s: State)
    ensures RunFrom(budget, env, 5, s).1 == s
  {
  }

  lemma StageOptimizer(budget: Option<int>, env: Env, s: State, late: nat)
    requires Distinct(s.reasons) && Punctual(env, late)
    ensures var end := RunFrom(budget, env, 3, s).1.elapsed;
      || end <= s.elapsed
      || (end <= s.elapsed + 180_000 + 3 * late && (budget.Some? ==> end <= budget.value + 119_999 + 2 * late))
  {
    if !s.cancelled {
      var role := PIPELINE[3];
      if ShouldSkipOptional(budget, s) {
        StageQA(budget, env, Mark(s, OPTIONAL_AGENT_SKIPPED), late);
      } else {
        var started := Emit(s, AgentStart(role));
        var tried := RunWithRetry(role, env, started);
        RetryGrows(role, env, started);
        StageQA(budget, env, Emit(tried, AgentDone(role)), late);
      }
    }
  }

  lemma {:induction false} StagesRequired(budget: Option<int>, env: Env, i: nat, s: State, spent: nat, late: nat)
    requires i <= 3 && Distinct(s.reasons) && s.elapsed <= spent && Punctual(env, late)
    requires spent == i * late + (if i == 0 then 0 else if i == 1 then 30_000 else if i == 2 then 50_000 else 170_000)
    ensures RunFrom(budget, env, i, s).1.elapsed <= WorstCase(budget, late)
    decreases 3 - i
  {
    if i == 3 {
      StageOptimizer(budget, env, s, late);
    } else if !s.cancelled {
      var role := PIPELINE[i];
      var started := Emit(s, AgentStart(role));
      AttemptGrows(role, env.attempts(role, 1), started);
      StagesRequired(budget, env, i + 1, Emit(WithTimeout(role, env.attempts(role, 1), started), AgentDone(role)),
                     spent + TimeoutOf(role) + late, late);
    }
  }

  /** Every run ends by the worst case. */
  lemma LatencyBound(budget: Option<int>, env: Env, reasons: seq<Reason>, cancelled: bool, late: nat)
    requires Distinct(reasons) && Punctual(env, late)
    ensures RunFrom(budget, env, 0, State(0, reasons, cancelled, [])).1.elapsed <= WorstCase(budget, late)
  {
    StagesRequired(budget, env, 0, State(0, reasons, cancelled, []), 0, late);
  }

  const BLANK := Content([], [], [], [], 0.0, [])

  function Share(t: int, limit: nat): nat {
    if t < 0 then 0 else if t < limit then t else limit
  }

  function Good(duration: nat, late: nat): Attempt {
    Attempt(duration, true, late, true, [], false)
  }

  function Hung(late: nat): Attempt {
    Attempt(60_000 + late, false, late, true, [], false)
  }

  /** A run whose undisturbed stages take `t` in all, after which the next optional agent hangs twice; all timers
      are as late as they can be. */
  function SlowEnv(t: nat, late: nat): Env {
    Env((role: Role, k: nat) =>
      match role
      case PLANNER => Good(Share(t, 30_000 + late), late)
      case RESEARCHER => Good(Share(t - 30_000 - late, 20_000 + late), late)
      case GENERATOR => Good(Share(t - 50_000 - 2 * late, 120_000 + late), late)
      case OPTIMIZER =>
        if t <= 170_000 + 3 * late then Hung(late) else Good(Share(t - 170_000 - 3 * late, 60_000 + late), late)
      case QA => Hung(late),
      BLANK)
  }

  /** The worst case is attained: no smaller bound holds, whatever the budget and the lateness. */
  lemma LatencyBoundTight(budget: Option<int>, late: nat)
    ensures exists env ::
      Punctual(env, late) && RunFrom(budget, env, 0, State(0, [], false, [])).1.elapsed == WorstCase(budget, late)
  {
    var required := 170_000 + 3 * late;
    var t := if budget == None then 230_000 + 4 * late
             else if WorstCase(budget, late) <= required then required
             else WorstCase(budget, late) - 120_000 - 2 * late;
    TightAt(budget, late, t);
  }

  lemma TightAt(budget: Option<int>, late: nat, t: int)
    requires 0 <= t <= 230_000 + 4 * late
    requires budget == None ==> t == 230_000 + 4 * late
    requires budget.Some? ==>
      if t >= budget.value then t == 170_000 + 3 * late == WorstCase(budget, late)
      else t + 120_000 + 2 * late == WorstCase(budget, late) && (t > 170_000 + 3 * late ==> 170_000 + 3 * late < budget.value)
    ensures exists env ::
      Punctual(env, late) && RunFrom(budget, env, 0, State(0, [], false, [])).1.elapsed == WorstCase(budget, late)
  {
    var env := SlowEnv(t, late);
    var last := if t <= 170_000 + 3 * late then 3 else 4;
    SlowStages(budget, env, t, late);
    UndisturbedRun(budget, env, last);
    if budget.Some? && t >= budget.value {
      StageSkips(budget, env, CleanState(env, last), late);
    } else {
      StageHangs(budget, env, last, CleanState(env, last), late);
    }
    assert CleanState(env, 0) == State(0, [], false, []);
    assert RunFrom(budget, env, 0, State(0, [], false, [])).1.elapsed == WorstCase(budget, late);
  }

  lemma SlowStages(budget: Option<int>, env: Env, t: nat, late: nat)
    requires t <= 230_000 + 4 * late && env == SlowEnv(t, late)
    requires t > 170_000 + 3 * late && budget.Some? ==> 170_000 + 3 * late < budget.value
    ensures var last := if t <= 170_000 + 3 * late then 3 else 4;
      Undisturbed(budget, env, last) && TimeOfFirst(env, last) == t && Punctual(env, late)
  {
    assert TimeOfFirst(env, 0) == 0;
    assert TimeOfFirst(env, 1) == env.attempts(PLANNER, 1).duration;
    assert TimeOfFirst(env, 2) == TimeOfFirst(env, 1) + env.attempts(RESEARCHER, 1).duration;
    assert TimeOfFirst(env, 3) == TimeOfFirst(env, 2) + env.attempts(GENERATOR, 1).duration;
    assert TimeOfFirst(env, 4) == TimeOfFirst(env, 3) + env.attempts(OPTIMIZER, 1).duration;
    assert Smooth(env, 0) && Smooth(env, 1) && Smooth(env, 2);
    assert t > 170_000 + 3 * late ==> Smooth(env, 3);
  }

  lemma StageSkips(budget: Option<int>, env: Env, s: State, late: nat)
    requires budget.Some? && s.elapsed >= budget.value && !s.cancelled && Punctual(env, late)
    ensures RunFrom(budget, env, 3, s).1.elapsed == s.elapsed
  {
    StageQA(budget, env, Mark(s, OPTIONAL_AGENT_SKIPPED), late);
  }

  lemma StageHangs(budget: Option<int>, env: Env, i: nat, s: State, late: nat)
    requires 3 <= i <= 4 && s.reasons == [] && !s.cancelled && Punctual(env, late)
    requires budget.Some? ==> s.elapsed < budget.value
    requires forall k :: env.attempts(PIPELINE[i], k) == Hung(late)
    ensures RunFrom(budget, env, i, s).1.elapsed == s.elapsed + 120_000 + 2 * late
  {
    var role := PIPELINE[i];
    var started := Emit(s, AgentStart(role));
    RetryGrows(role, env, started);
    var next := Emit(RunWithRetry(role, env, started), AgentDone(role));
    assert next.elapsed == s.elapsed + 120_000 + 2 * late;
    if i == 3 {
      StageQA(budget, env, next, late);
    } else {
      EndOfPipeline(budget, env, next);
    }
  }
}
