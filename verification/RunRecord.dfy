/** What a run of the agent pipeline records: every reason, in order, the time it took, and which agents ran. */
module RunRecord {
  import opened Common
  import opened Degradation
  import opened Orchestrator
  import opened PipelineSpec

  /** The first attempt of an optional agent fails, so that there is a second one. */
  predicate Retried(env: Env, role: Role) {
    role in {OPTIMIZER, QA} && !Succeeds(role, env.attempts(role, 1))
  }

  predicate Started(events: seq<Event>, role: Role) {
    AgentStart(role) in events
  }

  /** The pipeline waits for attempt `k` of the agent. */
  predicate Awaited(env: Env, events: seq<Event>, role: Role, k: nat) {
    Started(events, role) && (k == 1 || (k == 2 && Retried(env, role)))
  }

  /** The run is cancelled while the agent is awaited. */
  predicate CancelsDuring(env: Env, events: seq<Event>, role: Role) {
    || (Awaited(env, events, role, 1) && env.attempts(role, 1).cancels)
    || (Awaited(env, events, role, 2) && env.attempts(role, 2).cancels)
  }

  /** What a stage adds to the record: what its attempts append and the marks of a failed first and second
      attempt, or the mark of an optional agent that was reached and passed over. */
  function StageLog(env: Env, events: seq<Event>, failed: bool, cancelled: bool, role: Role): seq<Reason> {
    var first, second := env.attempts(role, 1), env.attempts(role, 2);
    if !Started(events, role) then
      if role in {OPTIMIZER, QA} && !cancelled && !failed then [OPTIONAL_AGENT_SKIPPED] else []
    else if !Retried(env, role) then first.reasons
    else first.reasons + [CONTRACT_RETRY] + second.reasons + if Succeeds(role, second) then [] else [OPTIONAL_AGENT_SKIPPED]
  }

  function LogFrom(env: Env, events: seq<Event>, failed: bool, cancelled: bool, i: nat): seq<Reason>
    decreases |PIPELINE| - i
  {
    if i >= |PIPELINE| then []
    else
      StageLog(env, events, failed, cancelled, PIPELINE[i])
      + LogFrom(env, events, failed, cancelled || CancelsDuring(env, events, PIPELINE[i]), i + 1)
  }

  /** An attempt takes until its task settles or its timer fires. */
  function Spent(role: Role, a: Attempt): int {
    Min(a.duration, TimeoutOf(role) + a.late)
  }

  function TimeFrom(env: Env, events: seq<Event>, i: nat): int
    decreases |PIPELINE| - i
  {
    if i >= |PIPELINE| then 0
    else
      var role := PIPELINE[i];
      (if Awaited(env, events, role, 1) then Spent(role, env.attempts(role, 1)) else 0)
      + (if Awaited(env, events, role, 2) then Spent(role, env.attempts(role, 2)) else 0)
      + TimeFrom(env, events, i + 1)
  }

  predicate CancelledFrom(env: Env, events: seq<Event>, cancelled: bool, i: nat)
    decreases |PIPELINE| - i
  {
    if i >= |PIPELINE| then cancelled
    else CancelledFrom(env, events, cancelled || CancelsDuring(env, events, PIPELINE[i]), i + 1)
  }

  /** The final state holds the log, the time and the cancellation of the stages from `i` on. */
  ghost predicate Accounted(env: Env, outcome: Outcome, s: State, s': State, i: nat) {
    && s'.reasons == AppendedAll(s.reasons, LogFrom(env, s'.events, outcome.AgentFailed?, s.cancelled, i))
    && s'.elapsed == s.elapsed + TimeFrom(env, s'.events, i)
    && s'.cancelled == CancelledFrom(env, s'.events, s.cancelled, i)
  }

  predicate NoneStarted(events: seq<Event>, i: nat) {
    forall j :: i <= j < |PIPELINE| ==> !Started(events, PIPELINE[j])
  }

  // ---------- one stage ----------

  lemma {:induction false} AppendedTwice(reasons: seq<Reason>, a: seq<Reason>, b: seq<Reason>)
    ensures AppendedAll(AppendedAll(reasons, a), b) == AppendedAll(reasons, a + b)
  {
    if b == [] {
      assert a + b == a;
    } else {
      var init := b[..|b| - 1];
      AppendedTwice(reasons, a, init);
      assert (a + b)[..|a + b| - 1] == a + init;
    }
  }

  lemma AppendedOne(reasons: seq<Reason>, reason: Reason)
    ensures AppendedAll(reasons, [reason]) == Appended(reasons, reason)
  {
    assert [reason][..0] == [];
  }

  lemma AttemptAccount(role: Role, a: Attempt, s: State)
    ensures WithTimeout(role, a, s) ==
      s.(elapsed := s.elapsed + Spent(role, a),
         reasons := AppendedAll(s.reasons, a.reasons),
         cancelled := s.cancelled || a.cancels)
  {
  }

  /** The log of an optional agent that started. */
  lemma RetryAccount(role: Role, env: Env, s: State, events: seq<Event>)
    requires role in {OPTIMIZER, QA} && Started(events, role)
    ensures var s' := RunWithRetry(role, env, s);
      && s'.reasons == AppendedAll(s.reasons, StageLog(env, events, false, s.cancelled, role))
      && s'.cancelled == (s.cancelled || CancelsDuring(env, events, role))
      && s'.events == s.events
      && s'.elapsed == s.elapsed + Spent(role, env.attempts(role, 1))
                       + if Retried(env, role) then Spent(role, env.attempts(role, 2)) else 0
  {
    var a, b := env.attempts(role, 1), env.attempts(role, 2);
    var first := WithTimeout(role, a, s);
    AttemptAccount(role, a, s);
    if Retried(env, role) {
      var marked := Mark(first, CONTRACT_RETRY);
      AttemptAccount(role, b, marked);
      AppendedOne(first.reasons, CONTRACT_RETRY);
      AppendedTwice(s.reasons, a.reasons, [CONTRACT_RETRY]);
      AppendedTwice(s.reasons, a.reasons + [CONTRACT_RETRY], b.reasons);
      var second := WithTimeout(role, b, marked);
      AppendedOne(second.reasons, OPTIONAL_AGENT_SKIPPED);
      AppendedTwice(s.reasons, a.reasons + [CONTRACT_RETRY] + b.reasons, [OPTIONAL_AGENT_SKIPPED]);
      assert a.reasons + [CONTRACT_RETRY] + b.reasons + [] == a.reasons + [CONTRACT_RETRY] + b.reasons;
    }
  }

  // ---------- whole runs ----------

  lemma StartElsewhere(events: seq<Event>, r: Role, role: Role)
    requires r != role
    ensures Started(events + [AgentStart(r)], role) <==> Started(events, role)
    ensures Started(events + [AgentStart(r)] + [AgentDone(r)], role) <==> Started(events, role)
  {
  }

  lemma {:induction false} StartsOnlyAhead(budget: Option<int>, env: Env, i: nat, s: State, role: Role)
    requires forall j :: i <= j < |PIPELINE| ==> PIPELINE[j] != role
    ensures Started(RunFrom(budget, env, i, s).1.events, role) <==> Started(s.events, role)
    decreases |PIPELINE| - i
  {
    if i < |PIPELINE| && !s.cancelled {
      var r := PIPELINE[i];
      var started := Emit(s, AgentStart(r));
      StartElsewhere(s.events, r, role);
      if IsOptional(r) && ShouldSkipOptional(budget, s) {
        StartsOnlyAhead(budget, env, i + 1, Mark(s, OPTIONAL_AGENT_SKIPPED), role);
      } else if IsOptional(r) {
        var mid := Emit(RunWithRetry(r, env, started), AgentDone(r));
        assert mid.events == s.events + [AgentStart(r)] + [AgentDone(r)];
        StartsOnlyAhead(budget, env, i + 1, mid, role);
      } else {
        var mid := Emit(WithTimeout(r, env.attempts(r, 1), started), AgentDone(r));
        assert mid.events == s.events + [AgentStart(r)] + [AgentDone(r)];
        StartsOnlyAhead(budget, env, i + 1, mid, role);
      }
    }
  }

  /** Stages that are not reached add nothing. */
  lemma {:induction false} NothingFrom(env: Env, events: seq<Event>, failed: bool, cancelled: bool, i: nat)
    requires NoneStarted(events, i) && (failed || cancelled)
    ensures LogFrom(env, events, failed, cancelled, i) == [] && TimeFrom(env, events, i) == 0
    ensures CancelledFrom(env, events, cancelled, i) == cancelled
    decreases |PIPELINE| - i
  {
    if i < |PIPELINE| {
      assert !Started(events, PIPELINE[i]);
      NothingFrom(env, events, failed, cancelled, i + 1);
    }
  }

  /** A stage is followed by the rest of the run. */
  lemma Compose(env: Env, outcome: Outcome, s: State, mid: State, s': State, i: nat, spent: int)
    requires i < |PIPELINE|
    requires mid.reasons == AppendedAll(s.reasons, StageLog(env, s'.events, outcome.AgentFailed?, s.cancelled, PIPELINE[i]))
    requires mid.cancelled == (s.cancelled || CancelsDuring(env, s'.events, PIPELINE[i]))
    requires spent == TimeFrom(env, s'.events, i) - TimeFrom(env, s'.events, i + 1) && mid.elapsed == s.elapsed + spent
    requires Accounted(env, outcome, mid, s', i + 1)
    ensures Accounted(env, outcome, s, s', i)
  {
    var role := PIPELINE[i];
    AppendedTwice(s.reasons, StageLog(env, s'.events, outcome.AgentFailed?, s.cancelled, role),
                  LogFrom(env, s'.events, outcome.AgentFailed?, mid.cancelled, i + 1));
  }

  lemma Distinguish(i: nat)
    requires i < |PIPELINE|
    ensures forall j :: i < j < |PIPELINE| ==> PIPELINE[j] != PIPELINE[i]
    ensures IsOptional(PIPELINE[i]) <==> i >= 3
    ensures IsOptional(PIPELINE[i]) <==> PIPELINE[i] in {OPTIMIZER, QA}
  {
  }

  lemma {:induction false} NoFailureFrom(budget: Option<int>, env: Env, i: nat, s: State)
    requires i >= 3
    ensures !RunFrom(budget, env, i, s).0.AgentFailed?
    decreases |PIPELINE| - i
  {
    if i < |PIPELINE| && !s.cancelled {
      var role := PIPELINE[i];
      Distinguish(i);
      if ShouldSkipOptional(budget, s) {
        NoFailureFrom(budget, env, i + 1, Mark(s, OPTIONAL_AGENT_SKIPPED));
      } else {
        NoFailureFrom(budget, env, i + 1, Emit(RunWithRetry(role, env, Emit(s, AgentStart(role))), AgentDone(role)));
      }
    }
  }

  lemma {:induction false} RunAccounts(budget: Option<int>, env: Env, i: nat, s: State)
    requires i <= |PIPELINE| && NoneStarted(s.events, i)
    ensures var (outcome, s') := RunFrom(budget, env, i, s);
      Accounted(env, outcome, s, s', i)
    decreases |PIPELINE| - i
  {
    if i == |PIPELINE| {
    } else if s.cancelled {
      NothingFrom(env, s.events, false, true, i);
    } else {
      Distinguish(i);
      var role := PIPELINE[i];
      if IsOptional(role) && ShouldSkipOptional(budget, s) {
        PassAccounts(budget, env, i, s);
      } else if IsOptional(role) {
        OptionalAccounts(budget, env, i, s);
      } else {
        RequiredAccounts(budget, env, i, s);
      }
    }
  }

  lemma {:induction false} PassAccounts(budget: Option<int>, env: Env, i: nat, s: State)
    requires 3 <= i < |PIPELINE| && NoneStarted(s.events, i) && !s.cancelled && ShouldSkipOptional(budget, s)
    ensures var (outcome, s') := RunFrom(budget, env, i, s);
      Accounted(env, outcome, s, s', i)
    decreases |PIPELINE| - i, 0
  {
    var mid := Mark(s, OPTIONAL_AGENT_SKIPPED);
    var (outcome, s') := RunFrom(budget, env, i + 1, mid);
    Distinguish(i);
    NoFailureFrom(budget, env, i + 1, mid);
    StartsOnlyAhead(budget, env, i + 1, mid, PIPELINE[i]);
    assert NoneStarted(mid.events, i + 1);
    RunAccounts(budget, env, i + 1, mid);
    AppendedOne(s.reasons, OPTIONAL_AGENT_SKIPPED);
    Compose(env, outcome, s, mid, s', i, 0);
  }

  lemma {:induction false} OptionalAccounts(budget: Option<int>, env: Env, i: nat, s: State)
    requires 3 <= i < |PIPELINE| && NoneStarted(s.events, i) && !s.cancelled && !ShouldSkipOptional(budget, s)
    ensures var (outcome, s') := RunFrom(budget, env, i, s);
      Accounted(env, outcome, s, s', i)
    decreases |PIPELINE| - i, 0
  {
    var role := PIPELINE[i];
    var tried := RunWithRetry(role, env, Emit(s, AgentStart(role)));
    var mid := Emit(tried, AgentDone(role));
    var (outcome, s') := RunFrom(budget, env, i + 1, mid);
    Distinguish(i);
    NoFailureFrom(budget, env, i + 1, mid);
    StartIn(s.events, role);
    StartsOnlyAhead(budget, env, i + 1, mid, role);
    RetryAccount(role, env, Emit(s, AgentStart(role)), s'.events);
    LaterNotStarted(s.events, i);
    RunAccounts(budget, env, i + 1, mid);
    Compose(env, outcome, s, mid, s', i, mid.elapsed - s.elapsed);
  }

  lemma StartIn(events: seq<Event>, role: Role)
    ensures Started(events + [AgentStart(role)], role) && Started(events + [AgentStart(role)] + [AgentDone(role)], role)
  {
    assert (events + [AgentStart(role)])[|events|] == AgentStart(role);
    assert (events + [AgentStart(role)] + [AgentDone(role)])[|events|] == AgentStart(role);
  }

  lemma LaterNotStarted(events: seq<Event>, i: nat)
    requires i < |PIPELINE| && NoneStarted(events, i)
    ensures NoneStarted(events + [AgentStart(PIPELINE[i])], i + 1)
    ensures NoneStarted(events + [AgentStart(PIPELINE[i])] + [AgentDone(PIPELINE[i])], i + 1)
  {
    Distinguish(i);
  }

  lemma {:induction false} RequiredAccounts(budget: Option<int>, env: Env, i: nat, s: State)
    requires i < 3 && NoneStarted(s.events, i) && !s.cancelled
    ensures var (outcome, s') := RunFrom(budget, env, i, s);
      Accounted(env, outcome, s, s', i)
    decreases |PIPELINE| - i, 0
  {
    var role := PIPELINE[i];
    var a := env.attempts(role, 1);
    var tried := WithTimeout(role, a, Emit(s, AgentStart(role)));
    Distinguish(i);
    AttemptAccount(role, a, Emit(s, AgentStart(role)));
    StartIn(s.events, role);
    LaterNotStarted(s.events, i);
    if Succeeds(role, a) {
      var mid := Emit(tried, AgentDone(role));
      var (outcome, s') := RunFrom(budget, env, i + 1, mid);
      StartsOnlyAhead(budget, env, i + 1, mid, role);
      RunAccounts(budget, env, i + 1, mid);
      Compose(env, outcome, s, mid, s', i, mid.elapsed - s.elapsed);
    } else {
      NothingFrom(env, tried.events, true, tried.cancelled, i + 1);
      Compose(env, AgentFailed(role), s, tried, tried, i, tried.elapsed - s.elapsed);
    }
  }

  /** Every run: the final record is the initial one with the reasons of all stages appended in pipeline order,
      and the time is that of all attempts it waited for. */
  lemma RecordOfRun(budget: Option<int>, env: Env, reasons: seq<Reason>, cancelled: bool)
    ensures var (outcome, s) := RunFrom(budget, env, 0, State(0, reasons, cancelled, []));
      && s.reasons == AppendedAll(reasons, LogFrom(env, s.events, outcome.AgentFailed?, cancelled, 0))
      && s.elapsed == TimeFrom(env, s.events, 0)
      && s.cancelled == CancelledFrom(env, s.events, cancelled, 0)
  {
    RunAccounts(budget, env, 0, State(0, reasons, cancelled, []));
  }

  // ---------- which reasons ----------

  /** An attempt that was awaited, of a stage from `i` on, appended the reason. */
  ghost predicate AppendedBy(env: Env, events: seq<Event>, i: nat, x: Reason) {
    exists j, k :: i <= j < |PIPELINE| && Awaited(env, events, PIPELINE[j], k) && x in env.attempts(PIPELINE[j], k).reasons
  }

  /** An optional agent started and failed its first attempt. */
  ghost predicate FirstFailed(env: Env, events: seq<Event>, i: nat) {
    exists j :: i <= j < |PIPELINE| && Awaited(env, events, PIPELINE[j], 2)
  }

  /** The run was cancelled before stage `n`. */
  ghost predicate CancelledBefore(env: Env, events: seq<Event>, cancelled: bool, i: nat, n: nat) {
    cancelled || exists j :: i <= j < n && j < |PIPELINE| && CancelsDuring(env, events, PIPELINE[j])
  }

  /** An optional agent failed both attempts, or was reached and not started. */
  ghost predicate LeftOut(env: Env, events: seq<Event>, failed: bool, cancelled: bool, i: nat, j: nat)
    requires j < |PIPELINE|
  {
    var role := PIPELINE[j];
    role in {OPTIMIZER, QA} &&
    if Started(events, role) then !Succeeds(role, env.attempts(role, 1)) && !Succeeds(role, env.attempts(role, 2))
    else !failed && !CancelledBefore(env, events, cancelled, i, j)
  }

  ghost predicate SomeLeftOut(env: Env, events: seq<Event>, failed: bool, cancelled: bool, i: nat) {
    exists j :: i <= j < |PIPELINE| && LeftOut(env, events, failed, cancelled, i, j)
  }

  ghost predicate Explained(env: Env, events: seq<Event>, failed: bool, cancelled: bool, i: nat, x: Reason) {
    || AppendedBy(env, events, i, x)
    || (x == CONTRACT_RETRY && FirstFailed(env, events, i))
    || (x == OPTIONAL_AGENT_SKIPPED && SomeLeftOut(env, events, failed, cancelled, i))
  }

  lemma {:induction false} LogMembers(env: Env, events: seq<Event>, failed: bool, cancelled: bool, i: nat, x: Reason)
    ensures x in LogFrom(env, events, failed, cancelled, i) <==> Explained(env, events, failed, cancelled, i, x)
    decreases |PIPELINE| - i
  {
    if i < |PIPELINE| {
      var later := cancelled || CancelsDuring(env, events, PIPELINE[i]);
      LogMembers(env, events, failed, later, i + 1, x);
      ExplainedStep(env, events, failed, cancelled, i, x);
    }
  }

  lemma ExplainedStep(env: Env, events: seq<Event>, failed: bool, cancelled: bool, i: nat, x: Reason)
    requires i < |PIPELINE|
    ensures Explained(env, events, failed, cancelled, i, x) <==>
      || x in StageLog(env, events, failed, cancelled, PIPELINE[i])
      || Explained(env, events, failed, cancelled || CancelsDuring(env, events, PIPELINE[i]), i + 1, x)
  {
    var role := PIPELINE[i];
    AppendedStep(env, events, i, x);
    LeftOutStep(env, events, failed, cancelled, i);
    assert FirstFailed(env, events, i) <==> Awaited(env, events, role, 2) || FirstFailed(env, events, i + 1);
    StageMembers(env, events, failed, cancelled, i, x);
  }

  lemma StageMembers(env: Env, events: seq<Event>, failed: bool, cancelled: bool, i: nat, x: Reason)
    requires i < |PIPELINE|
    ensures var role := PIPELINE[i];
      x in StageLog(env, events, failed, cancelled, role) <==>
        || (Awaited(env, events, role, 1) && x in env.attempts(role, 1).reasons)
        || (Awaited(env, events, role, 2) && x in env.attempts(role, 2).reasons)
        || (x == CONTRACT_RETRY && Awaited(env, events, role, 2))
        || (x == OPTIONAL_AGENT_SKIPPED && LeftOut(env, events, failed, cancelled, i, i))
  {
    assert CancelledBefore(env, events, cancelled, i, i) <==> cancelled;
  }

  lemma AppendedStep(env: Env, events: seq<Event>, i: nat, x: Reason)
    requires i < |PIPELINE|
    ensures var role := PIPELINE[i];
      AppendedBy(env, events, i, x) <==>
        || (Awaited(env, events, role, 1) && x in env.attempts(role, 1).reasons)
        || (Awaited(env, events, role, 2) && x in env.attempts(role, 2).reasons)
        || AppendedBy(env, events, i + 1, x)
  {
  }

  lemma LeftOutStep(env: Env, events: seq<Event>, failed: bool, cancelled: bool, i: nat)
    requires i < |PIPELINE|
    ensures var later := cancelled || CancelsDuring(env, events, PIPELINE[i]);
      SomeLeftOut(env, events, failed, cancelled, i) <==>
        LeftOut(env, events, failed, cancelled, i, i) || SomeLeftOut(env, events, failed, later, i + 1)
  {
    var later := cancelled || CancelsDuring(env, events, PIPELINE[i]);
    if SomeLeftOut(env, events, failed, cancelled, i) {
      var j :| i <= j < |PIPELINE| && LeftOut(env, events, failed, cancelled, i, j);
      if j > i {
        LeftOutLater(env, events, failed, cancelled, i, j);
      }
    }
    if SomeLeftOut(env, events, failed, later, i + 1) {
      var j :| i < j < |PIPELINE| && LeftOut(env, events, failed, later, i + 1, j);
      LeftOutLater(env, events, failed, cancelled, i, j);
    }
  }

  lemma LeftOutLater(env: Env, events: seq<Event>, failed: bool, cancelled: bool, i: nat, j: nat)
    requires i < j < |PIPELINE|
    ensures LeftOut(env, events, failed, cancelled, i, j) <==>
            LeftOut(env, events, failed, cancelled || CancelsDuring(env, events, PIPELINE[i]), i + 1, j)
  {
    assert CancelledBefore(env, events, cancelled, i, j) <==>
           CancelledBefore(env, events, cancelled || CancelsDuring(env, events, PIPELINE[i]), i + 1, j);
  }

  /** Over every run, a reason is in the final record if and only if it was there at first, an awaited attempt
      appended it, it is CONTRACT_RETRY and an optional agent failed its first attempt, or it is
      OPTIONAL_AGENT_SKIPPED and an optional agent failed both attempts or was reached and not started. */
  lemma ReasonsExactly(budget: Option<int>, env: Env, reasons: seq<Reason>, cancelled: bool, x: Reason)
    requires Distinct(reasons)
    ensures var (outcome, s) := RunFrom(budget, env, 0, State(0, reasons, cancelled, []));
      x in s.reasons <==> x in reasons || Explained(env, s.events, outcome.AgentFailed?, cancelled, 0, x)
  {
    var (outcome, s) := RunFrom(budget, env, 0, State(0, reasons, cancelled, []));
    var log := LogFrom(env, s.events, outcome.AgentFailed?, cancelled, 0);
    RecordOfRun(budget, env, reasons, cancelled);
    AppendOnly(reasons, log);
    LogMembers(env, s.events, outcome.AgentFailed?, cancelled, 0, x);
  }

  // ---------- which agents ----------

  /** The first attempt succeeds, and nothing cancels the run meanwhile. */
  predicate Goes(env: Env, role: Role) {
    Succeeds(role, env.attempts(role, 1)) && !env.attempts(role, 1).cancels
  }

  const REQUIRED: seq<Role> := [PLANNER, RESEARCHER, GENERATOR]

  lemma {:induction false} RequiredFrom(budget: Option<int>, env: Env, i: nat, s: State, k: nat)
    requires i <= k < 3 && NoneStarted(s.events, i)
    ensures var (outcome, s') := RunFrom(budget, env, i, s);
      var reached := !s.cancelled && forall j :: i <= j < k ==> Goes(env, REQUIRED[j]);
      && (Started(s'.events, REQUIRED[k]) <==> reached)
      && (outcome == AgentFailed(REQUIRED[k]) <==> reached && !Succeeds(REQUIRED[k], env.attempts(REQUIRED[k], 1)))
    decreases k - i
  {
    var role := PIPELINE[i];
    Distinguish(i);
    assert PIPELINE[i] == REQUIRED[i] && PIPELINE[k] == REQUIRED[k];
    if !s.cancelled {
      var tried := WithTimeout(role, env.attempts(role, 1), Emit(s, AgentStart(role)));
      LaterNotStarted(s.events, i);
      StartIn(s.events, role);
      if Succeeds(role, env.attempts(role, 1)) {
        var mid := Emit(tried, AgentDone(role));
        if i < k {
          RequiredFrom(budget, env, i + 1, mid, k);
        } else {
          StartsOnlyAhead(budget, env, i + 1, mid, role);
          NotFailedLater(budget, env, i + 1, mid, role);
        }
      }
    }
  }

  lemma {:induction false} NotFailedLater(budget: Option<int>, env: Env, i: nat, s: State, role: Role)
    requires forall j :: i <= j < |PIPELINE| ==> PIPELINE[j] != role
    ensures RunFrom(budget, env, i, s).0 != AgentFailed(role)
    decreases |PIPELINE| - i
  {
    if i < |PIPELINE| && !s.cancelled {
      var r := PIPELINE[i];
      var started := Emit(s, AgentStart(r));
      if IsOptional(r) && ShouldSkipOptional(budget, s) {
        NotFailedLater(budget, env, i + 1, Mark(s, OPTIONAL_AGENT_SKIPPED), role);
      } else if IsOptional(r) {
        NotFailedLater(budget, env, i + 1, Emit(RunWithRetry(r, env, started), AgentDone(r)), role);
      } else {
        NotFailedLater(budget, env, i + 1, Emit(WithTimeout(r, env.attempts(r, 1), started), AgentDone(r)), role);
      }
    }
  }

  /** A required agent starts if and only if the run is not cancelled at first and all agents before it succeed
      without the run being cancelled -- degraded or not --, and its failure ends the run. */
  lemma RequiredStartsIff(budget: Option<int>, env: Env, reasons: seq<Reason>, cancelled: bool, k: nat)
    requires k < 3
    ensures var (outcome, s) := RunFrom(budget, env, 0, State(0, reasons, cancelled, []));
      var reached := !cancelled && forall j :: 0 <= j < k ==> Goes(env, REQUIRED[j]);
      && (Started(s.events, REQUIRED[k]) <==> reached)
      && (outcome == AgentFailed(REQUIRED[k]) <==> reached && !Succeeds(REQUIRED[k], env.attempts(REQUIRED[k], 1)))
  {
    RequiredFrom(budget, env, 0, State(0, reasons, cancelled, []), k);
  }

  /** The time limits: an attempt succeeds if its task does, before its timer fires. */
  lemma SucceedsIff(role: Role, a: Attempt)
    ensures var limit := match role
        case PLANNER => 30_000
        case RESEARCHER => 20_000
        case GENERATOR => 120_000
        case OPTIMIZER => 60_000
        case QA => 60_000;
      Succeeds(role, a) <==>
        a.ok && (a.duration < limit + a.late || (a.duration == limit + a.late && a.beatsTimer))
  {
  }
}
