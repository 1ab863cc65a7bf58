/** The registry of SSE streams: a map of entries, two timers and one subject for each of them, and
    callbacks that find their entry by stream id. */
module Streaming {

  type StreamId = string

  datatype SSEEvent = SSEEvent(kind: string, data: string, jobId: StreamId)

  /** What is written to a response. */
  datatype Output = Event(event: SSEEvent) | Done | End

  /** One call of `register`: the response it was given, the subject it created and the subscription
      of the service to it. Its index names them, and its two timers, from then on. */
  datatype Registration = Registration(
    id: StreamId, openedAt: int, output: seq<Output>, broken: bool, subscribed: bool, stopped: bool)

  /** A busy event loop runs a timer at most `maxLateness` after it is due. */
  datatype Config = Config(heartbeatIntervalMs: int, maxDurationMs: nat, maxLateness: nat)

  /** The map of entries, all registrations so far, the live timers with the time they are due, and the clock. */
  datatype Sys = Sys(
    streams: map<StreamId, nat>, regs: seq<Registration>,
    heartbeats: map<nat, int>, timeouts: map<nat, int>, now: int)

  datatype Reply = Ok | NotFound | ContractViolation

  const EMPTY := Sys(map[], [], map[], map[], 0)

  // ---------- the operations ----------

  function Set(s: Sys, r: nat, reg: Registration): Sys
    requires r < |s.regs|
  {
    s.(regs := s.regs[r := reg])
  }

  /** A write to a broken connection throws, and the exception is swallowed. */
  function Write(s: Sys, r: nat, o: Output): Sys
    requires r < |s.regs|
  {
    if s.regs[r].broken then s else Set(s, r, s.regs[r].(output := s.regs[r].output + [o]))
  }

  predicate Wired(s: Sys) {
    forall id :: id in s.streams ==> s.streams[id] < |s.regs|
  }

  function Cleanup(s: Sys, id: StreamId): (s': Sys)
    requires Wired(s)
    ensures Wired(s') && |s'.regs| == |s.regs|
  {
    if id !in s.streams then s
    else
      var r := s.streams[id];
      Set(s, r, s.regs[r].(subscribed := false))
      .(heartbeats := s.heartbeats - {r}, timeouts := s.timeouts - {r}, streams := s.streams - {id})
  }

  function Close(s: Sys, id: StreamId): (s': Sys)
    requires Wired(s)
    ensures Wired(s') && |s'.regs| == |s.regs|
  {
    if id !in s.streams then s
    else
      var r := s.streams[id];
      Cleanup(Write(Write(s, r, Done), r, End), id)
  }

  function ErrorEvent(id: StreamId, message: string): SSEEvent {
    SSEEvent("error", message, id)
  }

  function HeartbeatEvent(id: StreamId): SSEEvent {
    SSEEvent("heartbeat", "{}", id)
  }

  function SubjectNext(s: Sys, r: nat, e: SSEEvent): Sys
    requires r < |s.regs|
  {
    if s.regs[r].stopped || !s.regs[r].subscribed then s else Write(s, r, Event(e))
  }

  /** The subject stops; if the service is still subscribed it reports the error and closes the stream. */
  function SubjectError(s: Sys, r: nat, message: string): (s': Sys)
    requires Wired(s) && r < |s.regs|
    ensures Wired(s') && |s'.regs| == |s.regs|
  {
    var reg := s.regs[r];
    if reg.stopped then s
    else
      var stopped := Set(s, r, reg.(stopped := true));
      if !reg.subscribed then stopped
      else
        var closed := Close(Write(stopped, r, Event(ErrorEvent(reg.id, message))), reg.id);
        Set(closed, r, closed.regs[r].(subscribed := false))
  }

  function SubjectComplete(s: Sys, r: nat): (s': Sys)
    requires Wired(s) && r < |s.regs|
    ensures Wired(s') && |s'.regs| == |s.regs|
  {
    var reg := s.regs[r];
    if reg.stopped then s
    else
      var stopped := Set(s, r, reg.(stopped := true));
      if !reg.subscribed then stopped
      else
        var closed := Close(stopped, reg.id);
        Set(closed, r, closed.regs[r].(subscribed := false))
  }

  function Register(s: Sys, cfg: Config, id: StreamId): Sys {
    var r := |s.regs|;
    Sys(s.streams[id := r], s.regs + [Registration(id, s.now, [], false, true, false)],
        s.heartbeats[r := s.now + cfg.heartbeatIntervalMs], s.timeouts[r := s.now + cfg.maxDurationMs], s.now)
  }

  /** The controller registers a response only if the stream is not active. */
  function Open(s: Sys, cfg: Config, id: StreamId): Sys {
    if id in s.streams then s else Register(s, cfg, id)
  }

  function Emit(s: Sys, id: StreamId, e: SSEEvent, valid: bool): (Sys, Reply)
    requires Wired(s)
  {
    if id !in s.streams then (s, Ok)
    else if !valid then (s, ContractViolation)
    else (SubjectNext(s, s.streams[id], e), Ok)
  }

  function Cancel(s: Sys, id: StreamId): (Sys, Reply)
    requires Wired(s)
  {
    if id !in s.streams then (s, NotFound)
    else (SubjectError(s, s.streams[id], "Stream cancelled by client"), Ok)
  }

  predicate Due(timers: map<nat, int>, r: nat, now: int) {
    r in timers && timers[r] <= now
  }

  function HeartbeatFires(s: Sys, cfg: Config, r: nat): Sys
    requires r < |s.regs|
  {
    if !Due(s.heartbeats, r, s.now) then s
    else
      Write(s.(heartbeats := s.heartbeats[r := s.now + cfg.heartbeatIntervalMs]), r,
            Event(HeartbeatEvent(s.regs[r].id)))
  }

  function TimeoutFires(s: Sys, r: nat): Sys
    requires Wired(s) && r < |s.regs|
  {
    if !Due(s.timeouts, r, s.now) then s
    else SubjectError(s.(timeouts := s.timeouts - {r}), r, "Stream timeout")
  }

  /** The `close` event of a response: its connection is gone, and the entry of its stream id is removed. */
  function Disconnect(s: Sys, r: nat): Sys
    requires Wired(s) && r < |s.regs|
  {
    Cleanup(Set(s, r, s.regs[r].(broken := true)), s.regs[r].id)
  }

  /** Time passes, but no timer is left waiting longer than the maximum lateness. */
  function Tick(s: Sys, cfg: Config, now: int): Sys {
    if now >= s.now && (forall r :: r in s.heartbeats ==> now <= s.heartbeats[r] + cfg.maxLateness)
       && (forall r :: r in s.timeouts ==> now <= s.timeouts[r] + cfg.maxLateness)
    then s.(now := now) else s
  }

  // ---------- the service ----------

  class StreamingService {
    const cfg: Config
    var streams: map<StreamId, nat>
    var regs: seq<Registration>
    var heartbeats: map<nat, int>
    var timeouts: map<nat, int>
    var now: int

    ghost function View(): Sys
      reads this
    {
      Sys(streams, regs, heartbeats, timeouts, now)
    }

    constructor (cfg: Config)
      ensures View() == EMPTY && this.cfg == cfg
    {
      this.cfg := cfg;
      streams, regs, heartbeats, timeouts, now := map[], [], map[], map[], 0;
    }

    predicate IsActive(id: StreamId)
      reads this
    {
      id in streams
    }

    method RegisterStream(id: StreamId) returns (r: nat)
      modifies this
      ensures View() == Register(old(View()), cfg, id) && r == old(|regs|)
    {
      r := |regs|;
      regs := regs + [Registration(id, now, [], false, true, false)];
      heartbeats := heartbeats[r := now + cfg.heartbeatIntervalMs];
      timeouts := timeouts[r := now + cfg.maxDurationMs];
      streams := streams[id := r];
    }

    method OpenStream(id: StreamId)
      modifies this
      ensures View() == Open(old(View()), cfg, id)
    {
      if !IsActive(id) {
        var _ := RegisterStream(id);
      }
    }

    method WriteTo(r: nat, o: Output) returns (thrown: bool)
      requires r < |regs|
      modifies this`regs
      ensures View() == Write(old(View()), r, o) && thrown == old(regs[r].broken)
    {
      thrown := regs[r].broken;
      if !thrown {
        regs := regs[r := regs[r].(output := regs[r].output + [o])];
      }
    }

    method CleanupStream(id: StreamId)
      requires Wired(View())
      modifies this
      ensures View() == Cleanup(old(View()), id)
    {
      if id !in streams {
        return;
      }
      var r := streams[id];
      heartbeats := heartbeats - {r};
      timeouts := timeouts - {r};
      regs := regs[r := regs[r].(subscribed := false)];
      streams := streams - {id};
    }

    method CloseStream(id: StreamId)
      requires Wired(View())
      modifies this
      ensures View() == Close(old(View()), id)
    {
      if id !in streams {
        return;
      }
      var r := streams[id];
      var thrown := WriteTo(r, Done);
      if !thrown {
        thrown := WriteTo(r, End);
      }
      CleanupStream(id);
    }

    method FailSubject(r: nat, message: string)
      requires Wired(View()) && r < |regs|
      modifies this
      ensures View() == SubjectError(old(View()), r, message)
    {
      var reg := regs[r];
      if reg.stopped {
        return;
      }
      regs := regs[r := reg.(stopped := true)];
      if reg.subscribed {
        var _ := WriteTo(r, Event(ErrorEvent(reg.id, message)));
        CloseStream(reg.id);
        regs := regs[r := regs[r].(subscribed := false)];
      }
    }

    method EmitTo(id: StreamId, e: SSEEvent, valid: bool) returns (reply: Reply)
      requires Wired(View())
      modifies this
      ensures (View(), reply) == Emit(old(View()), id, e, valid)
    {
      if id !in streams {
        return Ok;
      }
      if !valid {
        return ContractViolation;
      }
      var r := streams[id];
      if !regs[r].stopped && regs[r].subscribed {
        var _ := WriteTo(r, Event(e));
      }
      return Ok;
    }

    method CancelStream(id: StreamId) returns (reply: Reply)
      requires Wired(View())
      modifies this
      ensures (View(), reply) == Cancel(old(View()), id)
    {
      if id !in streams {
        return NotFound;
      }
      FailSubject(streams[id], "Stream cancelled by client");
      return Ok;
    }

    method OnHeartbeat(r: nat)
      requires r < |regs|
      modifies this
      ensures View() == HeartbeatFires(old(View()), cfg, r)
    {
      if Due(heartbeats, r, now) {
        heartbeats := heartbeats[r := now + cfg.heartbeatIntervalMs];
        var _ := WriteTo(r, Event(HeartbeatEvent(regs[r].id)));
      }
    }

    method OnTimeout(r: nat)
      requires Wired(View()) && r < |regs|
      modifies this
      ensures View() == TimeoutFires(old(View()), r)
    {
      if Due(timeouts, r, now) {
        timeouts := timeouts - {r};
        FailSubject(r, "Stream timeout");
      }
    }

    method OnClientClose(r: nat)
      requires Wired(View()) && r < |regs|
      modifies this
      ensures View() == Disconnect(old(View()), r)
    {
      regs := regs[r := regs[r].(broken := true)];
      CleanupStream(regs[r].id);
    }
  }

  // ---------- runs ----------

  datatype Step =
    | DoOpen(id: StreamId)
    | DoEmit(id: StreamId, event: SSEEvent, valid: bool)
    | DoCancel(id: StreamId)
    | DoClose(id: StreamId)
    | DoHeartbeat(r: nat)
    | DoTimeout(r: nat)
    | DoDisconnect(r: nat)
    | DoBreak(r: nat)
    | DoNext(r: nat, event: SSEEvent)
    | DoError(r: nat, message: string)
    | DoComplete(r: nat)
    | DoTick(now: int)

  /** One step of the service or its surroundings. Callbacks of registrations that do not exist are not run. */
  function Next(s: Sys, cfg: Config, step: Step): (s': Sys)
    requires Wired(s)
    ensures Wired(s')
  {
    match step
    case DoOpen(id) => Open(s, cfg, id)
    case DoEmit(id, e, valid) => Emit(s, id, e, valid).0
    case DoCancel(id) => Cancel(s, id).0
    case DoClose(id) => Close(s, id)
    case DoHeartbeat(r) => if r < |s.regs| then HeartbeatFires(s, cfg, r) else s
    case DoTimeout(r) => if r < |s.regs| then TimeoutFires(s, r) else s
    case DoDisconnect(r) => if r < |s.regs| then Disconnect(s, r) else s
    case DoBreak(r) => if r < |s.regs| then Set(s, r, s.regs[r].(broken := true)) else s
    case DoNext(r, e) => if r < |s.regs| then SubjectNext(s, r, e) else s
    case DoError(r, m) => if r < |s.regs| then SubjectError(s, r, m) else s
    case DoComplete(r) => if r < |s.regs| then SubjectComplete(s, r) else s
    case DoTick(now) => Tick(s, cfg, now)
  }

  // ---------- the invariant ----------

  /** The entry of registration `r` is in the map. */
  predicate Live(s: Sys, r: nat) {
    r < |s.regs| && s.regs[r].id in s.streams && s.streams[s.regs[r].id] == r
  }

  /** `Done` and `End` are written once, together, and last. */
  predicate ProperOutput(o: seq<Output>) {
    forall k :: 0 <= k < |o| ==>
      && (o[k] == Done ==> k == |o| - 2 && o[|o| - 1] == End)
      && (o[k] == End ==> k == |o| - 1 && k > 0 && o[k - 1] == Done)
  }

  predicate Unfinished(o: seq<Output>) {
    forall k :: 0 <= k < |o| ==> o[k].Event?
  }

  ghost predicate RegInv(s: Sys, cfg: Config, r: nat)
    requires r < |s.regs|
  {
    var reg := s.regs[r];
    && (reg.subscribed <==> Live(s, r))
    && (reg.stopped ==> !Live(s, r))
    && ProperOutput(reg.output)
    && (Live(s, r) ==> Unfinished(reg.output))
    && (Live(s, r) ==>
          r in s.timeouts && s.timeouts[r] == reg.openedAt + cfg.maxDurationMs && s.now <= s.timeouts[r] + cfg.maxLateness)
  }

  /** Entries and registrations agree; the live timers are exactly those of the entries; only the
      responses of entries are still open; and no entry outlives its timeout by more than the lateness. */
  ghost predicate Inv(s: Sys, cfg: Config) {
    && Wired(s)
    && (forall id :: id in s.streams ==> s.regs[s.streams[id]].id == id)
    && (forall r :: r in s.heartbeats <==> Live(s, r))
    && (forall r :: r in s.timeouts <==> Live(s, r))
    && (forall r :: 0 <= r < |s.regs| ==> RegInv(s, cfg, r))
  }

  /** Removing an entry, after whatever was last written to its response. */
  lemma RemoveKeepsInv(s: Sys, cfg: Config, id: StreamId, s': Sys)
    requires Inv(s, cfg) && id in s.streams
    requires var r := s.streams[id];
      && s'.streams == s.streams - {id} && s'.heartbeats == s.heartbeats - {r} && s'.timeouts == s.timeouts - {r}
      && s'.now == s.now && |s'.regs| == |s.regs|
      && (forall q :: 0 <= q < |s.regs| && q != r ==> s'.regs[q] == s.regs[q])
      && s'.regs[r].id == id && !s'.regs[r].subscribed && ProperOutput(s'.regs[r].output)
    ensures Inv(s', cfg)
  {
    var r := s.streams[id];
    forall q ensures Live(s', q) <==> Live(s, q) && q != r {
    }
    forall q | 0 <= q < |s'.regs| ensures RegInv(s', cfg, q) {
      assert RegInv(s, cfg, q);
    }
  }

  /** Changing what is known of one registration without touching its entry. */
  lemma UpdateKeepsInv(s: Sys, cfg: Config, r: nat, reg: Registration)
    requires Inv(s, cfg) && r < |s.regs|
    requires reg.id == s.regs[r].id && reg.openedAt == s.regs[r].openedAt && reg.subscribed == s.regs[r].subscribed
    requires reg.stopped ==> !Live(s, r)
    requires if Live(s, r) then Unfinished(reg.output) else reg.output == s.regs[r].output
    ensures Inv(Set(s, r, reg), cfg)
  {
    var s' := Set(s, r, reg);
    forall q ensures Live(s', q) <==> Live(s, q) {
    }
    assert RegInv(s, cfg, r);
    forall q | 0 <= q < |s'.regs| ensures RegInv(s', cfg, q) {
      assert RegInv(s, cfg, q);
    }
  }

  lemma WriteKeepsInv(s: Sys, cfg: Config, r: nat, e: SSEEvent)
    requires Inv(s, cfg) && Live(s, r)
    ensures Inv(Write(s, r, Event(e)), cfg)
  {
    assert RegInv(s, cfg, r);
    if !s.regs[r].broken {
      UpdateKeepsInv(s, cfg, r, s.regs[r].(output := s.regs[r].output + [Event(e)]));
    }
  }

  function Farewell(broken: bool): seq<Output> {
    if broken then [] else [Done, End]
  }

  lemma CloseShape(s: Sys, cfg: Config, id: StreamId)
    requires Inv(s, cfg) && id in s.streams
    ensures var r := s.streams[id];
      var reg := s.regs[r];
      Close(s, id) == Cleanup(Set(s, r, reg.(output := reg.output + Farewell(reg.broken))), id)
      && ProperOutput(reg.output + Farewell(reg.broken))
  {
    var r := s.streams[id];
    assert RegInv(s, cfg, r);
    var o := s.regs[r].output;
    assert o + [Done] + [End] == o + [Done, End];
    assert o + [] == o && s.regs[r := s.regs[r]] == s.regs;
  }

  lemma CloseKeepsInv(s: Sys, cfg: Config, id: StreamId)
    requires Inv(s, cfg)
    ensures Inv(Close(s, id), cfg)
  {
    if id in s.streams {
      CloseShape(s, cfg, id);
      RemoveKeepsInv(s, cfg, id, Close(s, id));
    }
  }

  /** An error on a live subject: the error event, `Done` and `End`, as far as the connection takes them. */
  lemma ErrorShape(s: Sys, r: nat, message: string)
    requires Wired(s) && Live(s, r)
    requires s.regs[r].subscribed && !s.regs[r].stopped && Unfinished(s.regs[r].output)
    ensures var reg := s.regs[r];
      var last := if reg.broken then [] else [Event(ErrorEvent(reg.id, message)), Done, End];
      SubjectError(s, r, message)
        == Set(s, r, reg.(stopped := true, subscribed := false, output := reg.output + last))
           .(heartbeats := s.heartbeats - {r}, timeouts := s.timeouts - {r}, streams := s.streams - {reg.id})
      && ProperOutput(reg.output + last)
  {
    var o, e := s.regs[r].output, Event(ErrorEvent(s.regs[r].id, message));
    assert o + [e] + [Done] + [End] == o + [e, Done, End];
    assert o + [] == o;
  }

  lemma ErrorKeepsInv(s: Sys, cfg: Config, r: nat, message: string)
    requires Inv(s, cfg) && r < |s.regs|
    ensures Inv(SubjectError(s, r, message), cfg)
  {
    assert RegInv(s, cfg, r);
    if Live(s, r) {
      ErrorShape(s, r, message);
      RemoveKeepsInv(s, cfg, s.regs[r].id, SubjectError(s, r, message));
    } else if !s.regs[r].stopped {
      UpdateKeepsInv(s, cfg, r, s.regs[r].(stopped := true));
    }
  }

  lemma CompleteKeepsInv(s: Sys, cfg: Config, r: nat)
    requires Inv(s, cfg) && r < |s.regs|
    ensures Inv(SubjectComplete(s, r), cfg)
  {
    assert RegInv(s, cfg, r);
    if Live(s, r) {
      var o := s.regs[r].output;
      assert o + [Done] + [End] == o + [Done, End];
      RemoveKeepsInv(s, cfg, s.regs[r].id, SubjectComplete(s, r));
    } else if !s.regs[r].stopped {
      UpdateKeepsInv(s, cfg, r, s.regs[r].(stopped := true));
    }
  }

  lemma TimeoutKeepsInv(s: Sys, cfg: Config, r: nat)
    requires Inv(s, cfg) && r < |s.regs| && Due(s.timeouts, r, s.now)
    ensures Inv(TimeoutFires(s, r), cfg)
    ensures TimeoutFires(s, r) == SubjectError(s, r, "Stream timeout")
  {
    assert RegInv(s, cfg, r);
    ErrorKeepsInv(s, cfg, r, "Stream timeout");
    FiredTimer(s, r);
  }

  /** It makes no difference that a timer that has fired is no longer live. */
  lemma FiredTimer(s: Sys, r: nat)
    requires Wired(s) && Live(s, r)
    requires s.regs[r].subscribed && !s.regs[r].stopped && Unfinished(s.regs[r].output)
    ensures SubjectError(s.(timeouts := s.timeouts - {r}), r, "Stream timeout") == SubjectError(s, r, "Stream timeout")
  {
    var fired := s.(timeouts := s.timeouts - {r});
    ErrorShape(s, r, "Stream timeout");
    ErrorShape(fired, r, "Stream timeout");
    assert fired.timeouts - {r} == s.timeouts - {r};
  }

  lemma EmitKeepsInv(s: Sys, cfg: Config, id: StreamId, e: SSEEvent, valid: bool)
    requires Inv(s, cfg)
    ensures Inv(Emit(s, id, e, valid).0, cfg)
  {
    if id in s.streams && valid {
      assert RegInv(s, cfg, s.streams[id]);
      WriteKeepsInv(s, cfg, s.streams[id], e);
    }
  }

  lemma HeartbeatIsWrite(s: Sys, cfg: Config, r: nat)
    requires r < |s.regs|
    ensures HeartbeatFires(s, cfg, r) ==
      if !Due(s.heartbeats, r, s.now) then s
      else Write(s.(heartbeats := s.heartbeats[r := s.now + cfg.heartbeatIntervalMs]), r,
                 Event(HeartbeatEvent(s.regs[r].id)))
  {
  }

  lemma HeartbeatKeepsInv(s: Sys, cfg: Config, r: nat)
    requires Inv(s, cfg) && r < |s.regs|
    ensures Inv(HeartbeatFires(s, cfg, r), cfg)
  {
    var s' := HeartbeatFires(s, cfg, r);
    HeartbeatIsWrite(s, cfg, r);
    if Due(s.heartbeats, r, s.now) {
      BeatKeepsInv(s, cfg, r, s.now + cfg.heartbeatIntervalMs, s');
      assert Inv(s', cfg);
    } else {
      assert s' == s;
    }
  }

  lemma BeatKeepsInv(s: Sys, cfg: Config, r: nat, due: int, s': Sys)
    requires Inv(s, cfg) && r in s.heartbeats && r < |s.regs|
    requires s' == Write(s.(heartbeats := s.heartbeats[r := due]), r, Event(HeartbeatEvent(s.regs[r].id)))
    ensures Inv(s', cfg)
  {
    RescheduleKeepsInv(s, cfg, r, due);
    WriteKeepsInv(s.(heartbeats := s.heartbeats[r := due]), cfg, r, HeartbeatEvent(s.regs[r].id));
  }

  lemma RescheduleKeepsInv(s: Sys, cfg: Config, r: nat, due: int)
    requires Inv(s, cfg) && r in s.heartbeats
    ensures Inv(s.(heartbeats := s.heartbeats[r := due]), cfg)
  {
    var s' := s.(heartbeats := s.heartbeats[r := due]);
    forall q ensures Live(s', q) <==> Live(s, q) {
    }
    forall q | 0 <= q < |s'.regs| ensures RegInv(s', cfg, q) {
      assert RegInv(s, cfg, q);
    }
  }

  lemma BreakKeepsInv(s: Sys, cfg: Config, r: nat)
    requires Inv(s, cfg) && r < |s.regs|
    ensures Inv(Set(s, r, s.regs[r].(broken := true)), cfg)
  {
    assert RegInv(s, cfg, r);
    UpdateKeepsInv(s, cfg, r, s.regs[r].(broken := true));
  }

  lemma NextKeepsInv(s: Sys, cfg: Config, r: nat, e: SSEEvent)
    requires Inv(s, cfg) && r < |s.regs|
    ensures Inv(SubjectNext(s, r, e), cfg)
  {
    assert RegInv(s, cfg, r);
    if s.regs[r].subscribed {
      WriteKeepsInv(s, cfg, r, e);
    }
  }

  lemma OpenKeepsInv(s: Sys, cfg: Config, id: StreamId)
    requires Inv(s, cfg)
    ensures Inv(Open(s, cfg, id), cfg)
  {
    if id !in s.streams {
      var r, s' := |s.regs|, Open(s, cfg, id);
      assert forall q :: 0 <= q < r ==> s'.regs[q] == s.regs[q];
      forall q ensures Live(s', q) <==> Live(s, q) || q == r {
      }
      forall q | 0 <= q < |s'.regs| ensures RegInv(s', cfg, q) {
        if q < r {
          assert RegInv(s, cfg, q);
        }
      }
    }
  }

  lemma TickKeepsInv(s: Sys, cfg: Config, now: int)
    requires Inv(s, cfg)
    ensures Inv(Tick(s, cfg, now), cfg)
  {
    var s' := Tick(s, cfg, now);
    forall q ensures Live(s', q) <==> Live(s, q) {
    }
    forall q | 0 <= q < |s'.regs| ensures RegInv(s', cfg, q) {
      assert RegInv(s, cfg, q);
    }
  }

  lemma DisconnectKeepsInv(s: Sys, cfg: Config, r: nat)
    requires Inv(s, cfg) && r < |s.regs|
    ensures Inv(Disconnect(s, r), cfg)
  {
    var broken := Set(s, r, s.regs[r].(broken := true));
    assert RegInv(s, cfg, r);
    UpdateKeepsInv(s, cfg, r, s.regs[r].(broken := true));
    if s.regs[r].id in s.streams {
      assert RegInv(broken, cfg, broken.streams[s.regs[r].id]);
      RemoveKeepsInv(broken, cfg, s.regs[r].id, Disconnect(s, r));
    }
  }

  lemma StepKeepsInv(s: Sys, cfg: Config, step: Step)
    requires Inv(s, cfg)
    ensures Inv(Next(s, cfg, step), cfg)
  {
    match step
    case DoOpen(id) => OpenKeepsInv(s, cfg, id);
    case DoEmit(id, e, valid) => EmitKeepsInv(s, cfg, id, e, valid);
    case DoCancel(id) => if id in s.streams { ErrorKeepsInv(s, cfg, s.streams[id], "Stream cancelled by client"); }
    case DoClose(id) => CloseKeepsInv(s, cfg, id);
    case DoHeartbeat(r) => if r < |s.regs| { HeartbeatKeepsInv(s, cfg, r); }
    case DoTimeout(r) => if r < |s.regs| && Due(s.timeouts, r, s.now) { TimeoutKeepsInv(s, cfg, r); }
    case DoDisconnect(r) => if r < |s.regs| { DisconnectKeepsInv(s, cfg, r); }
    case DoBreak(r) => if r < |s.regs| { BreakKeepsInv(s, cfg, r); }
    case DoNext(r, e) => if r < |s.regs| { NextKeepsInv(s, cfg, r, e); }
    case DoError(r, m) => if r < |s.regs| { ErrorKeepsInv(s, cfg, r, m); }
    case DoComplete(r) => if r < |s.regs| { CompleteKeepsInv(s, cfg, r); }
    case DoTick(now) => TickKeepsInv(s, cfg, now);
  }

  // ---------- whole runs ----------

  function RunAll(s: Sys, cfg: Config, steps: seq<Step>): (s': Sys)
    requires Wired(s)
    ensures Wired(s')
    decreases |steps|
  {
    if steps == [] then s else RunAll(Next(s, cfg, steps[0]), cfg, steps[1..])
  }

  lemma {:induction false} RunKeepsInv(s: Sys, cfg: Config, steps: seq<Step>)
    requires Inv(s, cfg)
    ensures Inv(RunAll(s, cfg, steps), cfg)
    decreases |steps|
  {
    if steps != [] {
      StepKeepsInv(s, cfg, steps[0]);
      RunKeepsInv(Next(s, cfg, steps[0]), cfg, steps[1..]);
    }
  }

  /** After any run: the live timers are exactly those of the entries, every entry is at most
      `maxDurationMs` old plus the lateness of timers, `Done` and `End` are at most the last two things written to a response,
      and a response that got them has no entry. */
  lemma StreamSafety(cfg: Config, steps: seq<Step>)
    ensures var s := RunAll(EMPTY, cfg, steps);
      && s.heartbeats.Keys == s.timeouts.Keys == (set id | id in s.streams :: s.streams[id])
      && (forall id :: id in s.streams ==> s.now - s.regs[s.streams[id]].openedAt <= cfg.maxDurationMs + cfg.maxLateness)
      && (forall r :: 0 <= r < |s.regs| ==> ProperOutput(s.regs[r].output))
      && (forall id :: id in s.streams ==> Unfinished(s.regs[s.streams[id]].output))
  {
    var s := RunAll(EMPTY, cfg, steps);
    RunKeepsInv(EMPTY, cfg, steps);
    var entries := set id | id in s.streams :: s.streams[id];
    forall id | id in s.streams ensures Live(s, s.streams[id]) && RegInv(s, cfg, s.streams[id]) {
    }
    forall r: nat ensures Live(s, r) <==> r in entries {
      if Live(s, r) {
        assert s.regs[r].id in s.streams;
      }
    }
    forall r | 0 <= r < |s.regs| ensures ProperOutput(s.regs[r].output) {
      assert RegInv(s, cfg, r);
    }
  }

  // ---------- a response without an entry ----------

  predicate SameFor(s: Sys, s': Sys, r: nat)
    requires r < |s.regs|
  {
    r < |s'.regs| && !Live(s', r) && s'.regs[r].output == s.regs[r].output && s'.regs[r].id == s.regs[r].id
  }

  lemma ErrorFreezes(s: Sys, cfg: Config, q: nat, message: string, r: nat)
    requires Inv(s, cfg) && q < |s.regs| && r < |s.regs| && !Live(s, r)
    ensures SameFor(s, SubjectError(s, q, message), r)
  {
    assert RegInv(s, cfg, q);
    if Live(s, q) {
      ErrorShape(s, q, message);
    }
  }

  lemma CompleteFreezes(s: Sys, cfg: Config, q: nat, r: nat)
    requires Inv(s, cfg) && q < |s.regs| && r < |s.regs| && !Live(s, r)
    ensures SameFor(s, SubjectComplete(s, q), r)
  {
    assert RegInv(s, cfg, q);
  }

  lemma TimeoutFreezes(s: Sys, cfg: Config, q: nat, r: nat)
    requires Inv(s, cfg) && q < |s.regs| && r < |s.regs| && !Live(s, r)
    ensures SameFor(s, TimeoutFires(s, q), r)
  {
    if Due(s.timeouts, q, s.now) {
      TimeoutKeepsInv(s, cfg, q);
      ErrorFreezes(s, cfg, q, "Stream timeout", r);
    }
  }

  lemma WriteFreezes(s: Sys, q: nat, o: Output, r: nat)
    requires q < |s.regs| && r < |s.regs| && !Live(s, r) && q != r
    ensures SameFor(s, Write(s, q, o), r)
  {
  }

  lemma EmitFreezes(s: Sys, cfg: Config, q: nat, e: SSEEvent, r: nat)
    requires Inv(s, cfg) && q < |s.regs| && r < |s.regs| && !Live(s, r)
    ensures SameFor(s, SubjectNext(s, q, e), r)
  {
    assert RegInv(s, cfg, q);
    if q != r {
      WriteFreezes(s, q, Event(e), r);
    }
  }

  lemma HeartbeatFreezes(s: Sys, cfg: Config, q: nat, r: nat)
    requires Inv(s, cfg) && q < |s.regs| && r < |s.regs| && !Live(s, r)
    ensures SameFor(s, HeartbeatFires(s, cfg, q), r)
  {
    if Due(s.heartbeats, q, s.now) {
      var due := s.now + cfg.heartbeatIntervalMs;
      WriteFreezes(s.(heartbeats := s.heartbeats[q := due]), q, Event(HeartbeatEvent(s.regs[q].id)), r);
    }
  }

  lemma CloseFreezes(s: Sys, cfg: Config, id: StreamId, r: nat)
    requires Inv(s, cfg) && r < |s.regs| && !Live(s, r)
    ensures SameFor(s, Close(s, id), r)
  {
    if id in s.streams {
      CloseShape(s, cfg, id);
    }
  }

  lemma OpenFreezes(s: Sys, cfg: Config, id: StreamId, r: nat)
    requires Inv(s, cfg) && r < |s.regs| && !Live(s, r)
    ensures SameFor(s, Open(s, cfg, id), r)
  {
  }

  lemma DisconnectFreezes(s: Sys, cfg: Config, q: nat, r: nat)
    requires Inv(s, cfg) && q < |s.regs| && r < |s.regs| && !Live(s, r)
    ensures SameFor(s, Disconnect(s, q), r)
  {
  }

  lemma StepFreezes(s: Sys, cfg: Config, step: Step, r: nat)
    requires Inv(s, cfg) && r < |s.regs| && !Live(s, r)
    ensures SameFor(s, Next(s, cfg, step), r)
  {
    match step
    case DoOpen(id) => OpenFreezes(s, cfg, id, r);
    case DoEmit(id, e, valid) => if id in s.streams { EmitFreezes(s, cfg, s.streams[id], e, r); }
    case DoCancel(id) => if id in s.streams { ErrorFreezes(s, cfg, s.streams[id], "Stream cancelled by client", r); }
    case DoClose(id) => CloseFreezes(s, cfg, id, r);
    case DoHeartbeat(q) => if q < |s.regs| { HeartbeatFreezes(s, cfg, q, r); }
    case DoTimeout(q) => if q < |s.regs| { TimeoutFreezes(s, cfg, q, r); }
    case DoDisconnect(q) => if q < |s.regs| { DisconnectFreezes(s, cfg, q, r); }
    case DoBreak(q) =>
    case DoNext(q, e) => if q < |s.regs| { EmitFreezes(s, cfg, q, e, r); }
    case DoError(q, m) => if q < |s.regs| { ErrorFreezes(s, cfg, q, m, r); }
    case DoComplete(q) => if q < |s.regs| { CompleteFreezes(s, cfg, q, r); }
    case DoTick(now) =>
  }

  /** Once a response has lost its entry, nothing is ever written to it again and it never gets one back,
      whatever happens: in particular nothing follows `End`. */
  lemma {:induction false} DetachedIsFrozen(s: Sys, cfg: Config, steps: seq<Step>, r: nat)
    requires Inv(s, cfg) && r < |s.regs| && !Live(s, r)
    ensures SameFor(s, RunAll(s, cfg, steps), r)
    decreases |steps|
  {
    if steps != [] {
      StepKeepsInv(s, cfg, steps[0]);
      StepFreezes(s, cfg, steps[0], r);
      DetachedIsFrozen(Next(s, cfg, steps[0]), cfg, steps[1..], r);
    }
  }

  // ---------- ends of streams ----------

  /** Closing says goodbye on a connection that still works, cancelling and timing out report first. */
  lemma Endings(s: Sys, cfg: Config, r: nat)
    requires Inv(s, cfg) && Live(s, r) && !s.regs[r].broken
    ensures var reg := s.regs[r];
      && Close(s, reg.id).regs[r].output == reg.output + [Done, End]
      && Cancel(s, reg.id).0.regs[r].output
         == reg.output + [Event(SSEEvent("error", "Stream cancelled by client", reg.id)), Done, End]
      && (s.timeouts[r] <= s.now ==>
            TimeoutFires(s, r).regs[r].output == reg.output + [Event(SSEEvent("error", "Stream timeout", reg.id)), Done, End])
      && SubjectComplete(s, r).regs[r].output == reg.output + [Done, End]
      && !Live(Close(s, reg.id), r) && !Live(Cancel(s, reg.id).0, r) && !Live(SubjectComplete(s, r), r)
  {
    assert RegInv(s, cfg, r);
    assert s.regs[r].output + [Done] + [End] == s.regs[r].output + [Done, End];
    CloseShape(s, cfg, s.regs[r].id);
    ErrorShape(s, r, "Stream cancelled by client");
    if s.timeouts[r] <= s.now {
      TimeoutKeepsInv(s, cfg, r);
      ErrorShape(s, r, "Stream timeout");
    }
  }

  // ---------- what one operation does ----------

  /** The same system, but for what has been written to one response. */
  ghost predicate OnlyWrote(s: Sys, s': Sys, r: nat, more: seq<Output>)
    requires r < |s.regs|
  {
    s' == s.(regs := s.regs[r := s.regs[r].(output := s.regs[r].output + more)])
  }

  /** A valid event is written to the response of its stream if that is still connected; an invalid one is
      rejected, one for an unknown stream dropped, and neither changes anything. */
  lemma EmitWrites(s: Sys, cfg: Config, id: StreamId, e: SSEEvent, valid: bool)
    requires Inv(s, cfg)
    ensures var (s', reply) := Emit(s, id, e, valid);
      if id !in s.streams then s' == s && reply == Ok
      else if !valid then s' == s && reply == ContractViolation
      else
        var r := s.streams[id];
        reply == Ok && if s.regs[r].broken then s' == s else OnlyWrote(s, s', r, [Event(e)])
  {
    if id in s.streams {
      assert RegInv(s, cfg, s.streams[id]);
    }
  }

  /** A heartbeat that is due is written, and the next one is due an interval later; nothing else changes. */
  lemma HeartbeatWrites(s: Sys, cfg: Config, r: nat)
    requires Inv(s, cfg) && Live(s, r)
    ensures var s' := HeartbeatFires(s, cfg, r);
      if s.now < s.heartbeats[r] then s' == s
      else
        var next := s.(heartbeats := s.heartbeats[r := s.now + cfg.heartbeatIntervalMs]);
        if s.regs[r].broken then s' == next
        else OnlyWrote(next, s', r, [Event(SSEEvent("heartbeat", "{}", s.regs[r].id))])
  {
  }

  /** Opening an unknown stream adds an entry with an empty, working response, a first heartbeat due after an
      interval and a timeout due after the maximum duration; opening an active one changes nothing. */
  lemma OpenAdds(s: Sys, cfg: Config, id: StreamId)
    requires Inv(s, cfg)
    ensures var s', r := Open(s, cfg, id), |s.regs|;
      if id in s.streams then s' == s
      else
        && Live(s', r) && s'.streams == s.streams[id := r] && s'.regs[..r] == s.regs && |s'.regs| == r + 1
        && s'.regs[r].id == id && s'.regs[r].output == [] && !s'.regs[r].broken && s'.regs[r].openedAt == s.now
        && s'.heartbeats == s.heartbeats[r := s.now + cfg.heartbeatIntervalMs]
        && s'.timeouts == s.timeouts[r := s.now + cfg.maxDurationMs] && s'.now == s.now
  {
  }

  /** Cancelling an unknown stream is reported and changes nothing; any other one loses its entry and is
      acknowledged. */
  lemma CancelReplies(s: Sys, cfg: Config, id: StreamId)
    requires Inv(s, cfg)
    ensures var (s', reply) := Cancel(s, id);
      if id !in s.streams then s' == s && reply == NotFound
      else reply == Ok && s'.streams == s.streams - {id} && s'.now == s.now
  {
    if id in s.streams {
      assert RegInv(s, cfg, s.streams[id]);
      ErrorShape(s, s.streams[id], "Stream cancelled by client");
    }
  }

  /** The close event of a response that still has its entry removes exactly that entry with its timers, and
      writes nothing. */
  lemma DisconnectRemoves(s: Sys, cfg: Config, r: nat)
    requires Inv(s, cfg) && Live(s, r)
    ensures var s', reg := Disconnect(s, r), s.regs[r];
      && s'.streams == s.streams - {reg.id} && !Live(s', r)
      && s'.heartbeats == s.heartbeats - {r} && s'.timeouts == s.timeouts - {r} && s'.now == s.now
      && s'.regs == s.regs[r := reg.(broken := true, subscribed := false)]
  {
  }

  /** Time passes up to the moment at which a timer would be too late. */
  lemma TimePasses(s: Sys, cfg: Config, now: int)
    requires now >= s.now
    requires forall r :: r in s.heartbeats ==> now - s.heartbeats[r] <= cfg.maxLateness
    requires forall r :: r in s.timeouts ==> now - s.timeouts[r] <= cfg.maxLateness
    ensures Tick(s, cfg, now) == s.(now := now)
  {
  }

  // ---------- the entry of another response ----------

  /** The close event of one response removes the entry of another if and only if its stream id has been
      opened again since; the other response then never gets an end. */
  lemma StaleDisconnectIff(s: Sys, cfg: Config, r: nat, other: nat, more: seq<Step>)
    requires Inv(s, cfg) && r < |s.regs| && Live(s, other) && other != r
    ensures !Live(Disconnect(s, r), other) <==> s.regs[r].id == s.regs[other].id
    ensures s.regs[r].id == s.regs[other].id ==>
      var s' := RunAll(Disconnect(s, r), cfg, more);
      other < |s'.regs| && s'.regs[other].output == s.regs[other].output && Unfinished(s.regs[other].output)
  {
    assert RegInv(s, cfg, other);
    DisconnectKeepsInv(s, cfg, r);
    if s.regs[r].id == s.regs[other].id {
      DetachedIsFrozen(Disconnect(s, r), cfg, more, other);
    }
  }

  /** This happens: whenever a stream is opened, closed and opened again before the first response
      reports that its connection is closed, the second response, still connected, loses its entry. */
  lemma StaleDisconnectHappens(s: Sys, cfg: Config, id: StreamId)
    requires Inv(s, cfg) && id !in s.streams
    ensures var r := |s.regs|;
      var reopened := RunAll(s, cfg, [DoOpen(id), DoClose(id), DoOpen(id)]);
      && r + 1 < |reopened.regs| && Live(reopened, r + 1) && !reopened.regs[r + 1].broken
      && !Live(Disconnect(reopened, r), r + 1)
  {
    var r := |s.regs|;
    var first := Open(s, cfg, id);
    OpenKeepsInv(s, cfg, id);
    var closed := Close(first, id);
    CloseKeepsInv(first, cfg, id);
    CloseShape(first, cfg, id);
    assert |closed.regs| == r + 1 && closed.regs[r].id == id && id !in closed.streams;
    var reopened := Open(closed, cfg, id);
    OpenKeepsInv(closed, cfg, id);
    assert reopened.regs[r].id == id && Live(reopened, r + 1) && !reopened.regs[r + 1].broken;
    ReopenRun(s, cfg, id);
    StaleDisconnectIff(reopened, cfg, r, r + 1, []);
  }

  lemma ReopenRun(s: Sys, cfg: Config, id: StreamId)
    requires Wired(s)
    ensures RunAll(s, cfg, [DoOpen(id), DoClose(id), DoOpen(id)]) == Open(Close(Open(s, cfg, id), id), cfg, id)
  {
    var steps: seq<Step> := [DoOpen(id), DoClose(id), DoOpen(id)];
    var first := Next(s, cfg, DoOpen(id));
    var closed := Next(first, cfg, DoClose(id));
    assert steps[1..] == [DoClose(id), DoOpen(id)] && steps[1..][1..] == [DoOpen(id)] && [steps[2]][1..] == [];
    assert RunAll(closed, cfg, [DoOpen(id)]) == RunAll(Next(closed, cfg, DoOpen(id)), cfg, []);
    assert RunAll(first, cfg, steps[1..]) == RunAll(closed, cfg, [DoOpen(id)]);
  }
}
