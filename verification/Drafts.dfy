/** From the router's stream to the generator's draft. */
module Drafts {
  import opened CircuitBreaker
  import opened Common
  import opened LlmRouter
  import opened RouterSpec
  import opened StreamSpec

  // ---------- the generator ----------

  function Deltas(chunks: seq<Chunk>): string {
    if chunks == [] then "" else Deltas(chunks[..|chunks| - 1]) + chunks[|chunks| - 1].delta
  }

  /** The `token` events: the non-empty deltas. */
  function Tokens(chunks: seq<Chunk>): seq<string> {
    if chunks == [] then []
    else
      var last := chunks[|chunks| - 1].delta;
      Tokens(chunks[..|chunks| - 1]) + if last == "" then [] else [last]
  }

  function Concat(tokens: seq<string>): string {
    if tokens == [] then "" else Concat(tokens[..|tokens| - 1]) + tokens[|tokens| - 1]
  }

  function LastUsage(chunks: seq<Chunk>): nat {
    if chunks == [] then 0
    else
      var last := chunks[|chunks| - 1];
      if last.done && last.usage.Some? then last.usage.value else LastUsage(chunks[..|chunks| - 1])
  }

  /** The chunks seen before the run was cancelled, which happens after `cancelAfter` of them. */
  function Visible(chunks: seq<Chunk>, cancelAfter: nat): (seen: seq<Chunk>)
    ensures seen <= chunks && |seen| == Min(|chunks|, cancelAfter)
  {
    if |chunks| <= cancelAfter then chunks else chunks[..cancelAfter]
  }

  lemma VisibleStep(chunks: seq<Chunk>, i: nat, cancelAfter: nat)
    requires i < |chunks|
    ensures var before, after, c := Visible(chunks[..i], cancelAfter), Visible(chunks[..i + 1], cancelAfter), chunks[i];
      if i < cancelAfter then
        && Deltas(after) == Deltas(before) + c.delta
        && Tokens(after) == Tokens(before) + (if c.delta == "" then [] else [c.delta])
        && LastUsage(after) == if c.done && c.usage.Some? then c.usage.value else LastUsage(before)
      else after == before
  {
    if i < cancelAfter {
      assert chunks[..i + 1][..i] == chunks[..i];
    } else {
      assert chunks[..i + 1][..cancelAfter] == Visible(chunks[..i], cancelAfter);
    }
  }

  /** Chunks, and then one terminal event. */
  ghost predicate Terminated(events: seq<StreamEvent>) {
    && events != [] && !events[|events| - 1].Next?
    && forall k :: 0 <= k < |events| - 1 ==> events[k].Next?
  }

  function ChunksIn(events: seq<StreamEvent>): (chunks: seq<Chunk>)
    requires Terminated(events)
    ensures |chunks| == |events| - 1 && forall k :: 0 <= k < |chunks| ==> events[k] == StreamEvent.Next(chunks[k])
  {
    seq(|events| - 1, k requires 0 <= k < |events| - 1 => events[k].chunk)
  }

  /** What `ctx.draftContent` is set to, if it is: only when the stream completes. */
  function Draft(events: seq<StreamEvent>, cancelAfter: nat): Option<string>
    requires Terminated(events)
  {
    if events[|events| - 1].Completed? then Some(Deltas(Visible(ChunksIn(events), cancelAfter))) else None
  }

  /** The subscription of the generator. */
  method Generate(events: seq<StreamEvent>, cancelAfter: nat) returns (draft: Option<string>, tokens: seq<string>, usage: nat)
    requires Terminated(events)
    ensures var seen := Visible(ChunksIn(events), cancelAfter);
      tokens == Tokens(seen) && usage == LastUsage(seen)
    ensures draft == Draft(events, cancelAfter)
  {
    ghost var chunks := ChunksIn(events);
    var fullContent := "";
    tokens, usage := [], 0;
    for i := 0 to |events| - 1
      invariant fullContent == Deltas(Visible(chunks[..i], cancelAfter))
      invariant tokens == Tokens(Visible(chunks[..i], cancelAfter))
      invariant usage == LastUsage(Visible(chunks[..i], cancelAfter))
    {
      VisibleStep(chunks, i, cancelAfter);
      var isCancelled := i >= cancelAfter;
      if !isCancelled {
        var chunk := events[i].chunk;
        if chunk.delta != "" {
          fullContent := fullContent + chunk.delta;
          tokens := tokens + [chunk.delta];
        }
        if chunk.done && chunk.usage.Some? {
          usage := chunk.usage.value;
        }
      }
    }
    assert chunks[..|events| - 1] == chunks;
    draft := if events[|events| - 1].Completed? then Some(fullContent) else None;
  }

  /** The usage is that of the last final chunk that has one. */
  lemma {:induction false} UsageIsLast(chunks: seq<Chunk>, k: nat)
    requires k < |chunks| && chunks[k].done && chunks[k].usage.Some?
    requires forall j :: k < j < |chunks| ==> !chunks[j].done || chunks[j].usage.None?
    ensures LastUsage(chunks) == chunks[k].usage.value
  {
    if k < |chunks| - 1 {
      UsageIsLast(chunks[..|chunks| - 1], k);
    }
  }

  lemma {:induction false} NoUsage(chunks: seq<Chunk>)
    requires forall j :: 0 <= j < |chunks| ==> !chunks[j].done || chunks[j].usage.None?
    ensures LastUsage(chunks) == 0
  {
    if chunks != [] {
      NoUsage(chunks[..|chunks| - 1]);
    }
  }

  /** Every chunk with text is one `token` event, in order; the others are none. */
  lemma TokensSnoc(chunks: seq<Chunk>, last: Chunk)
    ensures Tokens(chunks + [last]) == Tokens(chunks) + if last.delta == "" then [] else [last.delta]
  {
    assert (chunks + [last])[..|chunks|] == chunks;
  }

  /** The draft is what the `token` events carried, joined. */
  lemma {:induction false} DraftIsTokens(chunks: seq<Chunk>)
    ensures Deltas(chunks) == Concat(Tokens(chunks))
  {
    if chunks != [] {
      var init, last := chunks[..|chunks| - 1], chunks[|chunks| - 1].delta;
      DraftIsTokens(init);
      if last != "" {
        assert (Tokens(init) + [last])[..|Tokens(init)|] == Tokens(init);
      } else {
        assert Tokens(init) + [] == Tokens(init);
      }
    }
  }

  lemma DeltasSnoc(chunks: seq<Chunk>, last: Chunk)
    ensures Deltas(chunks + [last]) == Deltas(chunks) + last.delta
  {
    assert (chunks + [last])[..|chunks|] == chunks;
  }

  lemma {:induction false} DeltasAppend(a: seq<Chunk>, b: seq<Chunk>)
    ensures Deltas(a + b) == Deltas(a) + Deltas(b)
  {
    if b == [] {
      assert a + b == a;
    } else {
      var init, last := b[..|b| - 1], b[|b| - 1];
      DeltasAppend(a, init);
      DeltasSnoc(a + init, last);
      assert a + b == a + init + [last];
      Assoc(Deltas(a), Deltas(init), last.delta);
    }
  }

  // ---------- the draft of a stream ----------

  lemma EventsOf(chunks: seq<Chunk>, last: StreamEvent)
    requires !last.Next?
    ensures var events := AllNext(chunks) + [last]; Terminated(events) && ChunksIn(events) == chunks
  {
    var events := AllNext(chunks) + [last];
    assert forall k :: 0 <= k < |chunks| ==> events[k] == AllNext(chunks)[k];
  }

  /** Every stream, on any chain, delivers chunks and then exactly one terminal event. */
  lemma {:induction false} StreamTerminates(cfg: RouterConfig, env: StreamEnv, chain: seq<Provider>, i: nat, s: StreamProgress)
    requires forall k :: 0 <= k < |s.events| ==> s.events[k].Next?
    ensures Terminated(StreamFrom(cfg, env, chain, i, s).events)
    decreases |chain| - i
  {
    if i < |chain| {
      if !LetsThrough(cfg, env.pause, chain[i], i, s.walk) {
        StreamPassed(cfg, env, chain, i, s);
        StreamTerminates(cfg, env, chain, i + 1, s.(walk := PassedOver(env.pause, chain[i], i, s.walk)));
      } else {
        StreamAdmitted(cfg, env, chain, i, s);
        if !env.completes(i) {
          StreamTerminates(cfg, env, chain, i + 1, StreamFailed(cfg, env, chain[i], i, s));
        }
      }
    }
  }

  /** The chunks a stream delivers. */
  function Delivered(r: Request, env: StreamEnv): seq<Chunk> {
    Sent(r, env, r.Stop(0)) + if r.Stop(0) < |r.chain| then env.chunks(r.Stop(0)) else []
  }

  /** The draft of a stream, whatever fallbacks it needs: the text of all admitted providers up to the one that
      completes, cut where the run was cancelled; and no draft when none completes. */
  lemma DraftOfStream(cfg: RouterConfig, env: StreamEnv, chain: seq<Provider>, breakers: map<Provider, Breaker>, start: int,
                      cancelAfter: nat)
    requires Distinct(chain)
    ensures var r := AsRequest(cfg, env, chain, breakers, start);
      var events := StreamFrom(cfg, env, chain, 0, StreamBegin(breakers, start)).events;
      && Terminated(events) && |events| == |Delivered(r, env)| + 1
      && Draft(events, cancelAfter) ==
           if r.Stop(0) < |chain| then Some(Deltas(Visible(Delivered(r, env), cancelAfter))) else None
  {
    var r := AsRequest(cfg, env, chain, breakers, start);
    StreamMeetsSpec(cfg, env, chain, breakers, start);
    EventsOf(Delivered(r, env), if r.Stop(0) < |chain| then Completed else Exhausted(r.Registered(r.Stop(0))));
    assert Sent(r, env, r.Stop(0)) + [] == Sent(r, env, r.Stop(0));
  }

  lemma {:induction false} NoTextIff(chunks: seq<Chunk>)
    ensures Deltas(chunks) == "" <==> forall c :: c in chunks ==> c.delta == ""
  {
    if chunks != [] {
      var init, last := chunks[..|chunks| - 1], chunks[|chunks| - 1];
      assert chunks == init + [last];
      NoTextIff(init);
    }
  }

  /** None of the admitted providers among the first `n` sent any text. */
  ghost predicate Silent(r: Request, env: StreamEnv, n: nat)
    requires n <= |r.chain|
  {
    forall j, c :: 0 <= j < n && r.Admits(j) && c in env.chunks(j) ==> c.delta == ""
  }

  lemma {:induction false} SilentIff(r: Request, env: StreamEnv, n: nat)
    requires n <= |r.chain|
    ensures Deltas(Sent(r, env, n)) == "" <==> Silent(r, env, n)
  {
    if n > 0 {
      SilentIff(r, env, n - 1);
      NoTextIff(env.chunks(n - 1));
      DeltasAppend(Sent(r, env, n - 1), if r.Admits(n - 1) then env.chunks(n - 1) else []);
      assert Silent(r, env, n) <==>
        Silent(r, env, n - 1) && (r.Admits(n - 1) ==> forall c :: c in env.chunks(n - 1) ==> c.delta == "");
    }
  }

  /** What failed providers sent before they failed stays in the draft: the draft of an uncancelled stream is the
      answering provider's own text if and only if no admitted provider before it sent any. */
  lemma DraftIsAnswerIff(cfg: RouterConfig, env: StreamEnv, chain: seq<Provider>, breakers: map<Provider, Breaker>, start: int,
                         cancelAfter: nat)
    requires Distinct(chain)
    requires var r := AsRequest(cfg, env, chain, breakers, start);
      r.Stop(0) < |chain| && |StreamFrom(cfg, env, chain, 0, StreamBegin(breakers, start)).events| <= cancelAfter
    ensures var r := AsRequest(cfg, env, chain, breakers, start);
      var events := StreamFrom(cfg, env, chain, 0, StreamBegin(breakers, start)).events;
      && Terminated(events)
      && (Draft(events, cancelAfter) == Some(Deltas(env.chunks(r.Stop(0)))) <==> Silent(r, env, r.Stop(0)))
  {
    var r := AsRequest(cfg, env, chain, breakers, start);
    DraftOfStream(cfg, env, chain, breakers, start, cancelAfter);
    TextInFrontIff(Sent(r, env, r.Stop(0)), env.chunks(r.Stop(0)));
    SilentIff(r, env, r.Stop(0));
  }

  lemma TextInFrontIff(front: seq<Chunk>, chunks: seq<Chunk>)
    ensures Deltas(front + chunks) == Deltas(chunks) <==> Deltas(front) == ""
  {
    DeltasAppend(front, chunks);
    if Deltas(front) != "" {
      assert |Deltas(front + chunks)| > |Deltas(chunks)|;
    }
  }

  /** A provider that sends "a" and fails, and its fallback, which answers "b". */
  const HALF_ANSWER := StreamEnv(
    (i: nat) => if i == 0 then [Chunk("a", false, None)] else [Chunk("b", true, None)],
    (i: nat) => i > 0, (_: nat) => 0, (_: nat) => 0)

  lemma PartialAnswerStays(cfg: RouterConfig, p: Provider, q: Provider, start: int)
    requires p != q
    ensures var events := StreamFrom(cfg, HALF_ANSWER, [p, q], 0, StreamBegin(map[p := FRESH, q := FRESH], start)).events;
      Terminated(events) && Draft(events, 3) == Some("ab")
  {
    var breakers, chain := map[p := FRESH, q := FRESH], [p, q];
    var r := AsRequest(cfg, HALF_ANSWER, chain, breakers, start);
    StreamTerms(cfg, HALF_ANSWER, chain, breakers, start, 0);
    StreamTerms(cfg, HALF_ANSWER, chain, breakers, start, 1);
    assert r.Stop(0) == 1;
    DraftOfStream(cfg, HALF_ANSWER, chain, breakers, start, 3);
    assert Sent(r, HALF_ANSWER, 1) == [] + HALF_ANSWER.chunks(0);
    TextOfBoth();
  }

  lemma TextOfBoth()
    ensures Deltas([] + HALF_ANSWER.chunks(0) + HALF_ANSWER.chunks(1)) == "ab"
    ensures |HALF_ANSWER.chunks(0)| == |HALF_ANSWER.chunks(1)| == 1
  {
    var a, b := HALF_ANSWER.chunks(0), HALF_ANSWER.chunks(1);
    assert a[..0] == [] && b[..0] == [] && [] + a + b == a + b;
    assert Deltas(a) == "a" && Deltas(b) == "b";
    DeltasAppend(a, b);
  }
}
