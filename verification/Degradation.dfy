/** The append-only record of why a pipeline run is degraded. */
module Degradation {
  import opened Common

  datatype Reason =
    | RAG_TIMEOUT | LLM_FALLBACK | QUEUE_OVERLOAD | CONTRACT_RETRY
    | OPTIONAL_AGENT_SKIPPED | MEMORY_TIMEOUT | CONTRACT_VIOLATION

  function Appended(reasons: seq<Reason>, reason: Reason): seq<Reason> {
    if reason in reasons then reasons else reasons + [reason]
  }

  function AppendedAll(reasons: seq<Reason>, more: seq<Reason>): seq<Reason> {
    if more == [] then reasons
    else Appended(AppendedAll(reasons, more[..|more| - 1]), more[|more| - 1])
  }

  /** The record never loses, reorders or repeats a reason, and takes up all that is appended. */
  lemma {:induction false} AppendOnly(reasons: seq<Reason>, more: seq<Reason>)
    requires Distinct(reasons)
    ensures Distinct(AppendedAll(reasons, more)) && reasons <= AppendedAll(reasons, more)
    ensures forall r :: r in AppendedAll(reasons, more) <==> r in reasons || r in more
  {
    if more != [] {
      var init, last := more[..|more| - 1], more[|more| - 1];
      AppendOnly(reasons, init);
      assert more == init + [last];
    }
  }

  class DegradedExecutionContext {
    var reasons: seq<Reason>

    constructor ()
      ensures reasons == []
    {
      reasons := [];
    }

    predicate IsDegraded()
      reads this
    {
      |reasons| > 0
    }

    method Append(reason: Reason)
      modifies this
      ensures reasons == Appended(old(reasons), reason)
    {
      if reason !in reasons {
        reasons := reasons + [reason];
      }
    }
  }
}
