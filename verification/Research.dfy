/** What the researcher agent keeps of its search results: filtered at the contract boundary,
    without duplicates, best first. */
module Research {
  import opened Sorting

  datatype SearchResult = SearchResult(
    chunkId: string, content: string, score: real,
    documentId: string, brandId: string, filename: string, chunkIndex: int)

  const MIN_SCORE := 0.7
  const MAX_CHUNKS := 15

  function ScoreOf(r: SearchResult): real {
    r.score
  }

  // ---------- the contract gate of a search ----------

  predicate MeetsContract(r: SearchResult) {
    && r.chunkId != "" && r.content != "" && 0.0 <= r.score <= 1.0
    && r.documentId != "" && r.brandId != "" && r.filename != "" && r.chunkIndex >= 0
  }

  predicate Passes(r: SearchResult, brandId: string) {
    MeetsContract(r) && r.brandId == brandId
  }

  function Gate(raw: seq<SearchResult>, brandId: string): seq<SearchResult> {
    if raw == [] then []
    else Gate(raw[..|raw| - 1], brandId) + if Passes(raw[|raw| - 1], brandId) then [raw[|raw| - 1]] else []
  }

  /** The filter of `search`; `violations` counts the calls of `onContractViolation`. */
  method FilterResults(raw: seq<SearchResult>, brandId: string) returns (kept: seq<SearchResult>, violations: nat)
    ensures kept == Gate(raw, brandId) && violations == |raw| - |kept|
  {
    kept, violations := [], 0;
    for i := 0 to |raw|
      invariant kept == Gate(raw[..i], brandId) && violations == i - |kept|
    {
      assert raw[..i + 1][..i] == raw[..i];
      if !MeetsContract(raw[i]) {
        violations := violations + 1;
      } else if raw[i].brandId != brandId {
        violations := violations + 1;
      } else {
        kept := kept + [raw[i]];
      }
    }
    assert raw[..|raw|] == raw;
  }

  lemma {:induction false} GateMembers(raw: seq<SearchResult>, brandId: string)
    ensures forall r :: r in Gate(raw, brandId) <==> r in raw && Passes(r, brandId)
  {
    if raw != [] {
      GateMembers(raw[..|raw| - 1], brandId);
      assert raw == raw[..|raw| - 1] + [raw[|raw| - 1]];
    }
  }

  /** The gate keeps, in order and as often as they occur, just the well-formed results of the brand. */
  lemma GateInOrder(raw: seq<SearchResult>, last: SearchResult, brandId: string)
    ensures Gate(raw + [last], brandId) == Gate(raw, brandId) +
      if last.chunkId != "" && last.content != "" && 0.0 <= last.score <= 1.0 && last.documentId != ""
         && last.filename != "" && last.chunkIndex >= 0 && last.brandId == brandId != "" then [last] else []
  {
    assert (raw + [last])[..|raw|] == raw;
  }

  // ---------- the survivors ----------

  /** Result `i` scores above the threshold and no earlier result of the same chunk does. */
  predicate Kept(all: seq<SearchResult>, i: nat)
    requires i < |all|
  {
    all[i].score > MIN_SCORE && forall j :: 0 <= j < i && all[j].chunkId == all[i].chunkId ==> all[j].score <= MIN_SCORE
  }

  function Survivors(all: seq<SearchResult>, n: nat): seq<SearchResult>
    requires n <= |all|
  {
    if n == 0 then [] else Survivors(all, n - 1) + if Kept(all, n - 1) then [all[n - 1]] else []
  }

  ghost predicate DistinctIds(rs: seq<SearchResult>) {
    forall i, j :: 0 <= i < j < |rs| ==> rs[i].chunkId != rs[j].chunkId
  }

  function QualifyingIds(all: seq<SearchResult>, n: nat): set<string>
    requires n <= |all|
  {
    if n == 0 then {}
    else QualifyingIds(all, n - 1) + if all[n - 1].score > MIN_SCORE then {all[n - 1].chunkId} else {}
  }

  lemma {:induction false} QualifyingIff(all: seq<SearchResult>, n: nat, id: string)
    requires n <= |all|
    ensures id in QualifyingIds(all, n) <==> exists i :: 0 <= i < n && all[i].score > MIN_SCORE && all[i].chunkId == id
  {
    if n > 0 {
      QualifyingIff(all, n - 1, id);
    }
  }

  function FlattenPrefix(lists: seq<seq<SearchResult>>, n: nat): seq<SearchResult>
    requires n <= |lists|
  {
    if n == 0 then [] else FlattenPrefix(lists, n - 1) + lists[n - 1]
  }

  /** All results, in query order. */
  function AllResults(lists: seq<seq<SearchResult>>): seq<SearchResult> {
    FlattenPrefix(lists, |lists|)
  }

  /** Result `r` is kept at one of the first `n` positions. */
  ghost predicate KeptAmong(all: seq<SearchResult>, n: nat, r: SearchResult)
    requires n <= |all|
  {
    exists i :: 0 <= i < n && Kept(all, i) && all[i] == r
  }

  /** All results are those of the queries one after another. */
  lemma AllResultsInOrder(a: seq<seq<SearchResult>>, list: seq<SearchResult>)
    ensures AllResults(a + [list]) == AllResults(a) + list && AllResults([]) == []
  {
    PrefixOfMore(a, [list], |a|);
  }

  lemma {:induction false} PrefixOfMore(a: seq<seq<SearchResult>>, b: seq<seq<SearchResult>>, n: nat)
    requires n <= |a|
    ensures FlattenPrefix(a + b, n) == FlattenPrefix(a, n)
  {
    if n > 0 {
      PrefixOfMore(a, b, n - 1);
    }
  }

  lemma {:induction false} SurvivorIsKept(all: seq<SearchResult>, n: nat, r: SearchResult) returns (i: nat)
    requires n <= |all| && r in Survivors(all, n)
    ensures i < n && Kept(all, i) && all[i] == r
  {
    if r in Survivors(all, n - 1) {
      i := SurvivorIsKept(all, n - 1, r);
    } else {
      i := n - 1;
    }
  }

  lemma {:induction false} KeptSurvives(all: seq<SearchResult>, n: nat, i: nat)
    requires i < n <= |all| && Kept(all, i)
    ensures all[i] in Survivors(all, n)
  {
    if i < n - 1 {
      KeptSurvives(all, n - 1, i);
    }
  }

  /** The results are those at these positions, which increase. */
  ghost predicate FoundAt(rs: seq<SearchResult>, all: seq<SearchResult>, positions: seq<nat>, n: nat)
    requires n <= |all|
  {
    && |positions| == |rs|
    && (forall i :: 0 <= i < |rs| ==> positions[i] < n && all[positions[i]] == rs[i])
    && (forall i, j :: 0 <= i < j < |rs| ==> positions[i] < positions[j])
  }

  lemma FoundNext(rs: seq<SearchResult>, all: seq<SearchResult>, positions: seq<nat>, n: nat)
    requires n < |all| && FoundAt(rs, all, positions, n)
    ensures FoundAt(rs, all, positions, n + 1) && FoundAt(rs + [all[n]], all, positions + [n], n + 1)
  {
  }

  /** The survivors come in the order in which they were found. */
  lemma {:induction false} SurvivorsInOrder(all: seq<SearchResult>, n: nat) returns (positions: seq<nat>)
    requires n <= |all|
    ensures FoundAt(Survivors(all, n), all, positions, n)
  {
    if n == 0 {
      positions := [];
    } else {
      var before := SurvivorsInOrder(all, n - 1);
      var kept := NextSurvivor(all, n - 1);
      FoundNext(Survivors(all, n - 1), all, before, n - 1);
      positions := if kept then before + [n - 1] else before;
    }
  }

  lemma SurvivorsAreKept(all: seq<SearchResult>, n: nat, r: SearchResult)
    requires n <= |all|
    ensures r in Survivors(all, n) <==> KeptAmong(all, n, r)
  {
    if r in Survivors(all, n) {
      var _ := SurvivorIsKept(all, n, r);
    }
    if KeptAmong(all, n, r) {
      var i: nat :| i < n && Kept(all, i) && all[i] == r;
      KeptSurvives(all, n, i);
    }
  }

  function IdsOf(rs: seq<SearchResult>): set<string> {
    set r | r in rs :: r.chunkId
  }

  /** One result for each id. */
  ghost predicate OnePerId(rs: seq<SearchResult>, ids: set<string>) {
    DistinctIds(rs) && |rs| == |ids| && IdsOf(rs) == ids
  }

  /** The survivors have distinct ids, one for each id that qualifies. */
  lemma {:induction false} SurvivorsSpec(all: seq<SearchResult>, n: nat)
    requires n <= |all|
    ensures OnePerId(Survivors(all, n), QualifyingIds(all, n))
  {
    if n > 0 {
      SurvivorsSpec(all, n - 1);
      var kept := NextSurvivor(all, n - 1);
      OnePerIdStep(Survivors(all, n - 1), QualifyingIds(all, n - 1), all[n - 1], kept,
                   Survivors(all, n), QualifyingIds(all, n));
    } else {
      assert OnePerId([], {});
    }
  }

  lemma NextSurvivor(all: seq<SearchResult>, n: nat) returns (kept: bool)
    requires n < |all|
    ensures var r, before, ids := all[n], Survivors(all, n), QualifyingIds(all, n);
      && (kept <==> r.chunkId !in ids && r.score > MIN_SCORE)
      && if kept then Survivors(all, n + 1) == before + [r] && QualifyingIds(all, n + 1) == ids + {r.chunkId}
         else Survivors(all, n + 1) == before && QualifyingIds(all, n + 1) == ids
  {
    kept := Kept(all, n);
    KeptIff(all, n);
    assert Survivors(all, n) + [] == Survivors(all, n) && QualifyingIds(all, n) + {} == QualifyingIds(all, n);
  }

  lemma OnePerIdStep(before: seq<SearchResult>, ids: set<string>, r: SearchResult, kept: bool,
                     after: seq<SearchResult>, ids': set<string>)
    requires OnePerId(before, ids)
    requires if kept then r.chunkId !in ids && after == before + [r] && ids' == ids + {r.chunkId}
             else after == before && ids' == ids
    ensures OnePerId(after, ids')
  {
    if kept {
      OneMoreSurvivor(before, r, ids);
    }
  }

  /** The test of the loop: the id has not been seen and the score is above the threshold. */
  lemma KeptIff(all: seq<SearchResult>, n: nat)
    requires n < |all|
    ensures Kept(all, n) <==> all[n].chunkId !in QualifyingIds(all, n) && all[n].score > MIN_SCORE
  {
    QualifyingIff(all, n, all[n].chunkId);
  }

  lemma OneMoreSurvivor(before: seq<SearchResult>, r: SearchResult, ids: set<string>)
    requires OnePerId(before, ids) && r.chunkId !in ids
    ensures OnePerId(before + [r], ids + {r.chunkId})
  {
    forall k | 0 <= k < |before| ensures before[k].chunkId != r.chunkId {
      assert before[k] in before && before[k].chunkId in IdsOf(before);
    }
    IdsOfSnoc(before, r);
  }

  lemma IdsOfSnoc(rs: seq<SearchResult>, r: SearchResult)
    ensures IdsOf(rs + [r]) == IdsOf(rs) + {r.chunkId}
  {
    assert forall x :: x in rs + [r] <==> x in rs || x == r;
  }

  lemma {:induction false} KeptPrefix(a: seq<SearchResult>, b: seq<SearchResult>, n: nat)
    requires n <= |a|
    ensures Survivors(a + b, n) == Survivors(a, n) && QualifyingIds(a + b, n) == QualifyingIds(a, n)
  {
    if n > 0 {
      KeptPrefix(a, b, n - 1);
      assert forall j :: 0 <= j < n ==> (a + b)[j] == a[j];
      assert Kept(a + b, n - 1) <==> Kept(a, n - 1);
    }
  }

  // ---------- the selection ----------

  function Ranked(lists: seq<seq<SearchResult>>): seq<SearchResult> {
    var all := AllResults(lists);
    StableSort(Survivors(all, |all|), ScoreOf)
  }

  function Filenames(rs: seq<SearchResult>, n: nat): seq<string>
    requires n <= |rs|
  {
    if n == 0 then []
    else
      var before := Filenames(rs, n - 1);
      if rs[n - 1].filename in before then before else before + [rs[n - 1].filename]
  }

  function Top(rs: seq<SearchResult>): seq<SearchResult> {
    if |rs| <= MAX_CHUNKS then rs else rs[..MAX_CHUNKS]
  }

  /** The inner loop of the de-duplication: the results of one query, after those in `before`. */
  method AddNew(ghost before: seq<SearchResult>, results: seq<SearchResult>, seen: set<string>, deduped: seq<SearchResult>)
    returns (seen': set<string>, deduped': seq<SearchResult>)
    requires deduped == Survivors(before, |before|) && seen == QualifyingIds(before, |before|)
    ensures var all := before + results;
      deduped' == Survivors(all, |all|) && seen' == QualifyingIds(all, |all|)
  {
    ghost var all := before + results;
    KeptPrefix(before, results, |before|);
    seen', deduped' := seen, deduped;
    for i := 0 to |results|
      invariant deduped' == Survivors(all, |before| + i) && seen' == QualifyingIds(all, |before| + i)
    {
      var r := results[i];
      ghost var n := |before| + i;
      assert all[n] == r;
      var _ := NextSurvivor(all, n);
      if r.chunkId !in seen' && r.score > MIN_SCORE {
        seen' := seen' + {r.chunkId};
        deduped' := deduped' + [r];
      }
    }
  }

  method Cite(deduped: seq<SearchResult>) returns (citations: seq<string>)
    ensures citations == Filenames(deduped, |deduped|)
  {
    citations := [];
    for i := 0 to |deduped|
      invariant citations == Filenames(deduped, i)
    {
      if deduped[i].filename !in citations {
        citations := citations + [deduped[i].filename];
      }
    }
  }

  /** De-duplication with a set of seen ids, the stable sort, the cut, and the citations. */
  method Select(ragResults: seq<seq<SearchResult>>) returns (ragContext: seq<SearchResult>, citations: seq<string>)
    ensures ragContext == Top(Ranked(ragResults))
    ensures citations == Filenames(Ranked(ragResults), |Ranked(ragResults)|)
  {
    var seen: set<string> := {};
    var deduped: seq<SearchResult> := [];
    for q := 0 to |ragResults|
      invariant var all := FlattenPrefix(ragResults, q);
        deduped == Survivors(all, |all|) && seen == QualifyingIds(all, |all|)
    {
      seen, deduped := AddNew(FlattenPrefix(ragResults, q), ragResults[q], seen, deduped);
    }
    deduped := StableSort(deduped, ScoreOf);
    ragContext := if |deduped| <= MAX_CHUNKS then deduped else deduped[..MAX_CHUNKS];
    citations := Cite(deduped);
  }

  lemma {:induction false} FilenameIff(rs: seq<SearchResult>, n: nat, name: string)
    requires n <= |rs|
    ensures name in Filenames(rs, n) <==> exists k :: 0 <= k < n && rs[k].filename == name
  {
    if n > 0 {
      FilenameIff(rs, n - 1, name);
    }
  }

  lemma {:induction false} FilenamesDistinct(rs: seq<SearchResult>, n: nat)
    requires n <= |rs|
    ensures forall i, j :: 0 <= i < j < |Filenames(rs, n)| ==> Filenames(rs, n)[i] != Filenames(rs, n)[j]
  {
    if n > 0 {
      FilenamesDistinct(rs, n - 1);
      var before, name := Filenames(rs, n - 1), rs[n - 1].filename;
      if name !in before {
        assert Filenames(rs, n) == before + [name];
        assert forall i :: 0 <= i < |before| ==> before[i] in before;
      }
    }
  }

  /** Files are cited in the order in which they first occur. */
  lemma {:induction false} CitedInOrder(rs: seq<SearchResult>, n: nat, i: nat, j: nat)
    requires n <= |rs| && i < j < |Filenames(rs, n)|
    ensures exists k :: 0 <= k < n && FirstOf(rs, k, Filenames(rs, n)[i], Filenames(rs, n)[j])
  {
    var names := Filenames(rs, n);
    if j < |Filenames(rs, n - 1)| {
      CitedInOrder(rs, n - 1, i, j);
      var k :| 0 <= k < n - 1 && FirstOf(rs, k, Filenames(rs, n - 1)[i], Filenames(rs, n - 1)[j]);
      assert FirstOf(rs, k, names[i], names[j]);
    } else {
      var before := Filenames(rs, n - 1);
      assert names == before + [rs[n - 1].filename] && names[i] == before[i] && names[i] in before;
      FilenameIff(rs, n - 1, names[i]);
      FilenameIff(rs, n - 1, names[j]);
      var k :| 0 <= k < n - 1 && rs[k].filename == names[i];
      assert FirstOf(rs, k, names[i], names[j]);
    }
  }

  /** Result `k` is from the one file, and no result up to there is from the other. */
  ghost predicate FirstOf(rs: seq<SearchResult>, k: nat, name: string, other: string)
    requires k < |rs|
  {
    rs[k].filename == name && forall l :: 0 <= l <= k ==> rs[l].filename != other
  }

  lemma PermutationKeepsIds(rs: seq<SearchResult>, ps: seq<SearchResult>)
    requires multiset(rs) == multiset(ps) && DistinctIds(rs)
    ensures DistinctIds(ps) && |ps| == |rs| && forall r :: r in ps <==> r in rs
  {
    assert |multiset(ps)| == |ps| && |multiset(rs)| == |rs|;
    assert forall r :: r in ps <==> r in multiset(ps);
    assert forall r :: r in rs <==> r in multiset(rs);
    forall i, j | 0 <= i < j < |ps| ensures ps[i].chunkId != ps[j].chunkId {
      assert ps[i] in rs && ps[j] in rs;
      if ps[i] == ps[j] {
        TwiceInMultiset(ps, i, j);
        OnceInMultiset(rs, ps[i]);
      }
    }
  }

  lemma TwiceInMultiset(ps: seq<SearchResult>, i: nat, j: nat)
    requires i < j < |ps| && ps[i] == ps[j]
    ensures multiset(ps)[ps[i]] >= 2
  {
    assert ps == ps[..j] + [ps[j]] + ps[j + 1..];
    assert ps[i] in ps[..j];
  }

  lemma {:induction false} OnceInMultiset(rs: seq<SearchResult>, r: SearchResult)
    requires DistinctIds(rs)
    ensures multiset(rs)[r] <= 1
  {
    if rs != [] {
      var init, last := rs[..|rs| - 1], rs[|rs| - 1];
      assert rs == init + [last];
      OnceInMultiset(init, r);
      if last == r {
        assert r !in init;
      }
    }
  }

  /** The context of a run, for any search responses: distinct chunks, best first, ties in query order,
      as many as qualify but at most 15, each the first qualifying occurrence of its id; whatever was
      cut scores no more than anything kept; and the citations name every survivor's file once. */
  lemma SelectionSpec(lists: seq<seq<SearchResult>>)
    ensures var all := AllResults(lists);
      var ranked := Ranked(lists);
      var ragContext, citations := Top(ranked), Filenames(ranked, |ranked|);
      && ragContext <= ranked && DistinctIds(ragContext) && Descending(ragContext, ScoreOf)
      && (forall v :: AtScore(ranked, ScoreOf, v) == AtScore(Survivors(all, |all|), ScoreOf, v))
      && |ragContext| == (if |QualifyingIds(all, |all|)| <= 15 then |QualifyingIds(all, |all|)| else 15)
      && (forall r :: r in ranked <==> KeptAmong(all, |all|, r))
      && (forall r, c :: r in ranked && r !in ragContext && c in ragContext ==> r.score <= c.score)
      && (forall i, j :: 0 <= i < j < |citations| ==> citations[i] != citations[j])
      && (forall name :: name in citations <==> exists k :: 0 <= k < |ranked| && ranked[k].filename == name)
  {
    var all := AllResults(lists);
    var rs, ranked := Survivors(all, |all|), Ranked(lists);
    SurvivorsSpec(all, |all|);
    forall r ensures r in rs <==> KeptAmong(all, |all|, r) {
      SurvivorsAreKept(all, |all|, r);
    }
    SortSpec(rs, ScoreOf);
    PermutationKeepsIds(rs, ranked);
    FilenamesDistinct(ranked, |ranked|);
    forall name ensures name in Filenames(ranked, |ranked|) <==> exists k :: 0 <= k < |ranked| && ranked[k].filename == name {
      FilenameIff(ranked, |ranked|, name);
    }
    TopSpec(ranked);
  }

  /** Exactly the chunks that some query found with a score above 0.7 survive. */
  lemma SelectionThreshold(lists: seq<seq<SearchResult>>, id: string)
    ensures (exists r :: r in Ranked(lists) && r.chunkId == id) <==>
            (exists i :: 0 <= i < |AllResults(lists)| && AllResults(lists)[i].chunkId == id && AllResults(lists)[i].score > 0.7)
    ensures forall r :: r in Ranked(lists) ==> r.score > 0.7
  {
    var all := AllResults(lists);
    SelectionSpec(lists);
    SurvivorsSpec(all, |all|);
    QualifyingIff(all, |all|, id);
    SortSpec(Survivors(all, |all|), ScoreOf);
    SameMembers(Survivors(all, |all|), Ranked(lists));
    assert id in IdsOf(Survivors(all, |all|)) <==> exists r :: r in Ranked(lists) && r.chunkId == id;
  }

  lemma SameMembers(a: seq<SearchResult>, b: seq<SearchResult>)
    requires multiset(a) == multiset(b)
    ensures forall r :: r in a <==> r in b
  {
    assert forall r :: r in a <==> r in multiset(a);
    assert forall r :: r in b <==> r in multiset(b);
  }

  lemma TopSpec(ranked: seq<SearchResult>)
    requires DistinctIds(ranked) && Descending(ranked, ScoreOf)
    ensures DistinctIds(Top(ranked)) && Descending(Top(ranked), ScoreOf)
    ensures forall r, c :: r in ranked && r !in Top(ranked) && c in Top(ranked) ==> r.score <= c.score
  {
    forall r, c | r in ranked && r !in Top(ranked) && c in Top(ranked) ensures r.score <= c.score {
      var i: nat :| i < |ranked| && ranked[i] == r;
      var j: nat :| j < |Top(ranked)| && Top(ranked)[j] == c;
      var top := Top(ranked);
      assert forall k :: 0 <= k < |top| ==> top[k] == ranked[k] && ranked[k] in top;
      assert ScoreOf(ranked[j]) >= ScoreOf(ranked[i]);
    }
  }

  lemma {:induction false} FlattenMember(lists: seq<seq<SearchResult>>, n: nat, r: SearchResult)
    requires n <= |lists| && r in FlattenPrefix(lists, n)
    ensures exists k :: 0 <= k < n && r in lists[k]
  {
    if r !in lists[n - 1] {
      FlattenMember(lists, n - 1, r);
    }
  }

  /** Brand isolation: when every list has passed the gate of a search for `brandId`, so has every item
      of the context, whatever the store returned. */
  lemma BrandIsolation(raws: seq<seq<SearchResult>>, lists: seq<seq<SearchResult>>, brandId: string)
    requires |lists| == |raws| && forall k :: 0 <= k < |lists| ==> lists[k] == Gate(raws[k], brandId)
    ensures forall r :: r in Top(Ranked(lists)) ==>
      r.brandId == brandId && r.chunkId != "" && r.content != "" && 0.7 < r.score <= 1.0
  {
    SelectionSpec(lists);
    var all := AllResults(lists);
    forall r | r in Top(Ranked(lists))
      ensures r.brandId == brandId && r.chunkId != "" && r.content != "" && 0.7 < r.score <= 1.0
    {
      assert r in Ranked(lists);
      var i: nat :| i < |all| && Kept(all, i) && all[i] == r;
      FlattenMember(lists, |lists|, r);
      var k: nat :| k < |lists| && r in lists[k];
      GateMembers(raws[k], brandId);
    }
  }
}
