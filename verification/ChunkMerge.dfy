/** Greedy merging of pieces into chunks, with a word-aligned overlap carried
    from one chunk into the next. */
module ChunkMerge {
  import opened Text

  // ---------- overlap ----------

  /** The overlap, found from the left: drop whole words until what remains fits. */
  function OverlapText(text: Str, overlap: int): Str
    decreases |text|
  {
    if |text| <= overlap then text
    else
      var i := IndexOf(text, [SPACE], 0);
      if i == -1 then [] else OverlapText(text[i + 1..], overlap)
  }

  /** A suffix of the text that starts at the beginning of a word. */
  predicate WordSuffix(text: Str, k: nat) {
    k <= |text| && (k == 0 || text[k - 1] == SPACE)
  }

  /** The longest word-aligned suffix that fits starts at `k`, which is the end of the text when none fits. */
  ghost predicate LongestFit(text: Str, overlap: int, k: nat) {
    && k <= |text|
    && (k == |text| || (WordSuffix(text, k) && |text| - k <= overlap))
    && (forall j: nat :: WordSuffix(text, j) && |text| - j <= overlap ==> k <= j)
  }

  /** The overlap is the longest word-aligned suffix that fits, and empty when none does. */
  lemma {:induction false} OverlapMaximal(text: Str, overlap: int) returns (k: nat)
    ensures LongestFit(text, overlap, k) && OverlapText(text, overlap) == text[k..]
    decreases |text|
  {
    if |text| <= overlap {
      k := 0;
    } else {
      var i := IndexOf(text, [SPACE], 0);
      if i == -1 {
        k := |text|;
        OneWord(text, overlap);
      } else {
        var k' := OverlapMaximal(text[i + 1..], overlap);
        k := i + 1 + k';
        assert text[i + 1..][k'..] == text[k..];
        AfterFirstWord(text, overlap, i, k');
      }
    }
  }

  lemma OneWord(text: Str, overlap: int)
    requires |text| > overlap && IndexOf(text, [SPACE], 0) == -1
    ensures LongestFit(text, overlap, |text|)
  {
    forall j: nat | WordSuffix(text, j) ensures j == 0 {
      if j > 0 {
        SuffixAfterSpace(text, j);
      }
    }
  }

  lemma AfterFirstWord(text: Str, overlap: int, i: nat, k: nat)
    requires |text| > overlap && i == IndexOf(text, [SPACE], 0) && LongestFit(text[i + 1..], overlap, k)
    ensures LongestFit(text, overlap, i + 1 + k)
  {
    IndexOfOccurs(text, [SPACE], 0);
    assert text[i..i + 1][0] == SPACE;
    forall j: nat | WordSuffix(text, j) && |text| - j <= overlap ensures i + 1 + k <= j {
      SuffixAfterSpace(text, j);
    }
  }

  /** A word-aligned suffix other than the whole text starts after the first space. */
  lemma SuffixAfterSpace(text: Str, j: nat)
    requires WordSuffix(text, j) && j > 0
    ensures var i := IndexOf(text, [SPACE], 0);
      0 <= i < j && WordSuffix(text[i + 1..], j - i - 1)
  {
    assert text[j - 1..j] == [SPACE];
    IndexOfLeftmost(text, [SPACE], 0, j - 1);
  }

  /** Peeling the first word off a joined list of words. */
  lemma OverlapPeel(words: seq<Str>, overlap: int)
    requires words != [] && forall w :: w in words ==> SPACE !in w
    requires |Join(words, [SPACE])| > overlap
    ensures OverlapText(Join(words, [SPACE]), overlap) == OverlapText(Join(words[1..], [SPACE]), overlap)
  {
    var w := words[0];
    assert w in words;
    if |words| == 1 {
      NoSpace(w, 0);
    } else {
      PeelWord(Join(words, [SPACE]), w, Join(words[1..], [SPACE]), overlap);
    }
  }

  lemma PeelWord(text: Str, word: Str, tail: Str, overlap: int)
    requires text == word + ([SPACE] + tail) && SPACE !in word && |text| > overlap
    ensures OverlapText(text, overlap) == OverlapText(tail, overlap)
  {
    assert forall k :: 0 <= k < |word| ==> text[k] == word[k] && word[k] in word;
    FirstSpace(text, |word|);
    assert text[|word| + 1..] == tail;
  }

  lemma {:induction false} NoSpace(word: Str, from: nat)
    requires SPACE !in word
    ensures IndexOf(word, [SPACE], from) == -1
    decreases |word| - from
  {
    if from < |word| {
      assert word[from..from + 1][0] == word[from];
      NoSpace(word, from + 1);
    }
  }

  lemma FirstSpace(text: Str, n: nat)
    requires n < |text| && text[n] == SPACE && forall k :: 0 <= k < n ==> text[k] != SPACE
    ensures IndexOf(text, [SPACE], 0) == n
  {
    assert text[n..n + 1] == [SPACE];
    IndexOfLeftmost(text, [SPACE], 0, n);
    IndexOfOccurs(text, [SPACE], 0);
    var i := IndexOf(text, [SPACE], 0);
    assert text[i] == text[i..i + 1][0];
  }

  lemma {:induction false} JoinedSuffixesShrink(words: seq<Str>, i: nat, j: nat)
    requires i < j < |words|
    ensures |Join(words[j..], [SPACE])| < |Join(words[i..], [SPACE])|
    decreases j - i
  {
    assert words[i..][1..] == words[i + 1..];
    if i + 1 < j {
      JoinedSuffixesShrink(words, i + 1, j);
    }
  }

  /** All suffixes from word `i` back are too long, so the overlap is that of the words after `i`. */
  lemma {:induction false} OverlapSkips(words: seq<Str>, i: nat, overlap: int)
    requires i < |words| && forall w :: w in words ==> SPACE !in w
    requires |Join(words[i..], [SPACE])| > overlap
    ensures OverlapText(Join(words, [SPACE]), overlap) == OverlapText(Join(words[i + 1..], [SPACE]), overlap)
    decreases i
  {
    OverlapPeel(words[i..], overlap);
    assert words[i..][1..] == words[i + 1..];
    if i == 0 {
      assert words[0..] == words;
    } else {
      JoinedSuffixesShrink(words, i - 1, i);
      OverlapSkips(words, i - 1, overlap);
    }
  }

  lemma WordsLackSpaces(text: Str)
    ensures forall w :: w in SplitOn(text, [SPACE]) ==> SPACE !in w
  {
    forall w | w in SplitOn(text, [SPACE]) ensures SPACE !in w {
      if SPACE in w {
        var k: nat :| k < |w| && w[k] == SPACE;
        assert OccursAt(w, [SPACE], k);
        SplitPartsLackSeparator(text, [SPACE], 0, w, k);
      }
    }
  }

  /** The backward loop over the words, with its early exit, computes the overlap. */
  method GetOverlapText(text: Str, overlap: int) returns (overlapText: Str)
    ensures overlapText == OverlapText(text, overlap)
  {
    if text == [] || overlap == 0 {
      EmptyOverlap(text, overlap);
      return [];
    }
    var words := SplitOn(text, [SPACE]);
    JoinSplit(text, [SPACE]);
    WordsLackSpaces(text);
    overlapText := [];
    var i := |words| - 1;
    while i >= 0
      invariant -1 <= i < |words|
      invariant overlapText == Join(words[i + 1..], [SPACE])
      invariant i == |words| - 1 || |overlapText| <= overlap
    {
      var candidate := Join(words[i..], [SPACE]);
      if |candidate| <= overlap {
        overlapText := candidate;
      } else {
        OverlapSkips(words, i, overlap);
        EmptyOverlap([], overlap);
        return;
      }
      i := i - 1;
    }
    assert words[0..] == words;
  }

  lemma {:induction false} EmptyOverlap(text: Str, overlap: int)
    requires text == [] || overlap <= 0
    ensures OverlapText(text, overlap) == []
    decreases |text|
  {
    var i := IndexOf(text, [SPACE], 0);
    if |text| > overlap && i != -1 {
      EmptyOverlap(text[i + 1..], overlap);
    }
  }

  // ---------- greedy merge ----------

  /** One chunk: the overlap it starts with, and the pieces packed into it. */
  datatype Group = Group(overlap: Str, pieces: seq<Str>)

  function Glue(current: Str, piece: Str): Str {
    if current == [] then piece else current + [SPACE] + piece
  }

  function GlueAll(current: Str, pieces: seq<Str>): Str {
    if pieces == [] then current
    else Glue(GlueAll(current, pieces[..|pieces| - 1]), pieces[|pieces| - 1])
  }

  /** The chunk text before trimming. */
  function Render(g: Group): Str {
    GlueAll(g.overlap, g.pieces)
  }

  function Pack(open: Group, rest: seq<Str>, chunkSize: int, overlap: int): seq<Group>
    decreases |rest|
  {
    if rest == [] then [open]
    else
      var current := Render(open);
      if current == [] || |current| + |rest[0]| + 1 <= chunkSize then
        Pack(Group(open.overlap, open.pieces + rest[..1]), rest[1..], chunkSize, overlap)
      else
        [open] + Pack(Group(OverlapText(current, overlap), rest[..1]), rest[1..], chunkSize, overlap)
  }

  /** The packing of all the pieces, starting from an empty chunk. */
  function Groups(pieces: seq<Str>, chunkSize: int, overlap: int): seq<Group> {
    Pack(Group([], []), pieces, chunkSize, overlap)
  }

  /** The chunk texts: every group trimmed, the last one only if something is left of it. */
  function ChunkTexts(groups: seq<Group>): seq<Str> {
    if groups == [] then []
    else if |groups| == 1 then
      (if Trim(Render(groups[0])) == [] then [] else [Trim(Render(groups[0]))])
    else [Trim(Render(groups[0]))] + ChunkTexts(groups[1..])
  }

  lemma GlueSnoc(current: Str, pieces: seq<Str>, piece: Str)
    ensures GlueAll(current, pieces + [piece]) == Glue(GlueAll(current, pieces), piece)
  {
    assert (pieces + [piece])[..|pieces|] == pieces;
  }

  lemma {:induction false} PackNonempty(open: Group, rest: seq<Str>, chunkSize: int, overlap: int)
    ensures Pack(open, rest, chunkSize, overlap) != []
    decreases |rest|
  {
    if rest != [] && (Render(open) == [] || |Render(open)| + |rest[0]| + 1 <= chunkSize) {
      PackNonempty(Group(open.overlap, open.pieces + rest[..1]), rest[1..], chunkSize, overlap);
    }
  }

  /** One step of the packing, with the pieces given apart. */
  lemma PackStep(open: Group, piece: Str, rest: seq<Str>, all: seq<Str>, chunkSize: int, overlap: int)
    requires all != [] && all[0] == piece && all[..1] == [piece] && all[1..] == rest
    ensures var current := Render(open);
      Pack(open, all, chunkSize, overlap) ==
        if current == [] || |current| + |piece| + 1 <= chunkSize then
          Pack(Group(open.overlap, open.pieces + [piece]), rest, chunkSize, overlap)
        else [open] + Pack(Group(OverlapText(current, overlap), [piece]), rest, chunkSize, overlap)
  {
  }

  /** Packing takes the next piece into the open group ... */
  lemma PackExtend(open: Group, piece: Str, rest: seq<Str>, chunkSize: int, overlap: int)
    requires Render(open) == [] || |Render(open)| + |piece| + 1 <= chunkSize
    ensures var wider := Group(open.overlap, open.pieces + [piece]);
      && Pack(open, [piece] + rest, chunkSize, overlap) == Pack(wider, rest, chunkSize, overlap)
      && Render(wider) == Glue(Render(open), piece)
  {
    var all := [piece] + rest;
    GlueSnoc(open.overlap, open.pieces, piece);
    assert all[..1] == [piece] && all[1..] == rest;
    PackStep(open, piece, rest, all, chunkSize, overlap);
  }

  /** ... or closes that group and starts the next one from its overlap. */
  lemma PackClose(open: Group, piece: Str, rest: seq<Str>, chunkSize: int, overlap: int)
    requires Render(open) != [] && |Render(open)| + |piece| + 1 > chunkSize
    ensures var next := Group(OverlapText(Render(open), overlap), [piece]);
      var later := Pack(next, rest, chunkSize, overlap);
      && Pack(open, [piece] + rest, chunkSize, overlap) == [open] + later
      && later != []
      && ChunkTexts([open] + later) == [Trim(Render(open))] + ChunkTexts(later)
      && Render(next) == Glue(next.overlap, piece)
  {
    var next := Group(OverlapText(Render(open), overlap), [piece]);
    var later := Pack(next, rest, chunkSize, overlap);
    var all := [piece] + rest;
    assert all[..1] == [piece] && all[1..] == rest;
    PackStep(open, piece, rest, all, chunkSize, overlap);
    PackNonempty(next, rest, chunkSize, overlap);
    GlueSnoc(next.overlap, [], piece);
    assert [] + [piece] == [piece];
    assert ([open] + later)[1..] == later;
  }

  method MergeChunksWithOverlap(chunks: seq<Str>, chunkSize: int, overlap: int) returns (merged: seq<Str>)
    ensures merged == ChunkTexts(Groups(chunks, chunkSize, overlap))
  {
    merged := [];
    var currentChunk: Str := [];
    ghost var open := Group([], []);
    assert chunks[0..] == chunks;
    for i := 0 to |chunks|
      invariant currentChunk == Render(open)
      invariant merged + ChunkTexts(Pack(open, chunks[i..], chunkSize, overlap))
             == ChunkTexts(Groups(chunks, chunkSize, overlap))
    {
      var chunk := chunks[i];
      ghost var rest := chunks[i + 1..];
      assert chunks[i..] == [chunk] + rest;
      if |currentChunk| + |chunk| + 1 <= chunkSize {
        PackExtend(open, chunk, rest, chunkSize, overlap);
        currentChunk := if currentChunk != [] then currentChunk + [SPACE] + chunk else chunk;
        open := Group(open.overlap, open.pieces + [chunk]);
      } else {
        if currentChunk != [] {
          PackClose(open, chunk, rest, chunkSize, overlap);
          merged := merged + [Trim(currentChunk)];
        } else {
          PackExtend(open, chunk, rest, chunkSize, overlap);
          EmptyOverlap([], overlap);
        }
        var overlapText := GetOverlapText(currentChunk, overlap);
        open := if currentChunk != [] then Group(overlapText, [chunk]) else Group(open.overlap, open.pieces + [chunk]);
        currentChunk := if overlapText != [] then overlapText + [SPACE] + chunk else chunk;
      }
    }
    if Trim(currentChunk) != [] {
      merged := merged + [Trim(currentChunk)];
    }
  }

  // ---------- what the packing guarantees ----------

  function PiecesIn(groups: seq<Group>): seq<Str> {
    if groups == [] then [] else groups[0].pieces + PiecesIn(groups[1..])
  }

  /** One group follows another as the greedy rule prescribes: the first one could not take the
      next piece any more, and the second starts with the overlap of the first. */
  predicate Follows(g: Group, h: Group, chunkSize: int, overlap: int) {
    && Render(g) != []
    && h.overlap == OverlapText(Render(g), overlap)
    && h.pieces != []
    && |Render(g)| + |h.pieces[0]| + 1 > chunkSize
  }

  /** A group is a single piece behind its overlap, or everything in it fits the chunk size. */
  predicate Fits(g: Group, chunkSize: int) {
    |g.pieces| <= 1 || |Render(g)| <= chunkSize
  }

  /** The packing keeps every piece, in order; consecutive groups follow the greedy rule; and
      every group with more than one piece fits. */
  ghost predicate GreedyPacking(groups: seq<Group>, pieces: seq<Str>, chunkSize: int, overlap: int) {
    && groups != []
    && PiecesIn(groups) == pieces
    && (forall g :: g in groups ==> Fits(g, chunkSize))
    && (forall k :: 0 <= k < |groups| - 1 ==> Follows(groups[k], groups[k + 1], chunkSize, overlap))
  }

  /** Packing the rest after an open group is greedy, and starts with that group. */
  ghost predicate PackedWell(open: Group, rest: seq<Str>, chunkSize: int, overlap: int) {
    var groups := Pack(open, rest, chunkSize, overlap);
    && GreedyPacking(groups, open.pieces + rest, chunkSize, overlap)
    && groups[0].overlap == open.overlap && open.pieces <= groups[0].pieces
  }

  lemma {:induction false} PackShape(open: Group, rest: seq<Str>, chunkSize: int, overlap: int)
    requires Fits(open, chunkSize)
    requires open.pieces == [] ==> open.overlap == []
    requires (forall p :: p in open.pieces ==> p != []) && (forall p :: p in rest ==> p != [])
    ensures PackedWell(open, rest, chunkSize, overlap)
    decreases |rest|
  {
    if rest == [] {
      PackedLast(open, chunkSize, overlap);
    } else {
      var current := Render(open);
      var piece, tail := rest[0], rest[1..];
      assert rest == [piece] + tail;
      assert piece in rest && forall p :: p in tail ==> p in rest;
      GlueNonempty(open.overlap, open.pieces);
      if current == [] || |current| + |piece| + 1 <= chunkSize {
        PackExtend(open, piece, tail, chunkSize, overlap);
        PackShape(Group(open.overlap, open.pieces + [piece]), tail, chunkSize, overlap);
        PackedExtend(open, piece, tail, chunkSize, overlap);
      } else {
        PackShape(Group(OverlapText(current, overlap), [piece]), tail, chunkSize, overlap);
        PackedClose(open, piece, tail, chunkSize, overlap);
      }
    }
  }

  lemma PackedLast(open: Group, chunkSize: int, overlap: int)
    requires Fits(open, chunkSize)
    ensures PackedWell(open, [], chunkSize, overlap)
  {
    assert PiecesIn([open]) == open.pieces + PiecesIn([open][1..]);
    assert open.pieces + [] == open.pieces;
  }

  lemma PackedExtend(open: Group, piece: Str, tail: seq<Str>, chunkSize: int, overlap: int)
    requires Render(open) == [] || |Render(open)| + |piece| + 1 <= chunkSize
    requires PackedWell(Group(open.overlap, open.pieces + [piece]), tail, chunkSize, overlap)
    ensures PackedWell(open, [piece] + tail, chunkSize, overlap)
  {
    PackExtend(open, piece, tail, chunkSize, overlap);
    assert open.pieces + [piece] + tail == open.pieces + ([piece] + tail);
  }

  lemma PackedClose(open: Group, piece: Str, tail: seq<Str>, chunkSize: int, overlap: int)
    requires Fits(open, chunkSize) && Render(open) != [] && |Render(open)| + |piece| + 1 > chunkSize
    requires PackedWell(Group(OverlapText(Render(open), overlap), [piece]), tail, chunkSize, overlap)
    ensures PackedWell(open, [piece] + tail, chunkSize, overlap)
  {
    var next := Group(OverlapText(Render(open), overlap), [piece]);
    PackClose(open, piece, tail, chunkSize, overlap);
    PackingCons(open, piece, Pack(next, tail, chunkSize, overlap), [piece] + tail, chunkSize, overlap);
  }

  lemma PackingCons(g: Group, piece: Str, later: seq<Group>, rest: seq<Str>, chunkSize: int, overlap: int)
    requires Fits(g, chunkSize) && Render(g) != [] && |Render(g)| + |piece| + 1 > chunkSize
    requires GreedyPacking(later, rest, chunkSize, overlap)
    requires later[0].overlap == OverlapText(Render(g), overlap) && [piece] <= later[0].pieces
    ensures GreedyPacking([g] + later, g.pieces + rest, chunkSize, overlap)
  {
    var groups := [g] + later;
    assert groups[1..] == later;
    forall k | 0 <= k < |groups| - 1 ensures Follows(groups[k], groups[k + 1], chunkSize, overlap) {
      if k > 0 {
        assert groups[k] == later[k - 1] && groups[k + 1] == later[k];
      }
    }
  }

  lemma {:induction false} GlueNonempty(current: Str, pieces: seq<Str>)
    requires forall p :: p in pieces ==> p != []
    ensures GlueAll(current, pieces) == [] ==> pieces == [] && current == []
  {
    if pieces != [] {
      assert pieces[|pieces| - 1] in pieces;
    }
  }

  /** A chunk is the overlap and a space, if there is an overlap, and then the pieces joined by spaces. */
  lemma {:induction false} RenderIsJoin(current: Str, pieces: seq<Str>)
    requires pieces != [] && forall p :: p in pieces ==> p != []
    ensures GlueAll(current, pieces) == (if current == [] then [] else current + [SPACE]) + Join(pieces, [SPACE])
    decreases |pieces|
  {
    var init, last := pieces[..|pieces| - 1], pieces[|pieces| - 1];
    assert pieces == init + [last];
    assert last in pieces && forall p :: p in init ==> p in pieces;
    if init == [] {
      assert GlueAll(current, init) == current;
    } else {
      RenderIsJoin(current, init);
      GlueNonempty(current, init);
      JoinSnoc(init, last, [SPACE]);
    }
  }

  lemma {:induction false} JoinSnoc(parts: seq<Str>, last: Str, sep: Str)
    requires parts != []
    ensures Join(parts + [last], sep) == Join(parts, sep) + (sep + last)
    decreases |parts|
  {
    if |parts| == 1 {
      assert (parts + [last])[1..] == [last];
    } else {
      JoinSnoc(parts[1..], last, sep);
      assert (parts + [last])[1..] == parts[1..] + [last];
    }
  }

  /** Gluing never shortens, and every further piece costs its length and one space. */
  lemma {:induction false} GluePrefixLength(current: Str, pieces: seq<Str>, n: nat)
    requires n < |pieces| && forall p :: p in pieces ==> p != []
    requires GlueAll(current, pieces[..n]) != []
    ensures |GlueAll(current, pieces)| >= |GlueAll(current, pieces[..n])| + 1 + |pieces[n]|
    decreases |pieces|
  {
    var init := pieces[..|pieces| - 1];
    assert forall p :: p in init ==> p in pieces;
    if n < |init| {
      assert init[..n] == pieces[..n];
      GluePrefixLength(current, init, n);
    } else {
      assert pieces[..n] == init;
    }
  }

  lemma PackingHead(groups: seq<Group>, pieces: seq<Str>, chunkSize: int, overlap: int)
    requires GreedyPacking(groups, pieces, chunkSize, overlap)
    ensures pieces == groups[0].pieces + PiecesIn(groups[1..])
    ensures |groups| > 1 ==>
      && GreedyPacking(groups[1..], PiecesIn(groups[1..]), chunkSize, overlap)
      && Follows(groups[0], groups[1], chunkSize, overlap)
      && PiecesIn(groups[1..])[0] == groups[1].pieces[0]
  {
    var later := groups[1..];
    forall k | 0 <= k < |later| - 1 ensures Follows(later[k], later[k + 1], chunkSize, overlap) {
      assert Follows(groups[k + 1], groups[k + 2], chunkSize, overlap);
    }
  }

  /** A first group cannot be longer than another greedy packing's first group. */
  lemma FirstGroupMaximal(gs: seq<Group>, hs: seq<Group>, pieces: seq<Str>, chunkSize: int, overlap: int)
    requires GreedyPacking(gs, pieces, chunkSize, overlap) && GreedyPacking(hs, pieces, chunkSize, overlap)
    requires gs[0].overlap == hs[0].overlap
    requires gs[0].overlap != [] ==> gs[0].pieces != [] && hs[0].pieces != []
    requires forall p :: p in pieces ==> p != []
    ensures |hs[0].pieces| <= |gs[0].pieces|
  {
    PackingHead(gs, pieces, chunkSize, overlap);
    PackingHead(hs, pieces, chunkSize, overlap);
    var g, h := gs[0], hs[0];
    assert Fits(h, chunkSize);
    if |g.pieces| < |h.pieces| {
      var n := |g.pieces|;
      assert h.pieces == pieces[..|h.pieces|];
      assert g.pieces == h.pieces[..n];
      assert forall p :: p in h.pieces ==> p in pieces;
      assert |gs| > 1;
      assert h.pieces[n] == pieces[n] == gs[1].pieces[0];
      assert Follows(g, gs[1], chunkSize, overlap);
      assert |Render(g)| + |h.pieces[n]| + 1 > chunkSize;
      GluePrefixLength(h.overlap, h.pieces, n);
    }
  }

  /** The greedy rule determines the packing: any two packings that obey it are the same. */
  lemma {:induction false} PackingUnique(gs: seq<Group>, hs: seq<Group>, pieces: seq<Str>, chunkSize: int, overlap: int)
    requires GreedyPacking(gs, pieces, chunkSize, overlap) && GreedyPacking(hs, pieces, chunkSize, overlap)
    requires gs[0].overlap == hs[0].overlap
    requires gs[0].overlap != [] ==> gs[0].pieces != [] && hs[0].pieces != []
    requires forall p :: p in pieces ==> p != []
    ensures gs == hs
    decreases |gs|
  {
    FirstGroupMaximal(gs, hs, pieces, chunkSize, overlap);
    FirstGroupMaximal(hs, gs, pieces, chunkSize, overlap);
    PackingHead(gs, pieces, chunkSize, overlap);
    PackingHead(hs, pieces, chunkSize, overlap);
    var n := |gs[0].pieces|;
    assert gs[0].pieces == pieces[..n] == hs[0].pieces;
    assert PiecesIn(gs[1..]) == pieces[n..] == PiecesIn(hs[1..]);
    if |gs| > 1 && |hs| > 1 {
      assert forall p :: p in pieces[n..] ==> p in pieces;
      PackingUnique(gs[1..], hs[1..], pieces[n..], chunkSize, overlap);
    }
    assert gs == [gs[0]] + gs[1..] && hs == [hs[0]] + hs[1..];
  }
}
