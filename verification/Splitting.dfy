/** The splitter end to end: what `split` promises about its chunks for every text. */
module Splitting {
  import opened Common
  import opened Text
  import opened TextSplitter
  import opened ChunkMerge

  function PiecesOf(text: Str, chunkSize: int): seq<Str> {
    Pieces(text, SEPARATORS, chunkSize)
  }

  function GroupsOf(text: Str, chunkSize: int, overlap: int): seq<Group> {
    Groups(PiecesOf(text, chunkSize), chunkSize, overlap)
  }

  function Chunks(text: Str, chunkSize: int, overlap: int): seq<Str> {
    ChunkTexts(GroupsOf(text, chunkSize, overlap))
  }

  method Split(text: Str, chunkSize: int, chunkOverlap: int) returns (chunks: seq<Str>)
    ensures chunks == Chunks(text, chunkSize, chunkOverlap)
  {
    var pieces := RecursiveSplit(text, SEPARATORS, chunkSize);
    chunks := MergeChunksWithOverlap(pieces, chunkSize, chunkOverlap);
  }

  // ---------- shape and size of the chunks ----------

  /** Every text either vanishes in the recursive split, or has only non-blank, bounded pieces. */
  lemma PieceCases(text: Str, chunkSize: int)
    ensures var pieces := PiecesOf(text, chunkSize);
      || pieces == []
      || (pieces == [text] && IsBlank(text))
      || (!IsBlank(text) && forall p :: p in pieces ==> !IsBlank(p) && p != [] && |p| <= Max(chunkSize, 1))
  {
    PiecesBounded(text, SEPARATORS, chunkSize);
    var pieces := PiecesOf(text, chunkSize);
    if pieces != [] && |text| > chunkSize {
      NoContentLost(text, chunkSize);
      ContentShows(pieces, text);
      assert forall p :: p in pieces ==> !IsBlank(p) && p != [];
    }
  }

  /** A text with a piece that is not blank is not blank. */
  lemma ContentShows(pieces: seq<Str>, text: Str)
    requires pieces != [] && CarvedFrom(pieces, text) && !IsBlank(pieces[0])
    ensures !IsBlank(text)
  {
    var gap, rest := CarvedElim(pieces, text);
    var k: nat :| k < |pieces[0]| && !IsWhite(pieces[0][k]);
    assert text[|gap| + k] == pieces[0][k];
  }

  function ChunkText(g: Group): Str {
    (if g.overlap == [] then [] else g.overlap + [SPACE]) + Join(g.pieces, [SPACE])
  }

  /** What is known of one chunk, given the group it renders. */
  ghost predicate ChunkOf(chunk: Str, g: Group, chunkSize: int, overlap: int) {
    && chunk == Trim(ChunkText(g))
    && chunk != [] && IsTrimmed(chunk)
    && |chunk| <= Max(chunkSize, 1) + (if overlap > 0 then overlap + 1 else 0)
    && (|chunk| > Max(chunkSize, 1) ==> g.overlap != [] && |g.pieces| == 1)
  }

  /** There is one chunk for each group of the greedy packing of the pieces: the overlap with the
      previous group and a space, if there is an overlap, and the pieces joined by spaces, trimmed.
      It exceeds the chunk size only as an overlap in front of a single piece, and then by no more
      than the overlap and a space. There are no chunks just when no piece has any content. */
  lemma ChunksMeetSpec(text: Str, chunkSize: int, overlap: int)
    ensures var pieces, chunks := PiecesOf(text, chunkSize), Chunks(text, chunkSize, overlap);
      var groups := GroupsOf(text, chunkSize, overlap);
      if pieces == [] || IsBlank(text) then chunks == []
      else
        && GreedyPacking(groups, pieces, chunkSize, overlap)
        && groups[0].overlap == []
        && |chunks| == |groups|
        && forall k :: 0 <= k < |chunks| ==> ChunkOf(chunks[k], groups[k], chunkSize, overlap)
  {
    var pieces := PiecesOf(text, chunkSize);
    var groups := GroupsOf(text, chunkSize, overlap);
    PieceCases(text, chunkSize);
    if pieces == [] || IsBlank(text) {
      NothingFromBlank(text, chunkSize, overlap);
    } else {
      PackShape(Group([], []), pieces, chunkSize, overlap);
      assert [] + pieces == pieces && PackedWell(Group([], []), pieces, chunkSize, overlap);
      forall k | 0 <= k < |groups|
        ensures ChunkOf(Trim(Render(groups[k])), groups[k], chunkSize, overlap)
      {
        GroupChunk(groups, k, pieces, chunkSize, overlap);
      }
      TextsOfNonBlank(groups);
    }
  }

  lemma NothingFromBlank(text: Str, chunkSize: int, overlap: int)
    requires PiecesOf(text, chunkSize) == [] || (PiecesOf(text, chunkSize) == [text] && IsBlank(text))
    ensures Chunks(text, chunkSize, overlap) == []
  {
    BlankIff([]);
    BlankIff(text);
    if PiecesOf(text, chunkSize) == [text] {
      GlueSnoc([], [], text);
      assert [text][..1] == [text] && [] + [text] == [text] && [text][1..] == [];
      assert Render(Group([], [])) == [];
      assert GroupsOf(text, chunkSize, overlap) == Pack(Group([], [text]), [], chunkSize, overlap);
    }
  }

  lemma {:induction false} PiecesInMembers(groups: seq<Group>, k: nat)
    requires k < |groups|
    ensures forall p :: p in groups[k].pieces ==> p in PiecesIn(groups)
  {
    if k > 0 {
      PiecesInMembers(groups[1..], k - 1);
    }
  }

  lemma GroupChunk(groups: seq<Group>, k: nat, pieces: seq<Str>, chunkSize: int, overlap: int)
    requires GreedyPacking(groups, pieces, chunkSize, overlap) && groups[0].overlap == [] && k < |groups|
    requires pieces != [] && forall p :: p in pieces ==> !IsBlank(p) && p != [] && |p| <= Max(chunkSize, 1)
    ensures ChunkOf(Trim(Render(groups[k])), groups[k], chunkSize, overlap)
  {
    var g := groups[k];
    PiecesInMembers(groups, k);
    assert g.pieces != [] by {
      if k > 0 {
        assert Follows(groups[k - 1], groups[k], chunkSize, overlap);
      } else if |groups| > 1 {
        assert Follows(groups[0], groups[1], chunkSize, overlap);
      } else {
        assert pieces == g.pieces + PiecesIn(groups[1..]);
      }
    }
    assert |g.overlap| <= Max(overlap, 0) by {
      if k > 0 {
        assert Follows(groups[k - 1], groups[k], chunkSize, overlap);
        var _ := OverlapMaximal(Render(groups[k - 1]), overlap);
      }
    }
    assert Fits(g, chunkSize);
    TrimmedChunk(g, chunkSize, overlap);
  }

  lemma TrimmedChunk(g: Group, chunkSize: int, overlap: int)
    requires Fits(g, chunkSize) && |g.overlap| <= Max(overlap, 0)
    requires g.pieces != [] && forall p :: p in g.pieces ==> !IsBlank(p) && p != [] && |p| <= Max(chunkSize, 1)
    ensures ChunkOf(Trim(Render(g)), g, chunkSize, overlap)
  {
    RenderIsJoin(g.overlap, g.pieces);
    var l, r := TrimShape(Render(g));
    var last := g.pieces[|g.pieces| - 1];
    assert last in g.pieces;
    assert !IsBlank(Render(g)) by {
      EndsWithPiece(GlueAll(g.overlap, g.pieces[..|g.pieces| - 1]), last);
    }
    if |g.pieces| == 1 {
      assert |Render(g)| == |last| + if g.overlap == [] then 0 else |g.overlap| + 1;
    }
  }

  lemma EndsWithPiece(current: Str, piece: Str)
    requires !IsBlank(piece)
    ensures !IsBlank(Glue(current, piece))
  {
    var text := Glue(current, piece);
    var i: nat :| i < |piece| && !IsWhite(piece[i]);
    assert text[|text| - |piece| + i] == piece[i];
  }

  lemma {:induction false} TextsOfNonBlank(groups: seq<Group>)
    requires groups != [] && forall k :: 0 <= k < |groups| ==> Trim(Render(groups[k])) != []
    ensures |ChunkTexts(groups)| == |groups|
    ensures forall k :: 0 <= k < |groups| ==> ChunkTexts(groups)[k] == Trim(Render(groups[k]))
  {
    if |groups| > 1 {
      TextsOfNonBlank(groups[1..]);
    }
  }

  // ---------- no content is lost ----------

  /** The pieces the chunks are made of are consecutive, non-overlapping substrings of the text, in
      order; what lies between them is white space and sentence marks followed by a space. */
  lemma SplitLosesNoContent(text: Str, chunkSize: int, overlap: int)
    ensures CarvedFrom(PiecesIn(GroupsOf(text, chunkSize, overlap)), text)
    ensures Erase(Flatten(PiecesIn(GroupsOf(text, chunkSize, overlap)))) == Erase(text)
    ensures Chunks(text, chunkSize, overlap) == [] ==> Discardable(text)
  {
    var pieces := PiecesOf(text, chunkSize);
    PieceCases(text, chunkSize);
    NoContentLost(text, chunkSize);
    PackKeepsPieces(Group([], []), pieces, chunkSize, overlap);
    assert [] + pieces == pieces;
    ChunksMeetSpec(text, chunkSize, overlap);
    if IsBlank(text) {
      BlankIsDiscardable(text);
    }
  }

  lemma {:induction false} PackKeepsPieces(open: Group, rest: seq<Str>, chunkSize: int, overlap: int)
    ensures PiecesIn(Pack(open, rest, chunkSize, overlap)) == open.pieces + rest
    decreases |rest|
  {
    var groups := Pack(open, rest, chunkSize, overlap);
    if rest == [] {
      assert groups == [open] && PiecesIn(groups[1..]) == [];
    } else if Render(open) == [] || |Render(open)| + |rest[0]| + 1 <= chunkSize {
      PackKeepsPieces(Group(open.overlap, open.pieces + rest[..1]), rest[1..], chunkSize, overlap);
      assert open.pieces + rest[..1] + rest[1..] == open.pieces + rest;
    } else {
      PackKeepsPieces(Group(OverlapText(Render(open), overlap), rest[..1]), rest[1..], chunkSize, overlap);
      assert rest[..1] + rest[1..] == rest;
    }
  }

  /** What the chunks say beyond the overlaps they begin with. */
  function NewContent(chunks: seq<Str>, overlaps: seq<Str>): Str
    requires |chunks| == |overlaps|
  {
    if chunks == [] then []
    else
      var content, overlap := Erase(chunks[0]), Erase(overlaps[0]);
      (if overlap <= content then content[|overlap|..] else content) + NewContent(chunks[1..], overlaps[1..])
  }

  /** Every chunk begins with its overlap; without the overlaps the chunks reproduce the text, up to
      white space and sentence marks. */
  lemma ChunksReproduceText(text: Str, chunkSize: int, overlap: int)
    ensures var chunks, groups := Chunks(text, chunkSize, overlap), GroupsOf(text, chunkSize, overlap);
      if chunks == [] then Erase(text) == []
      else
        var overlaps := OverlapsOf(groups);
        && |chunks| == |overlaps|
        && (forall k :: 0 <= k < |chunks| ==> Erase(overlaps[k]) <= Erase(chunks[k]))
        && NewContent(chunks, overlaps) == Erase(text)
    ensures overlap <= 0 ==> Erase(Flatten(Chunks(text, chunkSize, overlap))) == Erase(text)
  {
    var chunks, groups := Chunks(text, chunkSize, overlap), GroupsOf(text, chunkSize, overlap);
    ChunksMeetSpec(text, chunkSize, overlap);
    SplitLosesNoContent(text, chunkSize, overlap);
    if chunks == [] {
      EraseDiscardable(text);
    } else {
      forall k | 0 <= k < |groups|
        ensures chunks[k] == Trim(ChunkText(groups[k])) && (overlap <= 0 ==> groups[k].overlap == [])
      {
        assert ChunkOf(chunks[k], groups[k], chunkSize, overlap);
        if k > 0 && overlap <= 0 {
          assert Follows(groups[k - 1], groups[k], chunkSize, overlap);
          EmptyOverlap(Render(groups[k - 1]), overlap);
        }
      }
      EraseChunks(chunks, groups);
      if overlap <= 0 {
        NothingButNew(chunks, OverlapsOf(groups));
      }
    }
  }

  function OverlapsOf(groups: seq<Group>): (overlaps: seq<Str>)
    ensures |overlaps| == |groups| && forall k :: 0 <= k < |groups| ==> overlaps[k] == groups[k].overlap
  {
    if groups == [] then [] else [groups[0].overlap] + OverlapsOf(groups[1..])
  }

  lemma EraseSpaced(overlap: Str)
    ensures Erase(overlap + [SPACE]) == Erase(overlap)
  {
    EraseAppend(overlap, [SPACE]);
    assert EraseUnit(SPACE) == [] && [SPACE][1..] == [] && Erase([SPACE]) == [];
  }

  lemma EraseChunk(g: Group)
    ensures Erase(Trim(ChunkText(g))) == Erase(g.overlap) + Erase(Flatten(g.pieces))
  {
    var lead := if g.overlap == [] then [] else g.overlap + [SPACE];
    var tail := Join(g.pieces, [SPACE]);
    EraseTrim(lead + tail);
    EraseJoin(g.pieces);
    EraseAppend(lead, tail);
    assert Erase(lead) == Erase(g.overlap) by {
      EraseSpaced(g.overlap);
    }
  }

  lemma {:induction false} EraseChunks(chunks: seq<Str>, groups: seq<Group>)
    requires |chunks| == |groups|
    requires forall k :: 0 <= k < |chunks| ==> chunks[k] == Trim(ChunkText(groups[k]))
    ensures forall k :: 0 <= k < |chunks| ==> Erase(groups[k].overlap) <= Erase(chunks[k])
    ensures NewContent(chunks, OverlapsOf(groups)) == Erase(Flatten(PiecesIn(groups)))
  {
    if groups != [] {
      EraseChunks(chunks[1..], groups[1..]);
      EraseChunk(groups[0]);
      forall k | 0 <= k < |chunks| ensures Erase(groups[k].overlap) <= Erase(chunks[k]) {
        EraseChunk(groups[k]);
      }
      assert OverlapsOf(groups)[1..] == OverlapsOf(groups[1..]);
      FlattenAppend(groups[0].pieces, PiecesIn(groups[1..]));
      EraseAppend(Flatten(groups[0].pieces), Flatten(PiecesIn(groups[1..])));
    }
  }

  lemma {:induction false} NothingButNew(chunks: seq<Str>, overlaps: seq<Str>)
    requires |chunks| == |overlaps| && forall k :: 0 <= k < |overlaps| ==> overlaps[k] == []
    ensures NewContent(chunks, overlaps) == Erase(Flatten(chunks))
  {
    if chunks != [] {
      NothingButNew(chunks[1..], overlaps[1..]);
      EraseAppend(chunks[0], Flatten(chunks[1..]));
    }
  }

  lemma {:induction false} EraseJoin(pieces: seq<Str>)
    ensures Erase(Join(pieces, [SPACE])) == Erase(Flatten(pieces))
  {
    if |pieces| == 1 {
      assert Flatten(pieces) == pieces[0] + Flatten(pieces[1..]) == pieces[0];
    } else if |pieces| > 1 {
      var joined := Join(pieces[1..], [SPACE]);
      EraseJoin(pieces[1..]);
      EraseAppend(pieces[0], [SPACE] + joined);
      assert ([SPACE] + joined)[1..] == joined;
      assert EraseUnit(SPACE) + Erase(joined) == Erase(joined);
      EraseAppend(pieces[0], Flatten(pieces[1..]));
    }
  }

  lemma EraseTrim(s: Str)
    ensures Erase(Trim(s)) == Erase(s)
  {
    var l, r := TrimShape(s);
    BlankIsDiscardable(l);
    BlankIsDiscardable(r);
    EraseDiscardable(l);
    EraseDiscardable(r);
    EraseAppend(l, Trim(s));
    EraseAppend(l + Trim(s), r);
  }

  // ---------- greedy packing is optimal ----------

  /** The length of a chunk of length `current` after gluing the pieces to it. */
  function GluedLength(current: nat, pieces: seq<Str>): nat
    decreases |pieces|
  {
    if pieces == [] then current
    else GluedLength(if current == 0 then |pieces[0]| else current + 1 + |pieces[0]|, pieces[1..])
  }

  lemma {:induction false} GluedLengthIsJoin(current: nat, pieces: seq<Str>)
    requires forall p :: p in pieces ==> p != []
    ensures GluedLength(current, pieces) == (if current == 0 || pieces == [] then current else current + 1) + |Join(pieces, [SPACE])|
    ensures GluedLength(current, pieces) >= current
    decreases |pieces|
  {
    if pieces != [] {
      assert pieces[0] in pieces && forall p :: p in pieces[1..] ==> p in pieces;
      GluedLengthIsJoin(if current == 0 then |pieces[0]| else current + 1 + |pieces[0]|, pieces[1..]);
    }
  }

  /** Greedy stays ahead. A competitor has a chunk of length `current` open, which still takes
      `taking`, and fills `later` chunks after it. If greedy's open chunk is no longer than the
      competitor's, or greedy has closed one chunk less so far, it never falls behind. */
  lemma {:induction false} GreedyStaysAhead(open: Group, current: nat, taking: seq<Str>, later: seq<seq<Str>>,
                                            lead: bool, chunkSize: int, overlap: int)
    requires overlap <= 0
    requires forall p :: p in taking ==> p != []
    requires forall g, p :: g in later && p in g ==> p != []
    requires GluedLength(current, taking) <= chunkSize
    requires forall g :: g in later ==> GluedLength(0, g) <= chunkSize
    requires lead || |Render(open)| <= current
    ensures |Pack(open, taking + Flatten(later), chunkSize, overlap)| <= 1 + |later| + if lead then 1 else 0
    decreases |later|, |taking|
  {
    if taking == [] {
      if later != [] {
        assert forall g :: g in later[1..] ==> g in later;
        assert later[0] in later;
        GreedyStaysAhead(open, 0, later[0], later[1..], true, chunkSize, overlap);
        assert taking + Flatten(later) == later[0] + Flatten(later[1..]);
      }
    } else {
      var piece, rest := taking[0], taking[1..] + Flatten(later);
      var grown := if current == 0 then |piece| else current + 1 + |piece|;
      assert piece in taking && forall p :: p in taking[1..] ==> p in taking;
      GluedLengthIsJoin(grown, taking[1..]);
      var all := taking + Flatten(later);
      assert all[..1] == [piece] && all[1..] == rest && all[0] == piece;
      if Render(open) == [] || |Render(open)| + |piece| + 1 <= chunkSize {
        GlueSnoc(open.overlap, open.pieces, piece);
        GreedyStaysAhead(Group(open.overlap, open.pieces + [piece]), grown, taking[1..], later, lead, chunkSize, overlap);
      } else {
        EmptyOverlap(Render(open), overlap);
        GlueSnoc([], [], piece);
        assert [] + [piece] == [piece];
        GreedyStaysAhead(Group([], [piece]), grown, taking[1..], later, false, chunkSize, overlap);
      }
    }
  }

  lemma {:induction false} FlattenMembers(parts: seq<seq<Str>>, g: seq<Str>, p: Str)
    requires g in parts && p in g
    ensures p in Flatten(parts)
  {
    if g != parts[0] {
      FlattenMembers(parts[1..], g, p);
    }
  }

  /** Without overlap, no way of cutting the pieces into consecutive groups that fit the chunk
      size needs fewer chunks than the splitter. */
  lemma GreedyIsOptimal(text: Str, chunkSize: int, overlap: int, partition: seq<seq<Str>>)
    requires overlap <= 0
    requires Flatten(partition) == PiecesOf(text, chunkSize)
    requires forall g :: g in partition ==> |Join(g, [SPACE])| <= chunkSize
    ensures |Chunks(text, chunkSize, overlap)| <= |partition|
  {
    PieceCases(text, chunkSize);
    ChunksMeetSpec(text, chunkSize, overlap);
    if PiecesOf(text, chunkSize) != [] && !IsBlank(text) {
      forall g | g in partition
        ensures GluedLength(0, g) <= chunkSize && forall p :: p in g ==> p != []
      {
        forall p | p in g ensures p != [] {
          FlattenMembers(partition, g, p);
        }
        GluedLengthIsJoin(0, g);
      }
      assert partition[0] in partition && forall g :: g in partition[1..] ==> g in partition;
      GreedyStaysAhead(Group([], []), 0, partition[0], partition[1..], false, chunkSize, overlap);
    }
  }

  function PieceGroups(groups: seq<Group>): (parts: seq<seq<Str>>)
    ensures |parts| == |groups| && forall k :: 0 <= k < |parts| ==> parts[k] == groups[k].pieces
    ensures Flatten(parts) == PiecesIn(groups)
  {
    if groups == [] then [] else [groups[0].pieces] + PieceGroups(groups[1..])
  }

  /** The splitter's own packing is such a partition, so its number of chunks is the minimum. */
  lemma GreedyIsFeasible(text: Str, chunkSize: int, overlap: int)
    requires overlap <= 0 && chunkSize >= 1 && Chunks(text, chunkSize, overlap) != []
    ensures var partition := PieceGroups(GroupsOf(text, chunkSize, overlap));
      && Flatten(partition) == PiecesOf(text, chunkSize)
      && |partition| == |Chunks(text, chunkSize, overlap)|
      && forall g :: g in partition ==> |Join(g, [SPACE])| <= chunkSize
  {
    PieceCases(text, chunkSize);
    ChunksMeetSpec(text, chunkSize, overlap);
    var groups := GroupsOf(text, chunkSize, overlap);
    forall k | 0 <= k < |groups| ensures |Join(groups[k].pieces, [SPACE])| <= chunkSize {
      PiecesInMembers(groups, k);
      if k > 0 {
        assert Follows(groups[k - 1], groups[k], chunkSize, overlap);
        EmptyOverlap(Render(groups[k - 1]), overlap);
      }
      assert Fits(groups[k], chunkSize);
      if groups[k].pieces != [] {
        RenderIsJoin([], groups[k].pieces);
      }
    }
  }
}
