/** Which texts yield no chunks at all. */
module Vanishing {
  import opened Splitting
  import opened Text
  import opened TextSplitter

  const MARKS: set<CodeUnit> := {DOT, BANG, QUESTION}

  // ---------- the condition ----------

  /** Every part of the text between occurrences of "! " is blank or longer than the chunk size. */
  predicate LongClauses(text: Str, chunkSize: int) {
    forall p :: p in SplitOn(text, [BANG, SPACE]) ==> IsBlank(p) || |p| > chunkSize
  }

  /** So is every part between occurrences of ". ", and its clauses are long, too. */
  predicate LongSentences(text: Str, chunkSize: int) {
    forall p :: p in SplitOn(text, [DOT, SPACE]) ==> IsBlank(p) || (|p| > chunkSize && LongClauses(p, chunkSize))
  }

  /** So is every line, and its sentences are long, too. */
  predicate LongLines(text: Str, chunkSize: int) {
    forall p :: p in SplitOn(text, [NEWLINE]) ==> IsBlank(p) || (|p| > chunkSize && LongSentences(p, chunkSize))
  }

  // ---------- parts of a split ----------

  lemma {:induction false} JoinBlank(parts: seq<Str>, sep: Str)
    requires IsBlank(sep) && forall p :: p in parts ==> IsBlank(p)
    ensures IsBlank(Join(parts, sep))
  {
    if |parts| == 1 {
      assert parts[0] in parts;
    } else if parts != [] {
      assert parts[0] in parts && forall p :: p in parts[1..] ==> p in parts;
      JoinBlank(parts[1..], sep);
    }
  }

  /** Cutting at white space leaves something that is not blank of a text that is not. */
  lemma NonBlankPart(s: Str, sep: Str) returns (p: Str)
    requires IsBlank(sep) && !IsBlank(s)
    ensures p in SplitOn(s, sep) && !IsBlank(p)
  {
    JoinSplit(s, sep);
    if forall p :: p in SplitOn(s, sep) ==> IsBlank(p) {
      JoinBlank(SplitOn(s, sep), sep);
    }
    p :| p in SplitOn(s, sep) && !IsBlank(p);
  }

  // ---------- when no piece survives ----------

  /** Nothing of the text survives the cuts at these separators: it is blank, or it is cut and nothing of
      its parts survives. */
  predicate Lost(text: Str, separators: seq<Str>, chunkSize: int)
    decreases |separators|
  {
    || IsBlank(text)
    || (|text| > chunkSize && separators != []
        && forall p :: p in SplitOn(text, separators[0]) ==> Lost(p, separators[1..], chunkSize))
  }

  predicate AllBlank(pieces: seq<Str>) {
    forall p :: p in pieces ==> IsBlank(p)
  }

  lemma {:induction false} PartLost(p: Str, remaining: seq<Str>, chunkSize: int)
    ensures AllBlank(PiecesOfPart(p, remaining, chunkSize)) <==> Lost(p, remaining, chunkSize)
    decreases |remaining|, 0
  {
    if |p| > chunkSize && remaining != [] {
      var splits := SplitOn(p, remaining[0]);
      var pieces := PiecesOfAll(splits, remaining[1..], chunkSize);
      AllPartsLost(splits, remaining[1..], chunkSize);
      NonBlankMembers(pieces);
      if IsBlank(p) {
        forall q | q in splits ensures Lost(q, remaining[1..], chunkSize) {
          PartOfText(p, remaining[0], q);
        }
      }
    } else {
      assert p in [p];
    }
  }

  lemma {:induction false} AllPartsLost(splits: seq<Str>, remaining: seq<Str>, chunkSize: int)
    ensures AllBlank(PiecesOfAll(splits, remaining, chunkSize)) <==> forall q :: q in splits ==> Lost(q, remaining, chunkSize)
    decreases |remaining|, 1 + |splits|
  {
    if splits != [] {
      PartLost(splits[0], remaining, chunkSize);
      AllPartsLost(splits[1..], remaining, chunkSize);
      AllBlankAppend(PiecesOfPart(splits[0], remaining, chunkSize), PiecesOfAll(splits[1..], remaining, chunkSize));
      assert forall q :: q in splits <==> q == splits[0] || q in splits[1..];
    }
  }

  lemma AllBlankAppend(a: seq<Str>, b: seq<Str>)
    ensures AllBlank(a + b) <==> AllBlank(a) && AllBlank(b)
  {
    assert forall p :: p in a + b <==> p in a || p in b;
  }

  lemma NoChunksIffLost(text: Str, chunkSize: int, overlap: int)
    ensures Chunks(text, chunkSize, overlap) == [] <==> Lost(text, SEPARATORS, chunkSize)
  {
    ChunksMeetSpec(text, chunkSize, overlap);
    PartLost(text, SEPARATORS, chunkSize);
    PiecesBounded(text, SEPARATORS, chunkSize);
    var pieces := PiecesOf(text, chunkSize);
    assert pieces == PiecesOfPart(text, SEPARATORS, chunkSize);
    assert pieces != [] ==> pieces[0] in pieces;
  }

  // ---------- discardable text, unit by unit ----------

  /** White space, or a sentence mark with a space behind it. */
  predicate PureAt(t: Str, k: nat)
    requires k < |t|
  {
    IsWhite(t[k]) || (t[k] in MARKS && k + 1 < |t| && t[k + 1] == SPACE)
  }

  predicate Pure(t: Str) {
    forall k :: 0 <= k < |t| ==> PureAt(t, k)
  }

  lemma {:induction false} DiscardableIffPure(t: Str)
    ensures Discardable(t) <==> Pure(t)
  {
    if t != [] {
      if IsWhite(t[0]) {
        DiscardableIffPure(t[1..]);
        PureTail(t, 1);
      } else if |t| >= 2 && t[0] in MARKS && t[1] == SPACE {
        DiscardableIffPure(t[2..]);
        PureTail(t, 2);
      } else {
        assert !PureAt(t, 0);
      }
    }
  }

  lemma PureTail(t: Str, n: nat)
    requires n <= |t| && forall k :: 0 <= k < n ==> PureAt(t, k)
    ensures Pure(t) <==> Pure(t[n..])
  {
    var tail := t[n..];
    forall k | 0 <= k < |tail| ensures PureAt(tail, k) <==> PureAt(t, n + k) {
      assert tail[k] == t[n + k];
    }
    if Pure(tail) {
      forall k | 0 <= k < |t| ensures PureAt(t, k) {
        if k >= n {
          assert PureAt(tail, k - n);
        }
      }
    }
  }

  /** No cut falls between a mark and its space, so the parts of a pure text are pure. */
  lemma {:induction false} PurePartFrom(s: Str, sep: Str, from: nat, p: Str)
    requires Pure(s) && sep != [] && sep[0] != SPACE
    requires from <= |s| && p in SplitFrom(s, sep, from)
    ensures Pure(p)
    decreases |s| - from
  {
    var i := CutPoint(s, sep, from);
    if i == -1 {
      PureSlice(s, from, |s|);
      assert s[from..|s|] == s[from..];
    } else if p == s[from..i] {
      IndexOfOccurs(s, sep, from);
      assert s[i] == s[i..i + |sep|][0] == sep[0];
      PureSlice(s, from, i);
    } else {
      PurePartFrom(s, sep, i + |sep|, p);
    }
  }

  lemma PureSlice(s: Str, from: nat, end: nat)
    requires Pure(s) && from <= end <= |s| && (end < |s| ==> s[end] != SPACE)
    ensures Pure(s[from..end])
  {
    var p := s[from..end];
    forall k | 0 <= k < |p| ensures PureAt(p, k) {
      assert PureAt(s, from + k) && p[k] == s[from + k];
    }
  }

  /** The parts of a pure text between marks of one kind hold no mark of that kind. */
  lemma PurePart(t: Str, mark: CodeUnit, p: Str)
    requires Pure(t) && mark in MARKS && p in SplitOn(t, [mark, SPACE])
    ensures Pure(p) && mark !in p && forall u :: u in p ==> u in t
  {
    PurePartFrom(t, [mark, SPACE], 0, p);
    PartOfText(t, [mark, SPACE], p);
    if mark in p {
      var k: nat :| k < |p| && p[k] == mark;
      assert PureAt(p, k);
      assert p[k..k + 2] == [mark, SPACE];
      SplitPartsLackSeparator(t, [mark, SPACE], 0, p, k);
    }
  }

  lemma PureWithoutMarks(t: Str)
    requires Pure(t) && DOT !in t && BANG !in t && QUESTION !in t
    ensures IsBlank(t)
  {
    forall k | 0 <= k < |t| ensures IsWhite(t[k]) {
      assert PureAt(t, k) && t[k] in t;
    }
  }

  // ---------- level by level ----------

  /** What is left between question marks is blank, whatever its length. */
  lemma LostAtQuestions(t: Str, chunkSize: int)
    requires Pure(t) && DOT !in t && BANG !in t
    ensures Lost(t, SEPARATORS[4..], chunkSize) <==> IsBlank(t) || |t| > chunkSize
  {
    assert SEPARATORS[4..][0] == [QUESTION, SPACE] && SEPARATORS[4..][1..] == SEPARATORS[5..];
    forall p | p in SplitOn(t, [QUESTION, SPACE]) ensures Lost(p, SEPARATORS[5..], chunkSize) {
      PurePart(t, QUESTION, p);
      PureWithoutMarks(p);
    }
  }

  lemma LostAtClauses(t: Str, chunkSize: int)
    requires Pure(t) && DOT !in t
    ensures Lost(t, SEPARATORS[3..], chunkSize) <==> IsBlank(t) || (|t| > chunkSize && LongClauses(t, chunkSize))
  {
    assert SEPARATORS[3..][0] == [BANG, SPACE] && SEPARATORS[3..][1..] == SEPARATORS[4..];
    forall p | p in SplitOn(t, [BANG, SPACE])
      ensures Lost(p, SEPARATORS[4..], chunkSize) <==> IsBlank(p) || |p| > chunkSize
    {
      PurePart(t, BANG, p);
      LostAtQuestions(p, chunkSize);
    }
  }

  lemma LostAtSentences(t: Str, chunkSize: int)
    requires Pure(t)
    ensures Lost(t, SEPARATORS[2..], chunkSize) <==> IsBlank(t) || (|t| > chunkSize && LongSentences(t, chunkSize))
  {
    assert SEPARATORS[2..][0] == [DOT, SPACE] && SEPARATORS[2..][1..] == SEPARATORS[3..];
    forall p | p in SplitOn(t, [DOT, SPACE])
      ensures Lost(p, SEPARATORS[3..], chunkSize) <==> IsBlank(p) || (|p| > chunkSize && LongClauses(p, chunkSize))
    {
      PurePart(t, DOT, p);
      LostAtClauses(p, chunkSize);
    }
  }

  /** A text that is not blank has a line that is not, so long lines make it long. */
  lemma LongLinesMeanLong(t: Str, chunkSize: int)
    ensures LongLines(t, chunkSize) ==> IsBlank(t) || |t| > chunkSize
    ensures IsBlank(t) ==> LongLines(t, chunkSize)
  {
    if IsBlank(t) {
      forall p | p in SplitOn(t, [NEWLINE]) ensures IsBlank(p) {
        PartOfText(t, [NEWLINE], p);
      }
    } else {
      var p := NonBlankPart(t, [NEWLINE]);
      PartOfText(t, [NEWLINE], p);
    }
  }

  lemma LostAtLines(t: Str, chunkSize: int)
    requires Pure(t)
    ensures Lost(t, SEPARATORS[1..], chunkSize) <==> LongLines(t, chunkSize)
  {
    assert SEPARATORS[1..][0] == [NEWLINE] && SEPARATORS[1..][1..] == SEPARATORS[2..];
    LongLinesMeanLong(t, chunkSize);
    forall p | p in SplitOn(t, [NEWLINE])
      ensures Lost(p, SEPARATORS[2..], chunkSize) <==> IsBlank(p) || (|p| > chunkSize && LongSentences(p, chunkSize))
    {
      PurePartFrom(t, [NEWLINE], 0, p);
      LostAtSentences(p, chunkSize);
    }
  }

  // ---------- lines and paragraphs ----------

  lemma {:induction false} IndexOfShift(s: Str, sep: Str, k: nat, from: nat)
    requires k <= from <= |s|
    ensures var i := IndexOf(s, sep, from);
      IndexOf(s[k..], sep, from - k) == if i == -1 then -1 else i - k
    decreases |s| - from
  {
    if from + |sep| <= |s| {
      assert s[k..][from - k..from - k + |sep|] == s[from..from + |sep|];
      if s[from..from + |sep|] != sep {
        IndexOfShift(s, sep, k, from + 1);
      }
    }
  }

  /** The line that starts at `from` ends at the next line break, `i`. */
  lemma NextLine(s: Str, from: nat, i: nat)
    requires from <= |s| && IndexOf(s, [NEWLINE], from) == i
    ensures i < |s| && SplitFrom(s, [NEWLINE], from) == [s[from..i]] + SplitFrom(s, [NEWLINE], i + 1)
  {
    SplitUnfold(s, [NEWLINE], from);
  }

  lemma ShiftedSlice(s: Str, tail: Str, k: nat, from: nat, end: nat)
    requires k <= from <= end <= |s| && tail == s[k..]
    ensures tail[from - k..end - k] == s[from..end]
  {
  }

  lemma ShiftedLast(s: Str, tail: Str, k: nat, from: nat)
    requires k <= from <= |s| && tail == s[k..]
    requires IndexOf(s, [NEWLINE], from) == -1 && IndexOf(tail, [NEWLINE], from - k) == -1
    ensures SplitFrom(tail, [NEWLINE], from - k) == SplitFrom(s, [NEWLINE], from)
  {
    SplitUnfold(s, [NEWLINE], from);
    SplitUnfold(tail, [NEWLINE], from - k);
    assert tail[from - k..] == s[from..];
  }

  lemma ShiftedLine(s: Str, tail: Str, k: nat, from: nat, i: nat)
    requires k <= from <= i < |s| && |tail| == |s| - k
    requires IndexOf(s, [NEWLINE], from) == i && IndexOf(tail, [NEWLINE], from - k) == i - k
    requires tail[from - k..i - k] == s[from..i]
    requires SplitFrom(tail, [NEWLINE], i + 1 - k) == SplitFrom(s, [NEWLINE], i + 1)
    ensures SplitFrom(tail, [NEWLINE], from - k) == SplitFrom(s, [NEWLINE], from)
  {
    NextLine(s, from, i);
    NextLine(tail, from - k, i - k);
    assert i - k + 1 == i + 1 - k;
  }

  lemma {:induction false} SplitShift(s: Str, tail: Str, k: nat, from: nat)
    requires k <= from <= |s| && tail == s[k..]
    ensures SplitFrom(tail, [NEWLINE], from - k) == SplitFrom(s, [NEWLINE], from)
    decreases |s| - from
  {
    IndexOfShift(s, [NEWLINE], k, from);
    var i := IndexOf(s, [NEWLINE], from);
    if i == -1 {
      ShiftedLast(s, tail, k, from);
    } else {
      ShiftedSlice(s, tail, k, from, i);
      SplitShift(s, tail, k, i + 1);
      ShiftedLine(s, tail, k, from, i);
    }
  }

  /** The next line break in the text up to the one at |a|. */
  lemma {:induction false} NextBreak(whole: Str, a: Str, from: nat)
    requires from <= |a| < |whole| && a == whole[..|a|] && whole[|a|] == NEWLINE
    ensures var i := IndexOf(a, [NEWLINE], from);
      IndexOf(whole, [NEWLINE], from) == if i == -1 then |a| else i
    decreases |a| - from
  {
    if from < |a| {
      assert a[from..from + 1] == whole[from..from + 1];
      if whole[from..from + 1] != [NEWLINE] {
        NextBreak(whole, a, from + 1);
      }
    } else {
      assert whole[from..from + 1] == [NEWLINE];
    }
  }

  lemma SameSlice(whole: Str, a: Str, from: nat, end: nat)
    requires from <= end <= |a| <= |whole| && a == whole[..|a|]
    ensures whole[from..end] == a[from..end]
  {
  }

  lemma LastLine(whole: Str, a: Str, b: Str, from: nat)
    requires from <= |a| < |whole| && a == whole[..|a|] && whole[|a|] == NEWLINE && b == whole[|a| + 1..]
    requires IndexOf(a, [NEWLINE], from) == -1
    ensures SplitFrom(whole, [NEWLINE], from) == SplitFrom(a, [NEWLINE], from) + SplitOn(b, [NEWLINE])
  {
    NextBreak(whole, a, from);
    SplitUnfold(whole, [NEWLINE], from);
    SplitUnfold(a, [NEWLINE], from);
    SplitShift(whole, b, |a| + 1, |a| + 1);
    SameSlice(whole, a, from, |a|);
    assert a[from..] == a[from..|a|];
  }

  lemma OneLineMore(line: Str, all: seq<Str>, first: seq<Str>, second: seq<Str>)
    requires all == first + second
    ensures [line] + all == [line] + first + second
  {
  }

  lemma {:induction false} LinesFrom(whole: Str, a: Str, b: Str, from: nat)
    requires from <= |a| < |whole| && a == whole[..|a|] && whole[|a|] == NEWLINE && b == whole[|a| + 1..]
    ensures SplitFrom(whole, [NEWLINE], from) == SplitFrom(a, [NEWLINE], from) + SplitOn(b, [NEWLINE])
    decreases |a| - from
  {
    var i := IndexOf(a, [NEWLINE], from);
    if i == -1 {
      LastLine(whole, a, b, from);
    } else {
      NextBreak(whole, a, from);
      SplitUnfold(whole, [NEWLINE], from);
      SplitUnfold(a, [NEWLINE], from);
      SameSlice(whole, a, from, i);
      LinesFrom(whole, a, b, i + 1);
      OneLineMore(whole[from..i], SplitFrom(whole, [NEWLINE], i + 1), SplitFrom(a, [NEWLINE], i + 1), SplitOn(b, [NEWLINE]));
    }
  }

  lemma LongLinesAppend(a: Str, b: Str, chunkSize: int)
    ensures LongLines(a + [NEWLINE] + b, chunkSize) <==> LongLines(a, chunkSize) && LongLines(b, chunkSize)
  {
    LinesFrom(a + [NEWLINE] + b, a, b, 0);
    var lines, more := SplitOn(a, [NEWLINE]), SplitOn(b, [NEWLINE]);
    assert forall p :: p in lines + more <==> p in lines || p in more;
  }

  /** A blank line between two texts adds no more than a blank line. */
  lemma LongLinesGap(a: Str, blank: Str, b: Str, chunkSize: int)
    requires IsBlank(blank)
    ensures LongLines(a + [NEWLINE] + (blank + [NEWLINE] + b), chunkSize)
       <==> LongLines(a, chunkSize) && LongLines(b, chunkSize)
  {
    LongLinesAppend(a, blank + [NEWLINE] + b, chunkSize);
    LongLinesAppend(blank, b, chunkSize);
    LongLinesMeanLong(blank, chunkSize);
  }

  lemma TwoBreaks(a: Str, b: Str)
    ensures a + ([NEWLINE, NEWLINE] + b) == a + [NEWLINE] + ([] + [NEWLINE] + b)
  {
  }

  /** Cutting into paragraphs first makes no difference to the lines, except for empty ones. */
  lemma {:induction false} LongLinesOfParagraphs(parts: seq<Str>, chunkSize: int)
    ensures LongLines(Join(parts, [NEWLINE, NEWLINE]), chunkSize) <==> forall p :: p in parts ==> LongLines(p, chunkSize)
  {
    if parts == [] {
      LongLinesMeanLong([], chunkSize);
    } else if |parts| == 1 {
      assert parts[0] in parts && forall p :: p in parts ==> p == parts[0];
    } else {
      LongLinesOfParagraphs(parts[1..], chunkSize);
      LongLinesGap(parts[0], [], Join(parts[1..], [NEWLINE, NEWLINE]), chunkSize);
      TwoBreaks(parts[0], Join(parts[1..], [NEWLINE, NEWLINE]));
      assert forall p :: p in parts <==> p == parts[0] || p in parts[1..];
    }
  }

  lemma LostAtParagraphs(t: Str, chunkSize: int)
    requires Pure(t)
    ensures Lost(t, SEPARATORS, chunkSize) <==> LongLines(t, chunkSize)
  {
    assert SEPARATORS[0] == [NEWLINE, NEWLINE];
    LongLinesMeanLong(t, chunkSize);
    JoinSplit(t, [NEWLINE, NEWLINE]);
    LongLinesOfParagraphs(SplitOn(t, [NEWLINE, NEWLINE]), chunkSize);
    forall p | p in SplitOn(t, [NEWLINE, NEWLINE])
      ensures Lost(p, SEPARATORS[1..], chunkSize) <==> LongLines(p, chunkSize)
    {
      PurePartFrom(t, [NEWLINE, NEWLINE], 0, p);
      LostAtLines(p, chunkSize);
    }
  }

  // ---------- the exact condition ----------

  /** A text yields no chunks if and only if it is nothing but white space and sentence marks followed by a
      space, and every line of it, every sentence of such a line and every clause of such a sentence is
      blank or longer than the chunk size. */
  lemma VanishesIff(text: Str, chunkSize: int, overlap: int)
    ensures Chunks(text, chunkSize, overlap) == [] <==> Discardable(text) && LongLines(text, chunkSize)
  {
    NoChunksIffLost(text, chunkSize, overlap);
    DiscardableIffPure(text);
    if Discardable(text) {
      LostAtParagraphs(text, chunkSize);
    } else {
      SplitLosesNoContent(text, chunkSize, overlap);
    }
  }

  /** A pure text that is not blank has a mark and a space. */
  lemma PureIsBlankOrLong(t: Str)
    requires Pure(t)
    ensures IsBlank(t) || |t| > 1
  {
    if |t| == 1 {
      assert PureAt(t, 0);
    }
  }

  lemma TinyChunksAreLong(t: Str, chunkSize: int)
    requires Pure(t) && chunkSize <= 1
    ensures LongLines(t, chunkSize)
  {
    forall line | line in SplitOn(t, [NEWLINE])
      ensures IsBlank(line) || (|line| > chunkSize && LongSentences(line, chunkSize))
    {
      PurePartFrom(t, [NEWLINE], 0, line);
      PureIsBlankOrLong(line);
      forall p | p in SplitOn(line, [DOT, SPACE]) ensures IsBlank(p) || (|p| > chunkSize && LongClauses(p, chunkSize)) {
        PurePart(line, DOT, p);
        PureIsBlankOrLong(p);
        forall q | q in SplitOn(p, [BANG, SPACE]) ensures IsBlank(q) || |q| > chunkSize {
          PurePart(p, BANG, q);
          PureIsBlankOrLong(q);
        }
      }
    }
  }

  /** With chunks of a single unit, every discardable text vanishes. */
  lemma TinyVanishesIff(text: Str, chunkSize: int, overlap: int)
    requires chunkSize <= 1
    ensures Chunks(text, chunkSize, overlap) == [] <==> Discardable(text)
  {
    VanishesIff(text, chunkSize, overlap);
    DiscardableIffPure(text);
    if Discardable(text) {
      TinyChunksAreLong(text, chunkSize);
    }
  }

  /** A text need not be blank to vanish: here it is nothing but a sentence separator. */
  lemma VanishingText()
    ensures !IsBlank([DOT, SPACE]) && Chunks([DOT, SPACE], 1, 0) == []
  {
    var text := [DOT, SPACE];
    assert text[0] == DOT && text[2..] == [];
    TinyVanishesIff(text, 1, 0);
  }
}
