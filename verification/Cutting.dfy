/** Where the splitter cuts: which parts of a text are pieces, and where two pieces touch. */
module Cutting {
  import opened Common
  import opened Splitting
  import opened Text
  import opened TextSplitter

  // ---------- which parts are pieces ----------

  /** A part between occurrences of the separator that is short enough and not blank. */
  predicate ShortPart(text: Str, sep: Str, chunkSize: int, p: Str) {
    p in SplitOn(text, sep) && !IsBlank(p) && |p| <= chunkSize
  }

  predicate LongPart(text: Str, sep: Str, chunkSize: int, p: Str) {
    p in SplitOn(text, sep) && |p| > chunkSize
  }

  /** A single unit of the text. */
  predicate UnitOf(text: Str, p: Str) {
    |p| == 1 && !IsWhite(p[0]) && p[0] in text
  }

  /** The pieces of a long text are its short paragraphs; the short lines of its long paragraphs; the short
      sentences of long lines in these; and so on for clauses, questions and words, down to single units. */
  ghost predicate PieceOfText(text: Str, chunkSize: int, p: Str) {
    || ShortPart(text, [NEWLINE, NEWLINE], chunkSize, p)
    || exists q :: LongPart(text, [NEWLINE, NEWLINE], chunkSize, q) && PieceOfParagraph(q, chunkSize, p)
  }

  ghost predicate PieceOfParagraph(text: Str, chunkSize: int, p: Str) {
    || ShortPart(text, [NEWLINE], chunkSize, p)
    || exists q :: LongPart(text, [NEWLINE], chunkSize, q) && PieceOfLine(q, chunkSize, p)
  }

  ghost predicate PieceOfLine(text: Str, chunkSize: int, p: Str) {
    || ShortPart(text, [DOT, SPACE], chunkSize, p)
    || exists q :: LongPart(text, [DOT, SPACE], chunkSize, q) && PieceOfSentence(q, chunkSize, p)
  }

  ghost predicate PieceOfSentence(text: Str, chunkSize: int, p: Str) {
    || ShortPart(text, [BANG, SPACE], chunkSize, p)
    || exists q :: LongPart(text, [BANG, SPACE], chunkSize, q) && PieceOfClause(q, chunkSize, p)
  }

  ghost predicate PieceOfClause(text: Str, chunkSize: int, p: Str) {
    || ShortPart(text, [QUESTION, SPACE], chunkSize, p)
    || exists q :: LongPart(text, [QUESTION, SPACE], chunkSize, q) && PieceOfPhrase(q, chunkSize, p)
  }

  ghost predicate PieceOfPhrase(text: Str, chunkSize: int, p: Str) {
    || ShortPart(text, [SPACE], chunkSize, p)
    || exists q :: LongPart(text, [SPACE], chunkSize, q) && UnitOf(q, p)
  }

  lemma {:induction false} MembersOfAll(splits: seq<Str>, remaining: seq<Str>, chunkSize: int, p: Str)
    ensures p in PiecesOfAll(splits, remaining, chunkSize) <==>
      exists q :: q in splits && p in PiecesOfPart(q, remaining, chunkSize)
    decreases |splits|
  {
    if splits != [] {
      MembersOfAll(splits[1..], remaining, chunkSize, p);
      if p in PiecesOfPart(splits[0], remaining, chunkSize) {
        assert splits[0] in splits;
      } else if p in PiecesOfAll(splits[1..], remaining, chunkSize) {
        var q :| q in splits[1..] && p in PiecesOfPart(q, remaining, chunkSize);
        assert q in splits;
      }
      if q :| q in splits && p in PiecesOfPart(q, remaining, chunkSize) {
        assert q == splits[0] || q in splits[1..];
      }
    }
  }

  /** One level of the recursion, for a separator that is not the last. */
  lemma MembersOfLevel(text: Str, separators: seq<Str>, chunkSize: int, p: Str)
    requires |separators| > 1 && |text| > chunkSize
    requires separators[1..][|separators| - 2] == []
    ensures p in Pieces(text, separators, chunkSize) <==>
      || ShortPart(text, separators[0], chunkSize, p)
      || exists q :: LongPart(text, separators[0], chunkSize, q) && p in Pieces(q, separators[1..], chunkSize)
  {
    var splits, rest := SplitOn(text, separators[0]), separators[1..];
    MembersOfAll(splits, rest, chunkSize, p);
    NonBlankMembers(PiecesOfAll(splits, rest, chunkSize));
    forall q | q in splits && |q| > chunkSize && p in Pieces(q, rest, chunkSize) ensures !IsBlank(p) {
      PiecesBounded(q, rest, chunkSize);
    }
    if ShortPart(text, separators[0], chunkSize, p) {
      assert p in PiecesOfPart(p, rest, chunkSize);
    }
    if q :| LongPart(text, separators[0], chunkSize, q) && p in Pieces(q, rest, chunkSize) {
      assert p in PiecesOfPart(q, rest, chunkSize);
    }
  }

  lemma {:induction false} UnitsFrom(s: Str, from: nat, p: Str)
    requires from < |s|
    ensures p in SplitFrom(s, [], from) <==> |p| == 1 && p[0] in s[from..]
    decreases |s| - from
  {
    SplitUnfold(s, [], from);
    assert s[from..] == [s[from]] + s[from + 1..];
    assert |p| == 1 && p[0] == s[from] <==> p == [s[from]];
    if from + 1 < |s| {
      UnitsFrom(s, from + 1, p);
      assert SplitFrom(s, [], from) == [[s[from]]] + SplitFrom(s, [], from + 1) by {
        assert s[from..from + 1] == [s[from]];
      }
    } else {
      assert s[from..] == [s[from]];
    }
  }

  lemma MembersOfWord(word: Str, chunkSize: int, p: Str)
    requires |word| > chunkSize
    ensures p in Pieces(word, [[]], chunkSize) <==> UnitOf(word, p)
  {
    var splits := SplitOn(word, []);
    var last: seq<Str> := [[]];
    assert last[1..] == [];
    MembersOfAll(splits, [], chunkSize, p);
    NonBlankMembers(PiecesOfAll(splits, [], chunkSize));
    if word != [] {
      UnitsFrom(word, 0, p);
      assert word[0..] == word;
    }
    assert p in splits <==> p in PiecesOfAll(splits, [], chunkSize) by {
      if p in splits {
        assert p in PiecesOfPart(p, [], chunkSize);
      }
    }
  }

  lemma MembersOfPhrase(text: Str, chunkSize: int, p: Str)
    requires |text| > chunkSize
    ensures p in Pieces(text, SEPARATORS[5..], chunkSize) <==> PieceOfPhrase(text, chunkSize, p)
  {
    assert SEPARATORS[5..] == [[SPACE], []] && SEPARATORS[5..][1..] == [[]];
    MembersOfLevel(text, SEPARATORS[5..], chunkSize, p);
    forall q | LongPart(text, [SPACE], chunkSize, q) ensures p in Pieces(q, [[]], chunkSize) <==> UnitOf(q, p) {
      MembersOfWord(q, chunkSize, p);
    }
  }

  lemma MembersOfClause(text: Str, chunkSize: int, p: Str)
    requires |text| > chunkSize
    ensures p in Pieces(text, SEPARATORS[4..], chunkSize) <==> PieceOfClause(text, chunkSize, p)
  {
    assert SEPARATORS[4..][0] == [QUESTION, SPACE] && SEPARATORS[4..][1..] == SEPARATORS[5..];
    MembersOfLevel(text, SEPARATORS[4..], chunkSize, p);
    forall q | LongPart(text, [QUESTION, SPACE], chunkSize, q)
      ensures p in Pieces(q, SEPARATORS[5..], chunkSize) <==> PieceOfPhrase(q, chunkSize, p)
    {
      MembersOfPhrase(q, chunkSize, p);
    }
  }

  lemma MembersOfSentence(text: Str, chunkSize: int, p: Str)
    requires |text| > chunkSize
    ensures p in Pieces(text, SEPARATORS[3..], chunkSize) <==> PieceOfSentence(text, chunkSize, p)
  {
    assert SEPARATORS[3..][0] == [BANG, SPACE] && SEPARATORS[3..][1..] == SEPARATORS[4..];
    MembersOfLevel(text, SEPARATORS[3..], chunkSize, p);
    forall q | LongPart(text, [BANG, SPACE], chunkSize, q)
      ensures p in Pieces(q, SEPARATORS[4..], chunkSize) <==> PieceOfClause(q, chunkSize, p)
    {
      MembersOfClause(q, chunkSize, p);
    }
  }

  lemma MembersOfLine(text: Str, chunkSize: int, p: Str)
    requires |text| > chunkSize
    ensures p in Pieces(text, SEPARATORS[2..], chunkSize) <==> PieceOfLine(text, chunkSize, p)
  {
    assert SEPARATORS[2..][0] == [DOT, SPACE] && SEPARATORS[2..][1..] == SEPARATORS[3..];
    MembersOfLevel(text, SEPARATORS[2..], chunkSize, p);
    forall q | LongPart(text, [DOT, SPACE], chunkSize, q)
      ensures p in Pieces(q, SEPARATORS[3..], chunkSize) <==> PieceOfSentence(q, chunkSize, p)
    {
      MembersOfSentence(q, chunkSize, p);
    }
  }

  lemma MembersOfParagraph(text: Str, chunkSize: int, p: Str)
    requires |text| > chunkSize
    ensures p in Pieces(text, SEPARATORS[1..], chunkSize) <==> PieceOfParagraph(text, chunkSize, p)
  {
    assert SEPARATORS[1..][0] == [NEWLINE] && SEPARATORS[1..][1..] == SEPARATORS[2..];
    MembersOfLevel(text, SEPARATORS[1..], chunkSize, p);
    forall q | LongPart(text, [NEWLINE], chunkSize, q)
      ensures p in Pieces(q, SEPARATORS[2..], chunkSize) <==> PieceOfLine(q, chunkSize, p)
    {
      MembersOfLine(q, chunkSize, p);
    }
  }

  /** A text that fits is one piece; of a longer one, a string is a piece if and only if it is a part at the
      first level at which it fits. */
  lemma PieceIff(text: Str, chunkSize: int, p: Str)
    ensures |text| <= chunkSize ==> PiecesOf(text, chunkSize) == [text]
    ensures |text| > chunkSize ==> (p in PiecesOf(text, chunkSize) <==> PieceOfText(text, chunkSize, p))
  {
    if |text| > chunkSize {
      assert SEPARATORS[0] == [NEWLINE, NEWLINE];
      MembersOfLevel(text, SEPARATORS, chunkSize, p);
      forall q | LongPart(text, [NEWLINE, NEWLINE], chunkSize, q)
        ensures p in Pieces(q, SEPARATORS[1..], chunkSize) <==> PieceOfParagraph(q, chunkSize, p)
      {
        MembersOfParagraph(q, chunkSize, p);
      }
    }
  }

  // ---------- where pieces touch ----------

  /** A stretch of the text, the gap in front of it and the pieces made of it. */
  datatype Cut = Cut(gap: Str, run: Str, pieces: seq<Str>)

  function Spelled(cuts: seq<Cut>): Str {
    if cuts == [] then [] else cuts[0].gap + (cuts[0].run + Spelled(cuts[1..]))
  }

  function PiecesAt(cuts: seq<Cut>): seq<Str> {
    if cuts == [] then [] else cuts[0].pieces + PiecesAt(cuts[1..])
  }

  /** The stretch is one piece, or it is longer than the chunk size and has neither a space nor a line break. */
  ghost predicate Sound(c: Cut, chunkSize: int) {
    && Discardable(c.gap)
    && (c.pieces == [c.run]
        || (|c.run| > chunkSize && SPACE !in c.run && NEWLINE !in c.run && CarvedFrom(c.pieces, c.run)))
  }

  /** The text is cut up like this: `pieces` in order, and a gap between any two stretches. */
  ghost predicate CutUp(text: Str, pieces: seq<Str>, chunkSize: int, cuts: seq<Cut>, tail: Str) {
    && text == Spelled(cuts) + tail && Discardable(tail)
    && pieces == PiecesAt(cuts)
    && (forall k :: 0 <= k < |cuts| ==> Sound(cuts[k], chunkSize))
    && (forall k :: 0 < k < |cuts| ==> cuts[k].gap != [])
  }

  lemma {:induction false} SpelledAppend(a: seq<Cut>, b: seq<Cut>)
    ensures Spelled(a + b) == Spelled(a) + Spelled(b) && PiecesAt(a + b) == PiecesAt(a) + PiecesAt(b)
    decreases |a|
  {
    if a == [] {
      assert a + b == b;
    } else {
      SpelledAppend(a[1..], b);
      var all := a + b;
      assert all[0] == a[0] && all[1..] == a[1..] + b;
      Regroup(a[0].gap, a[0].run, Spelled(a[1..]), Spelled(b));
      Assoc(a[0].pieces, PiecesAt(a[1..]), PiecesAt(b));
    }
  }

  lemma Regroup(gap: Str, run: Str, a: Str, b: Str)
    ensures gap + (run + (a + b)) == gap + (run + a) + b
  {
  }

  /** Two texts cut up one after the other, with a separator between them. */
  lemma CutUpAppend(s: Str, a: seq<Str>, cuts: seq<Cut>, tail: Str, sep: Str,
                    t: Str, b: seq<Str>, more: seq<Cut>, end: Str, chunkSize: int)
    returns (all: seq<Cut>, last: Str)
    requires CutUp(s, a, chunkSize, cuts, tail) && CutUp(t, b, chunkSize, more, end)
    requires sep != [] && Discardable(sep)
    ensures CutUp(s + (sep + t), a + b, chunkSize, all, last)
  {
    DiscardableAppend(tail, sep);
    if more == [] {
      all, last := cuts, tail + sep + end;
      DiscardableAppend(tail + sep, end);
      JoinedTexts(Spelled(cuts), tail, sep, [], end);
      assert [] + end == t && tail + sep + [] == tail + sep && a + b == a;
      Assoc(Spelled(cuts), tail + sep, end);
    } else {
      var next := more[0].(gap := tail + sep + more[0].gap);
      DiscardableAppend(tail + sep, more[0].gap);
      all, last := cuts + ([next] + more[1..]), end;
      JoinedCuts(cuts, tail, sep, more, end);
      AllSound(cuts, next, more[1..], chunkSize);
    }
  }

  lemma JoinedCuts(cuts: seq<Cut>, tail: Str, sep: Str, more: seq<Cut>, end: Str)
    requires more != []
    ensures var all := cuts + ([more[0].(gap := tail + sep + more[0].gap)] + more[1..]);
      && Spelled(cuts) + tail + (sep + (Spelled(more) + end)) == Spelled(all) + end
      && PiecesAt(all) == PiecesAt(cuts) + PiecesAt(more)
  {
    WiderGap(tail + sep, more);
    SpelledAppend(cuts, [more[0].(gap := tail + sep + more[0].gap)] + more[1..]);
    JoinedTexts(Spelled(cuts), tail, sep, Spelled(more), end);
  }

  lemma JoinedTexts(a: Str, tail: Str, sep: Str, b: Str, end: Str)
    ensures a + tail + (sep + (b + end)) == a + (tail + sep + b) + end
  {
  }

  lemma WiderGap(gap: Str, cuts: seq<Cut>)
    requires cuts != []
    ensures var wider := [cuts[0].(gap := gap + cuts[0].gap)] + cuts[1..];
      Spelled(wider) == gap + Spelled(cuts) && PiecesAt(wider) == PiecesAt(cuts)
  {
    var wider := [cuts[0].(gap := gap + cuts[0].gap)] + cuts[1..];
    assert wider[1..] == cuts[1..];
    Assoc(gap, cuts[0].gap, cuts[0].run + Spelled(cuts[1..]));
  }

  lemma AllSound(cuts: seq<Cut>, next: Cut, more: seq<Cut>, chunkSize: int)
    requires forall k :: 0 <= k < |cuts| ==> Sound(cuts[k], chunkSize)
    requires forall k :: 0 <= k < |more| ==> Sound(more[k], chunkSize) && more[k].gap != []
    requires forall k :: 0 < k < |cuts| ==> cuts[k].gap != []
    requires Sound(next, chunkSize) && next.gap != []
    ensures var all := cuts + ([next] + more);
      && (forall k :: 0 <= k < |all| ==> Sound(all[k], chunkSize))
      && (forall k :: 0 < k < |all| ==> all[k].gap != [])
  {
    var all := cuts + ([next] + more);
    forall k | 0 <= k < |all| ensures Sound(all[k], chunkSize) && (k > 0 ==> all[k].gap != []) {
      if k < |cuts| {
        assert all[k] == cuts[k];
      } else if k > |cuts| {
        assert all[k] == more[k - |cuts| - 1];
      }
    }
  }

  /** A text as one stretch. */
  lemma OneCut(text: Str, pieces: seq<Str>, chunkSize: int) returns (cuts: seq<Cut>, tail: Str)
    requires Sound(Cut([], text, pieces), chunkSize)
    ensures CutUp(text, pieces, chunkSize, cuts, tail)
  {
    cuts, tail := [Cut([], text, pieces)], [];
    assert cuts[1..] == [] && [] + (text + []) + [] == text && pieces + [] == pieces;
  }

  lemma NoCut(text: Str, chunkSize: int) returns (cuts: seq<Cut>, tail: Str)
    requires Discardable(text)
    ensures CutUp(text, [], chunkSize, cuts, tail)
  {
    cuts, tail := [], text;
    assert Spelled([]) + text == text;
  }

  // ---------- the recursion ----------

  lemma {:induction false} NonBlankAppend(a: seq<Str>, b: seq<Str>)
    ensures NonBlank(a + b) == NonBlank(a) + NonBlank(b)
  {
    if a == [] {
      assert a + b == b;
    } else {
      NonBlankAppend(a[1..], b);
      var all := a + b;
      assert all[0] == a[0] && all[1..] == a[1..] + b;
      Assoc(if Trim(a[0]) == [] then [] else [a[0]], NonBlank(a[1..]), NonBlank(b));
    }
  }

  lemma {:induction false} NonBlankTwice(pieces: seq<Str>)
    requires forall p :: p in pieces ==> !IsBlank(p)
    ensures NonBlank(pieces) == pieces
  {
    if pieces != [] {
      assert pieces[0] in pieces && forall p :: p in pieces[1..] ==> p in pieces;
      BlankIff(pieces[0]);
      NonBlankTwice(pieces[1..]);
      assert pieces == [pieces[0]] + pieces[1..];
    }
  }

  lemma NonBlankOne(part: Str)
    ensures NonBlank([part]) == if IsBlank(part) then [] else [part]
  {
    BlankIff(part);
    var parts := [part];
    assert parts[1..] == [];
  }

  /** Text that reaches the separators from number `i` on has been cut at the ones before. */
  ghost predicate CutBefore(text: Str, i: nat) {
    (i >= 2 ==> NEWLINE !in text) && (i >= 6 ==> SPACE !in text)
  }

  lemma NextLevel(text: Str, i: nat, p: Str)
    requires i < 6 && CutBefore(text, i) && p in SplitOn(text, SEPARATORS[i])
    ensures CutBefore(p, i + 1)
  {
    PartOfText(text, SEPARATORS[i], p);
    if i == 1 && NEWLINE in p {
      UnitNotInPart(text, NEWLINE, p);
    } else if i == 5 && SPACE in p {
      UnitNotInPart(text, SPACE, p);
    }
  }

  lemma UnitNotInPart(text: Str, unit: CodeUnit, p: Str)
    requires p in SplitOn(text, [unit])
    ensures unit !in p
  {
    if unit in p {
      var k: nat :| k < |p| && p[k] == unit;
      assert p[k..k + 1] == [unit];
      SplitPartsLackSeparator(text, [unit], 0, p, k);
    }
  }

  lemma {:induction false} CutText(text: Str, i: nat, chunkSize: int) returns (cuts: seq<Cut>, tail: Str)
    requires i < 7 && |text| > chunkSize && CutBefore(text, i)
    ensures CutUp(text, Pieces(text, SEPARATORS[i..], chunkSize), chunkSize, cuts, tail)
    decreases 7 - i, 0
  {
    if i == 6 {
      SeparatorsDiscardable();
      PiecesCarved(text, SEPARATORS[6..], chunkSize);
      cuts, tail := OneCut(text, Pieces(text, SEPARATORS[6..], chunkSize), chunkSize);
    } else {
      var sep, rest := SEPARATORS[i], SEPARATORS[i + 1..];
      assert SEPARATORS[i..][0] == sep && SEPARATORS[i..][1..] == rest;
      var parts := SplitOn(text, sep);
      forall p | p in parts ensures CutBefore(p, i + 1) {
        NextLevel(text, i, p);
      }
      JoinSplit(text, sep);
      cuts, tail := CutParts(parts, i, chunkSize);
    }
  }

  lemma {:induction false} CutPart(part: Str, i: nat, chunkSize: int) returns (cuts: seq<Cut>, tail: Str)
    requires i < 6 && CutBefore(part, i + 1)
    ensures CutUp(part, NonBlank(PiecesOfPart(part, SEPARATORS[i + 1..], chunkSize)), chunkSize, cuts, tail)
    decreases 7 - i, 0, 0
  {
    var rest := SEPARATORS[i + 1..];
    assert rest != [] && rest[|rest| - 1] == [];
    NonBlankOne(part);
    if |part| > chunkSize {
      PiecesBounded(part, rest, chunkSize);
      NonBlankTwice(Pieces(part, rest, chunkSize));
      cuts, tail := CutText(part, i + 1, chunkSize);
    } else if IsBlank(part) {
      BlankIsDiscardable(part);
      cuts, tail := NoCut(part, chunkSize);
    } else {
      cuts, tail := OneCut(part, [part], chunkSize);
    }
  }

  lemma {:induction false} CutParts(parts: seq<Str>, i: nat, chunkSize: int) returns (cuts: seq<Cut>, tail: Str)
    requires i < 6 && forall p :: p in parts ==> CutBefore(p, i + 1)
    ensures CutUp(Join(parts, SEPARATORS[i]), NonBlank(PiecesOfAll(parts, SEPARATORS[i + 1..], chunkSize)), chunkSize, cuts, tail)
    decreases 7 - i, 0, 1 + |parts|
  {
    if parts == [] {
      cuts, tail := NoCut([], chunkSize);
    } else {
      var rest := SEPARATORS[i + 1..];
      assert parts[0] in parts && forall p :: p in parts[1..] ==> p in parts;
      cuts, tail := CutPart(parts[0], i, chunkSize);
      if |parts| == 1 {
        PiecesOfOne(parts[0], rest, chunkSize);
        assert parts == [parts[0]];
      } else {
        var more, end := CutParts(parts[1..], i, chunkSize);
        SeparatorsDiscardable();
        NonBlankAppend(PiecesOfPart(parts[0], rest, chunkSize), PiecesOfAll(parts[1..], rest, chunkSize));
        cuts, tail := CutUpAppend(
          parts[0], NonBlank(PiecesOfPart(parts[0], rest, chunkSize)), cuts, tail, SEPARATORS[i],
          Join(parts[1..], SEPARATORS[i]), NonBlank(PiecesOfAll(parts[1..], rest, chunkSize)), more, end, chunkSize);
      }
    }
  }

  /** Every text is cut up into stretches with discardable gaps between them, none of which is empty: two pieces
      touch only inside a stretch without spaces and line breaks that is longer than the chunk size. */
  lemma TouchingPieces(text: Str, chunkSize: int) returns (cuts: seq<Cut>, tail: Str)
    ensures CutUp(text, PiecesOf(text, chunkSize), chunkSize, cuts, tail)
  {
    if |text| <= chunkSize {
      cuts, tail := OneCut(text, [text], chunkSize);
    } else {
      assert SEPARATORS[0..] == SEPARATORS;
      cuts, tail := CutText(text, 0, chunkSize);
    }
  }
}
