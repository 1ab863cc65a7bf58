/** The recursive splitter: text is cut at the highest-priority separator, and any
    part that is still too long is cut again at the remaining ones. */
module TextSplitter {
  import opened Common
  import opened Text

  /** Paragraph, line, sentence, word and finally single code units. */
  const SEPARATORS: seq<Str> := [
    [NEWLINE, NEWLINE], [NEWLINE], [DOT, SPACE], [BANG, SPACE], [QUESTION, SPACE], [SPACE], []
  ]

  function Pieces(text: Str, separators: seq<Str>, chunkSize: int): seq<Str>
    decreases |separators|, 0
  {
    if |text| <= chunkSize || separators == [] then [text]
    else NonBlank(PiecesOfAll(SplitOn(text, separators[0]), separators[1..], chunkSize))
  }

  function PiecesOfAll(splits: seq<Str>, remaining: seq<Str>, chunkSize: int): seq<Str>
    decreases |remaining|, 2 + |splits|
  {
    if splits == [] then []
    else PiecesOfPart(splits[0], remaining, chunkSize) + PiecesOfAll(splits[1..], remaining, chunkSize)
  }

  function PiecesOfPart(part: Str, remaining: seq<Str>, chunkSize: int): seq<Str>
    decreases |remaining|, 1
  {
    if |part| > chunkSize && remaining != [] then Pieces(part, remaining, chunkSize) else [part]
  }

  method RecursiveSplit(text: Str, separators: seq<Str>, chunkSize: int) returns (pieces: seq<Str>)
    ensures pieces == Pieces(text, separators, chunkSize)
    decreases |separators|
  {
    if |text| <= chunkSize {
      return [text];
    }
    if separators == [] {
      return [text];
    }
    var remaining := separators[1..];
    var splits := SplitOn(text, separators[0]);
    var chunks: seq<Str> := [];
    for i := 0 to |splits|
      invariant chunks == PiecesOfAll(splits[..i], remaining, chunkSize)
    {
      PiecesOfAllAppend(splits[..i], [splits[i]], remaining, chunkSize);
      PiecesOfOne(splits[i], remaining, chunkSize);
      assert splits[..i + 1] == splits[..i] + [splits[i]];
      if |splits[i]| > chunkSize && remaining != [] {
        var inner := RecursiveSplit(splits[i], remaining, chunkSize);
        chunks := chunks + inner;
      } else {
        chunks := chunks + [splits[i]];
      }
    }
    assert splits[..|splits|] == splits;
    return NonBlank(chunks);
  }

  lemma {:induction false} PiecesOfAllAppend(parts: seq<Str>, more: seq<Str>, remaining: seq<Str>, chunkSize: int)
    ensures PiecesOfAll(parts + more, remaining, chunkSize)
         == PiecesOfAll(parts, remaining, chunkSize) + PiecesOfAll(more, remaining, chunkSize)
    decreases |parts|
  {
    if parts == [] {
      assert parts + more == more;
    } else {
      PiecesOfAllAppend(parts[1..], more, remaining, chunkSize);
      assert (parts + more)[1..] == parts[1..] + more;
    }
  }

  lemma PiecesOfOne(part: Str, remaining: seq<Str>, chunkSize: int)
    ensures PiecesOfAll([part], remaining, chunkSize) == PiecesOfPart(part, remaining, chunkSize)
  {
    assert PiecesOfAll([part][1..], remaining, chunkSize) == [];
  }

  // ---------- size of the pieces ----------

  /** Because the last separator is empty, no piece is longer than the chunk size (one code unit
      when the chunk size is not positive), and only a text that was never cut can be blank. */
  lemma {:induction false} PiecesBounded(text: Str, separators: seq<Str>, chunkSize: int)
    requires separators != [] && separators[|separators| - 1] == []
    ensures forall p :: p in Pieces(text, separators, chunkSize) ==> |p| <= Max(chunkSize, 1)
    ensures |text| <= chunkSize ==> Pieces(text, separators, chunkSize) == [text]
    ensures |text| > chunkSize ==> forall p :: p in Pieces(text, separators, chunkSize) ==> !IsBlank(p)
    decreases |separators|, 0
  {
    if |text| > chunkSize {
      var splits := SplitOn(text, separators[0]);
      if |separators| == 1 {
        UnitPieces(text, 0);
      }
      PiecesOfAllBounded(splits, separators[1..], chunkSize);
      NonBlankMembers(PiecesOfAll(splits, separators[1..], chunkSize));
    }
  }

  lemma {:induction false} PiecesOfAllBounded(splits: seq<Str>, remaining: seq<Str>, chunkSize: int)
    requires remaining != [] ==> remaining[|remaining| - 1] == []
    requires remaining == [] ==> forall s :: s in splits ==> |s| <= 1
    ensures forall p :: p in PiecesOfAll(splits, remaining, chunkSize) ==> |p| <= Max(chunkSize, 1)
    decreases |remaining|, 1 + |splits|
  {
    if splits != [] {
      PiecesOfAllBounded(splits[1..], remaining, chunkSize);
      if |splits[0]| > chunkSize && remaining != [] {
        PiecesBounded(splits[0], remaining, chunkSize);
      }
    }
  }

  lemma {:induction false} UnitPieces(s: Str, from: nat)
    requires from <= |s|
    ensures forall p :: p in SplitFrom(s, [], from) ==> |p| <= 1
    decreases |s| - from
  {
    if from + 1 < |s| {
      UnitPieces(s, from + 1);
    }
  }

  // ---------- content of the pieces ----------

  /** Text the splitter may drop between two pieces: white space, and a sentence mark only
      together with the space that follows it. */
  predicate Discardable(gap: Str) {
    || gap == []
    || (IsWhite(gap[0]) && Discardable(gap[1..]))
    || (|gap| >= 2 && gap[0] in {DOT, BANG, QUESTION} && gap[1] == SPACE && Discardable(gap[2..]))
  }

  /** The pieces are consecutive, non-overlapping substrings of the text, in order, and everything
      outside them is discardable. */
  ghost predicate CarvedFrom(pieces: seq<Str>, text: Str)
    decreases |pieces|
  {
    if pieces == [] then Discardable(text)
    else exists gap: Str, rest: Str ::
      Discardable(gap) && CarvedFrom(pieces[1..], rest) && text == gap + pieces[0] + rest
  }

  lemma CarvedIntro(gap: Str, piece: Str, pieces: seq<Str>, rest: Str)
    requires Discardable(gap) && CarvedFrom(pieces, rest)
    ensures CarvedFrom([piece] + pieces, gap + piece + rest)
  {
    assert ([piece] + pieces)[1..] == pieces;
  }

  lemma CarvedElim(pieces: seq<Str>, text: Str) returns (gap: Str, rest: Str)
    requires pieces != [] && CarvedFrom(pieces, text)
    ensures Discardable(gap) && CarvedFrom(pieces[1..], rest) && text == gap + pieces[0] + rest
  {
    gap, rest :| Discardable(gap) && CarvedFrom(pieces[1..], rest) && text == gap + pieces[0] + rest;
  }

  lemma {:induction false} DiscardableAppend(a: Str, b: Str)
    requires Discardable(a) && Discardable(b)
    ensures Discardable(a + b)
  {
    if a == [] {
      assert a + b == b;
    } else if IsWhite(a[0]) && Discardable(a[1..]) {
      DiscardableAppend(a[1..], b);
      assert (a + b)[1..] == a[1..] + b;
    } else {
      DiscardableAppend(a[2..], b);
      assert (a + b)[2..] == a[2..] + b;
    }
  }

  lemma {:induction false} BlankIsDiscardable(s: Str)
    requires IsBlank(s)
    ensures Discardable(s)
  {
    if s != [] {
      BlankIsDiscardable(s[1..]);
    }
  }

  /** Carving is insensitive to discardable text put in front. */
  lemma CarvedAfterGap(gap: Str, pieces: seq<Str>, text: Str)
    requires Discardable(gap) && CarvedFrom(pieces, text)
    ensures CarvedFrom(pieces, gap + text)
  {
    if pieces == [] {
      DiscardableAppend(gap, text);
    } else {
      var g, rest := CarvedElim(pieces, text);
      DiscardableAppend(gap, g);
      CarvedWiden(gap, g, pieces[0], pieces[1..], rest);
      assert pieces == [pieces[0]] + pieces[1..];
    }
  }

  lemma CarvedWiden(gap: Str, g: Str, piece: Str, pieces: seq<Str>, rest: Str)
    requires Discardable(gap + g) && CarvedFrom(pieces, rest)
    ensures CarvedFrom([piece] + pieces, gap + (g + piece + rest))
  {
    CarvedIntro(gap + g, piece, pieces, rest);
    assert gap + (g + piece + rest) == gap + g + piece + rest;
  }

  lemma {:induction false} CarvedAppend(a: seq<Str>, s: Str, b: seq<Str>, t: Str)
    requires CarvedFrom(a, s) && CarvedFrom(b, t)
    ensures CarvedFrom(a + b, s + t)
    decreases |a|
  {
    if a == [] {
      CarvedAfterGap(s, b, t);
      assert a + b == b;
    } else {
      var gap, rest := CarvedElim(a, s);
      CarvedAppend(a[1..], rest, b, t);
      CarvedIntroAppend(a + b, s + t, gap, a[0], a[1..], b, rest, t);
    }
  }

  lemma CarvedIntroAppend(all: seq<Str>, whole: Str, gap: Str, piece: Str, a: seq<Str>, b: seq<Str>, rest: Str, t: Str)
    requires all == [piece] + a + b && whole == gap + piece + rest + t
    requires Discardable(gap) && CarvedFrom(a + b, rest + t)
    ensures CarvedFrom(all, whole)
  {
    CarvedIntro(gap, piece, a + b, rest + t);
    assert whole == gap + piece + (rest + t);
    assert all == [piece] + (a + b);
  }

  lemma CarvedWhole(s: Str)
    ensures CarvedFrom([s], s)
  {
    CarvedIntro([], s, [], []);
    assert [s] + [] == [s] && [] + s + [] == s;
  }

  /** Dropping the blank pieces keeps the carving. */
  lemma {:induction false} CarvedNonBlank(pieces: seq<Str>, text: Str)
    requires CarvedFrom(pieces, text)
    ensures CarvedFrom(NonBlank(pieces), text)
    decreases |pieces|
  {
    if pieces != [] {
      var p := pieces[0];
      var gap, rest := CarvedElim(pieces, text);
      CarvedNonBlank(pieces[1..], rest);
      BlankIff(p);
      if IsBlank(p) {
        BlankIsDiscardable(p);
        DiscardableAppend(gap, p);
        CarvedAfterGap(gap + p, NonBlank(pieces[1..]), rest);
        assert NonBlank(pieces) == NonBlank(pieces[1..]);
      } else {
        CarvedIntro(gap, p, NonBlank(pieces[1..]), rest);
      }
    }
  }

  lemma SeparatorsDiscardable()
    ensures forall s :: s in SEPARATORS ==> Discardable(s)
  {
    assert Discardable([SPACE]) && Discardable([NEWLINE]);
    assert Discardable([NEWLINE, NEWLINE][1..]);
    assert Discardable([]);
    assert [DOT, SPACE][2..] == [] && [BANG, SPACE][2..] == [] && [QUESTION, SPACE][2..] == [];
  }

  lemma {:induction false} PiecesCarved(text: Str, separators: seq<Str>, chunkSize: int)
    requires forall s :: s in separators ==> Discardable(s)
    ensures CarvedFrom(Pieces(text, separators, chunkSize), text)
    decreases |separators|, 0
  {
    if |text| <= chunkSize || separators == [] {
      CarvedWhole(text);
    } else {
      JoinCarved(SplitOn(text, separators[0]), separators[0], separators[1..], chunkSize);
      JoinSplit(text, separators[0]);
      CarvedNonBlank(PiecesOfAll(SplitOn(text, separators[0]), separators[1..], chunkSize), text);
    }
  }

  /** The pieces of one part of a split are carved from that part. */
  lemma {:induction false} PartCarved(part: Str, remaining: seq<Str>, chunkSize: int)
    requires forall s :: s in remaining ==> Discardable(s)
    ensures CarvedFrom(PiecesOfPart(part, remaining, chunkSize), part)
    decreases |remaining|, 1
  {
    if |part| > chunkSize && remaining != [] {
      PiecesCarved(part, remaining, chunkSize);
    } else {
      CarvedWhole(part);
    }
  }

  /** The pieces of all parts are carved from the text that the parts make up. */
  lemma {:induction false} JoinCarved(parts: seq<Str>, sep: Str, remaining: seq<Str>, chunkSize: int)
    requires Discardable(sep) && forall s :: s in remaining ==> Discardable(s)
    ensures CarvedFrom(PiecesOfAll(parts, remaining, chunkSize), Join(parts, sep))
    decreases |remaining|, 2 + |parts|
  {
    if parts != [] {
      PartCarved(parts[0], remaining, chunkSize);
      if |parts| == 1 {
        PiecesOfOne(parts[0], remaining, chunkSize);
        assert parts == [parts[0]];
      } else {
        JoinCarved(parts[1..], sep, remaining, chunkSize);
        CarvedCons(parts, sep, remaining, chunkSize);
      }
    }
  }

  lemma CarvedCons(parts: seq<Str>, sep: Str, remaining: seq<Str>, chunkSize: int)
    requires Discardable(sep) && |parts| > 1
    requires CarvedFrom(PiecesOfPart(parts[0], remaining, chunkSize), parts[0])
    requires CarvedFrom(PiecesOfAll(parts[1..], remaining, chunkSize), Join(parts[1..], sep))
    ensures CarvedFrom(PiecesOfAll(parts, remaining, chunkSize), Join(parts, sep))
  {
    var later := PiecesOfAll(parts[1..], remaining, chunkSize);
    CarvedAfterGap(sep, later, Join(parts[1..], sep));
    CarvedAppend(PiecesOfPart(parts[0], remaining, chunkSize), parts[0], later, sep + Join(parts[1..], sep));
  }

  // ---------- content up to white space and sentence marks ----------

  /** The string without white space and sentence marks. */
  function Erase(s: Str): Str {
    if s == [] then [] else EraseUnit(s[0]) + Erase(s[1..])
  }

  function EraseUnit(c: CodeUnit): Str {
    if IsWhite(c) || c in {DOT, BANG, QUESTION} then [] else [c]
  }

  lemma {:induction false} EraseAppend(a: Str, b: Str)
    ensures Erase(a + b) == Erase(a) + Erase(b)
  {
    if a == [] {
      assert a + b == b;
    } else {
      EraseAppend(a[1..], b);
      var all := a + b;
      assert all[0] == a[0] && all[1..] == a[1..] + b;
      Assoc(EraseUnit(a[0]), Erase(a[1..]), Erase(b));
    }
  }

  lemma {:induction false} EraseDiscardable(gap: Str)
    requires Discardable(gap)
    ensures Erase(gap) == []
  {
    if gap == [] {
    } else if IsWhite(gap[0]) && Discardable(gap[1..]) {
      EraseDiscardable(gap[1..]);
    } else {
      EraseDiscardable(gap[2..]);
      assert gap[1..][1..] == gap[2..];
    }
  }

  lemma EraseGap(gap: Str, piece: Str, rest: Str)
    requires Discardable(gap)
    ensures Erase(gap + piece + rest) == Erase(piece) + Erase(rest)
  {
    EraseDiscardable(gap);
    EraseAppend(gap, piece);
    EraseAppend(gap + piece, rest);
  }

  lemma {:induction false} CarvedErase(pieces: seq<Str>, text: Str)
    requires CarvedFrom(pieces, text)
    ensures Erase(Flatten(pieces)) == Erase(text)
    decreases |pieces|
  {
    if pieces == [] {
      EraseDiscardable(text);
    } else {
      var gap, rest := CarvedElim(pieces, text);
      CarvedErase(pieces[1..], rest);
      EraseGap(gap, pieces[0], rest);
      EraseAppend(pieces[0], Flatten(pieces[1..]));
    }
  }

  /** No content is lost: the pieces of any text are carved from it, whatever the chunk size. */
  lemma NoContentLost(text: Str, chunkSize: int)
    ensures CarvedFrom(Pieces(text, SEPARATORS, chunkSize), text)
    ensures Erase(Flatten(Pieces(text, SEPARATORS, chunkSize))) == Erase(text)
  {
    SeparatorsDiscardable();
    PiecesCarved(text, SEPARATORS, chunkSize);
    CarvedErase(Pieces(text, SEPARATORS, chunkSize), text);
  }
}
