/** JavaScript strings as sequences of UTF-16 code units, with the library
    operations the text splitter relies on: `split`, `join`, `trim` and `filter`. */
module Text {

  newtype CodeUnit = x: int | 0 <= x < 0x1_0000

  type Str = seq<CodeUnit>

  const NEWLINE: CodeUnit := 0x0A
  const SPACE: CodeUnit := 0x20
  const BANG: CodeUnit := 0x21
  const DOT: CodeUnit := 0x2E
  const QUESTION: CodeUnit := 0x3F

  lemma UnitsAsCharacters()
    ensures NEWLINE as char == '\n' && SPACE as char == ' '
    ensures BANG as char == '!' && DOT as char == '.' && QUESTION as char == '?'
  {
  }

  /** The code units that `String.prototype.trim` strips: ECMAScript WhiteSpace and LineTerminator. */
  predicate IsWhite(c: CodeUnit) {
    || 0x09 <= c <= 0x0D || c == 0x20 || c == 0xA0 || c == 0x1680
    || 0x2000 <= c <= 0x200A || c == 0x2028 || c == 0x2029 || c == 0x202F
    || c == 0x205F || c == 0x3000 || c == 0xFEFF
  }

  predicate IsBlank(s: Str) {
    forall k :: 0 <= k < |s| ==> IsWhite(s[k])
  }

  // ---------- split and join ----------

  predicate OccursAt(s: Str, sep: Str, k: nat) {
    k + |sep| <= |s| && s[k..k + |sep|] == sep
  }

  /** `s.indexOf(sep, from)`: the leftmost occurrence at or after `from`, or -1. */
  function IndexOf(s: Str, sep: Str, from: nat): (i: int)
    ensures i == -1 || (from <= i && i + |sep| <= |s|)
    decreases |s| - from
  {
    if from + |sep| > |s| then -1
    else if s[from..from + |sep|] == sep then from
    else IndexOf(s, sep, from + 1)
  }

  lemma {:induction false} IndexOfOccurs(s: Str, sep: Str, from: nat)
    requires IndexOf(s, sep, from) != -1
    ensures OccursAt(s, sep, IndexOf(s, sep, from))
    decreases |s| - from
  {
    if s[from..from + |sep|] != sep {
      IndexOfOccurs(s, sep, from + 1);
    }
  }

  lemma {:induction false} IndexOfLeftmost(s: Str, sep: Str, from: nat, k: nat)
    requires from <= k && OccursAt(s, sep, k)
    ensures 0 <= IndexOf(s, sep, from) <= k
    decreases |s| - from
  {
    if s[from..from + |sep|] != sep {
      IndexOfLeftmost(s, sep, from + 1, k);
    }
  }

  /** Where the part that starts at `from` ends, or -1 for the last part. */
  function CutPoint(s: Str, sep: Str, from: nat): (i: int)
    ensures i == -1 || (from <= i && i + |sep| <= |s| && from < i + |sep|)
  {
    if sep == [] then (if from + 1 < |s| then from + 1 else -1) else IndexOf(s, sep, from)
  }

  function SplitFrom(s: Str, sep: Str, from: nat): (parts: seq<Str>)
    requires from <= |s|
    ensures parts != []
    decreases |s| - from
  {
    var i := CutPoint(s, sep, from);
    if i == -1 then [s[from..]] else [s[from..i]] + SplitFrom(s, sep, i + |sep|)
  }

  lemma SplitUnfold(s: Str, sep: Str, from: nat)
    requires from <= |s|
    ensures var i := CutPoint(s, sep, from);
      SplitFrom(s, sep, from) == if i == -1 then [s[from..]] else [s[from..i]] + SplitFrom(s, sep, i + |sep|)
  {
  }

  /** `s.split(sep)`: leftmost, non-overlapping; an empty separator yields single code units. */
  function SplitOn(s: Str, sep: Str): seq<Str> {
    if sep == [] && s == [] then [] else SplitFrom(s, sep, 0)
  }

  /** `parts.join(sep)`. */
  function Join(parts: seq<Str>, sep: Str): Str {
    if parts == [] then []
    else if |parts| == 1 then parts[0]
    else parts[0] + (sep + Join(parts[1..], sep))
  }

  lemma JoinCons(part: Str, parts: seq<Str>, sep: Str)
    requires parts != []
    ensures Join([part] + parts, sep) == part + (sep + Join(parts, sep))
  {
    assert ([part] + parts)[1..] == parts;
  }

  lemma CutAt(s: Str, sep: Str, from: nat)
    requires CutPoint(s, sep, from) != -1
    ensures var i := CutPoint(s, sep, from);
      s[from..] == s[from..i] + (sep + s[i + |sep|..])
  {
    var i := CutPoint(s, sep, from);
    if sep != [] {
      IndexOfOccurs(s, sep, from);
    }
    CutThree(s, from, i, i + |sep|);
  }

  lemma CutThree<T>(s: seq<T>, a: nat, b: nat, c: nat)
    requires a <= b <= c <= |s|
    ensures s[a..] == s[a..b] + (s[b..c] + s[c..])
  {
  }

  lemma {:induction false} JoinSplitFrom(s: Str, sep: Str, from: nat)
    requires from <= |s|
    ensures Join(SplitFrom(s, sep, from), sep) == s[from..]
    decreases |s| - from
  {
    var i := CutPoint(s, sep, from);
    if i != -1 {
      CutAt(s, sep, from);
      JoinSplitFrom(s, sep, i + |sep|);
      JoinCons(s[from..i], SplitFrom(s, sep, i + |sep|), sep);
    }
  }

  /** Joining undoes splitting, for every separator. */
  lemma JoinSplit(s: Str, sep: Str)
    ensures Join(SplitOn(s, sep), sep) == s
  {
    if sep != [] || s != [] {
      JoinSplitFrom(s, sep, 0);
      assert s[0..] == s;
    }
  }

  /** No part of a split contains the separator. */
  lemma {:induction false} SplitPartsLackSeparator(s: Str, sep: Str, from: nat, part: Str, k: nat)
    requires sep != [] && from <= |s| && part in SplitFrom(s, sep, from)
    ensures !OccursAt(part, sep, k)
    decreases |s| - from
  {
    var i := CutPoint(s, sep, from);
    var end := if i == -1 then |s| else i;
    if part == s[from..end] {
      if OccursAt(part, sep, k) {
        assert s[from + k..from + k + |sep|] == part[k..k + |sep|];
        IndexOfLeftmost(s, sep, from, from + k);
      }
    } else {
      SplitPartsLackSeparator(s, sep, i + |sep|, part, k);
    }
  }

  lemma {:induction false} PartInText(s: Str, sep: Str, from: nat, p: Str)
    requires from <= |s| && p in SplitFrom(s, sep, from)
    ensures |p| <= |s| && forall u :: u in p ==> u in s
    decreases |s| - from
  {
    var i := CutPoint(s, sep, from);
    if i != -1 && p != s[from..i] {
      PartInText(s, sep, i + |sep|, p);
    }
  }

  lemma PartOfText(s: Str, sep: Str, p: Str)
    requires p in SplitOn(s, sep)
    ensures |p| <= |s| && (forall u :: u in p ==> u in s) && (IsBlank(s) ==> IsBlank(p))
  {
    PartInText(s, sep, 0, p);
    assert forall k :: 0 <= k < |p| ==> p[k] in p;
  }

  // ---------- trim and filter ----------

  function TrimStart(s: Str): Str {
    if s != [] && IsWhite(s[0]) then TrimStart(s[1..]) else s
  }

  function TrimEnd(s: Str): Str {
    if s != [] && IsWhite(s[|s| - 1]) then TrimEnd(s[..|s| - 1]) else s
  }

  function Trim(s: Str): Str {
    TrimEnd(TrimStart(s))
  }

  predicate IsTrimmed(s: Str) {
    s == [] || (!IsWhite(s[0]) && !IsWhite(s[|s| - 1]))
  }

  lemma {:induction false} TrimStartShape(s: Str) returns (l: Str)
    ensures s == l + TrimStart(s) && IsBlank(l)
    ensures TrimStart(s) == [] || !IsWhite(TrimStart(s)[0])
  {
    if s != [] && IsWhite(s[0]) {
      var l' := TrimStartShape(s[1..]);
      l := [s[0]] + l';
    } else {
      l := [];
    }
  }

  lemma {:induction false} TrimEndShape(s: Str) returns (r: Str)
    ensures s == TrimEnd(s) + r && IsBlank(r)
    ensures TrimEnd(s) == [] || !IsWhite(TrimEnd(s)[|TrimEnd(s)| - 1])
  {
    if s != [] && IsWhite(s[|s| - 1]) {
      var r' := TrimEndShape(s[..|s| - 1]);
      r := r' + [s[|s| - 1]];
    } else {
      r := [];
    }
  }

  /** Trimming removes exactly a blank prefix and a blank suffix, and is empty just for blank strings. */
  lemma {:induction false} TrimShape(s: Str) returns (l: Str, r: Str)
    ensures s == l + Trim(s) + r && IsBlank(l) && IsBlank(r)
    ensures IsTrimmed(Trim(s))
    ensures Trim(s) == [] <==> IsBlank(s)
  {
    l := TrimStartShape(s);
    r := TrimEndShape(TrimStart(s));
    assert Trim(s) != [] ==> s[|l|] == Trim(s)[0];
  }

  lemma BlankIff(s: Str)
    ensures Trim(s) == [] <==> IsBlank(s)
  {
    var _, _ := TrimShape(s);
  }

  /** `parts.filter((c) => c.trim().length > 0)`. */
  function NonBlank(parts: seq<Str>): seq<Str> {
    if parts == [] then []
    else (if Trim(parts[0]) == [] then [] else [parts[0]]) + NonBlank(parts[1..])
  }

  lemma {:induction false} NonBlankMembers(parts: seq<Str>)
    ensures forall p :: p in NonBlank(parts) <==> p in parts && !IsBlank(p)
  {
    if parts != [] {
      NonBlankMembers(parts[1..]);
      BlankIff(parts[0]);
      assert parts == [parts[0]] + parts[1..];
    }
  }
}
