// Valid UTF-8: what the octet scans of TextPosition mean in terms of code points
// (section 3 of RFC 3629) and UTF-16 code units (section 2.1 of RFC 2781).
module Utf8Text {
  import opened Base
  import opened TextPosition

  type Scalar = c: int | 0 <= c < 0xD800 || 0xE000 <= c < 0x110000 witness 0

  /** How many octets a code point takes. */
  function Width(c: Scalar): (w: nat) {
    if c < 0x80 then 1 else if c < 0x800 then 2 else if c < 0x10000 then 3 else 4
  }

  function EncodeScalar(c: Scalar): (r: Text)
    ensures |r| == Width(c)
    ensures c < 0x80 ==> r == [c]
    ensures c >= 0x80 ==> r[0] >= 192 && forall i :: 1 <= i < |r| ==> Continuation(r[i])
    ensures r[0] >= 0xF0 <==> c > 0xFFFF
  {
    if c < 0x80 then [c]
    else if c < 0x800 then [0xC0 + c / 0x40, 0x80 + c % 0x40]
    else if c < 0x10000 then [0xE0 + c / 0x1000, 0x80 + c / 0x40 % 0x40, 0x80 + c % 0x40]
    else [0xF0 + c / 0x40000, 0x80 + c / 0x1000 % 0x40, 0x80 + c / 0x40 % 0x40, 0x80 + c % 0x40]
  }

  function Utf8(cps: seq<Scalar>): (r: Text) {
    if cps == [] then [] else EncodeScalar(cps[0]) + Utf8(cps[1..])
  }

  function Units(c: Scalar): (u: nat) {
    if c > 0xFFFF then 2 else 1
  }

  /** The effect of one code point on a UTF-16 position. */
  function Advance(pos: Position, c: Scalar): (r: Position) {
    if c == LF then Position(pos.line + 1, 0) else Position(pos.line, pos.character + Units(c))
  }

  /** The UTF-16 position behind the code points: lines, and units since the last one. */
  function Behind(cps: seq<Scalar>, pos: Position): (r: Position)
    decreases |cps|
  {
    if cps == [] then pos else Behind(cps[1..], Advance(pos, cps[0]))
  }

  const Origin := Position(0, 0)

  /** How many code points a position lies behind. */
  function Index(cps: seq<Scalar>, pos: Position): (k: nat)
    ensures k <= |cps|
    decreases |cps|
  {
    if cps == [] || pos == Origin then 0 else 1 + Index(cps[1..], Minus(pos, cps[0]))
  }

  /** What is left of a position once a code point has been passed. */
  function Minus(pos: Position, c: Scalar): (r: Position) {
    if pos.line == 0 then Position(0, Less(pos.character, Units(c)))
    else if c == LF then Position(pos.line - 1, pos.character)
    else pos
  }

  // -- The octet scans follow the code points -------------------------------------------

  lemma {:induction false} Utf8Append(a: seq<Scalar>, b: seq<Scalar>)
    ensures Utf8(a + b) == Utf8(a) + Utf8(b)
  {
    if a == [] {
      assert a + b == b;
    } else {
      Utf8Append(a[1..], b);
      assert (a + b)[0] == a[0] && (a + b)[1..] == a[1..] + b;
      Reassociate(EncodeScalar(a[0]), Utf8(a[1..]), Utf8(b));
    }
  }

  lemma NoContinuationFirst(cps: seq<Scalar>)
    ensures Utf8(cps) != [] ==> !Continuation(Utf8(cps)[0])
  {
  }

  /** Skipping lines over octets that are not line feeds. */
  lemma {:induction false} SkipLinesOver(text: Text, line: nat, i: nat, n: nat)
    requires line > 0 && i + n <= |text| && forall k :: i <= k < i + n ==> text[k] != LF
    ensures SkipLines(text, line, i) == SkipLines(text, line, i + n)
    decreases n
  {
    if n > 0 {
      SkipLinesOver(text, line, i + 1, n - 1);
    }
  }

  lemma {:induction false} SkipContinuationOver(text: Text, i: nat, n: nat)
    requires i + n <= |text| && (forall k :: i <= k < i + n ==> Continuation(text[k]))
    requires i + n < |text| ==> !Continuation(text[i + n])
    ensures SkipContinuation(text, i) == i + n
    decreases n
  {
    if n > 0 {
      SkipContinuationOver(text, i + 1, n - 1);
    }
  }

  /** One code point in the middle of a text. */
  ghost predicate At(text: Text, i: nat, c: Scalar) {
    var e := EncodeScalar(c);
    && i + |e| <= |text|
    && text[i..i + |e|] == e
    && (i + |e| < |text| ==> !Continuation(text[i + |e|]))
  }

  lemma LineStep(text: Text, i: nat, c: Scalar, line: nat)
    requires At(text, i, c) && line > 0
    ensures SkipLines(text, line, i) == SkipLines(text, if c == LF then line - 1 else line, i + |EncodeScalar(c)|)
  {
    var e := EncodeScalar(c);
    assert forall k :: 0 <= k < |e| ==> text[i + k] == text[i..i + |e|][k] == e[k];
    if c != LF {
      forall k | i <= k < i + |e| ensures text[k] != LF {
        assert text[i + (k - i)] == e[k - i];
      }
      SkipLinesOver(text, line, i, |e|);
    }
  }

  lemma UnitStep(text: Text, i: nat, c: Scalar, character: nat)
    requires At(text, i, c) && character > 0
    ensures SkipUnits(text, character, i) == SkipUnits(text, Less(character, Units(c)), i + |EncodeScalar(c)|)
  {
    var e := EncodeScalar(c);
    assert text[i..i + |e|][0] == text[i] == e[0];
    if c >= 0x80 {
      forall k | i + 1 <= k < i + |e| ensures Continuation(text[k]) {
        assert text[i..i + |e|][k - i] == text[k] == e[k - i];
      }
      SkipContinuationOver(text, i + 1, |e| - 1);
    }
  }

  lemma HeadAt(text: Text, i: nat, cps: seq<Scalar>)
    requires i <= |text| && text[i..] == Utf8(cps) && cps != []
    ensures At(text, i, cps[0])
    ensures text[i + |EncodeScalar(cps[0])|..] == Utf8(cps[1..])
  {
    NoContinuationFirst(cps[1..]);
    EncodedAt(text, i, cps[0], Utf8(cps[1..]));
  }

  lemma EncodedAt(text: Text, i: nat, c: Scalar, rest: Text)
    requires i <= |text| && text[i..] == EncodeScalar(c) + rest && (rest != [] ==> !Continuation(rest[0]))
    ensures At(text, i, c) && text[i + |EncodeScalar(c)|..] == rest
  {
    PieceAt(text, i, EncodeScalar(c), rest);
  }

  lemma PieceAt(text: Text, i: nat, e: Text, rest: Text)
    requires i <= |text| && text[i..] == e + rest && (rest != [] ==> !Continuation(rest[0]))
    ensures i + |e| <= |text| && text[i..i + |e|] == e && text[i + |e|..] == rest
    ensures i + |e| < |text| ==> !Continuation(text[i + |e|])
  {
    SplitAt(text, i, e, rest);
    assert i + |e| < |text| ==> text[i + |e|..][0] == text[i + |e|];
  }

  lemma SplitAt(text: Text, i: nat, e: Text, rest: Text)
    requires i <= |text| && text[i..] == e + rest
    ensures i + |e| <= |text| && text[i..i + |e|] == e && text[i + |e|..] == rest
  {
    assert text[i..i + |e|] == text[i..][..|e|];
    assert text[i + |e|..] == text[i..][|e|..];
  }

  lemma PrefixCons(cps: seq<Scalar>, k: nat)
    requires cps != [] && k <= |cps| - 1
    ensures |Utf8(cps[..k + 1])| == Width(cps[0]) + |Utf8(cps[1..][..k])|
  {
    assert cps[..k + 1][1..] == cps[1..][..k];
  }

  /** The octets a position lies behind. */
  function Size(cps: seq<Scalar>, pos: Position): (n: nat)
    decreases |cps|
  {
    if cps == [] || pos == Origin then 0 else Width(cps[0]) + Size(cps[1..], Minus(pos, cps[0]))
  }

  lemma {:induction false} SizeOfPrefix(cps: seq<Scalar>, pos: Position)
    ensures Size(cps, pos) == |Utf8(cps[..Index(cps, pos)])|
    decreases |cps|
  {
    if cps == [] || pos == Origin {
      assert cps[..0] == [];
    } else {
      SizeOfPrefix(cps[1..], Minus(pos, cps[0]));
      PrefixCons(cps, Index(cps[1..], Minus(pos, cps[0])));
    }
  }

  lemma UnitHead(text: Text, i: nat, cps: seq<Scalar>, character: nat) returns (j: nat)
    requires i <= |text| && text[i..] == Utf8(cps) && cps != [] && character > 0
    ensures j == i + Width(cps[0]) <= |text| && text[j..] == Utf8(cps[1..])
    ensures SkipUnits(text, character, i) == SkipUnits(text, Less(character, Units(cps[0])), j)
  {
    HeadAt(text, i, cps);
    UnitStep(text, i, cps[0], character);
    j := i + Width(cps[0]);
  }

  lemma {:induction false} UnitsFollowCodePoints(text: Text, i: nat, cps: seq<Scalar>, character: nat)
    requires i <= |text| && text[i..] == Utf8(cps)
    ensures SkipUnits(text, character, i) == i + Size(cps, Position(0, character))
    decreases |cps|
  {
    if cps != [] && character != 0 {
      var j := UnitHead(text, i, cps, character);
      UnitsFollowCodePoints(text, j, cps[1..], Less(character, Units(cps[0])));
    }
  }

  function Scan(text: Text, pos: Position, i: nat): (r: nat)
    requires i <= |text|
  {
    SkipUnits(text, pos.character, SkipLines(text, pos.line, i))
  }

  lemma LineHead(text: Text, i: nat, cps: seq<Scalar>, line: nat) returns (j: nat)
    requires i <= |text| && text[i..] == Utf8(cps) && cps != [] && line > 0
    ensures j == i + Width(cps[0]) <= |text| && text[j..] == Utf8(cps[1..])
    ensures SkipLines(text, line, i) == SkipLines(text, if cps[0] == LF then line - 1 else line, j)
  {
    HeadAt(text, i, cps);
    LineStep(text, i, cps[0], line);
    j := i + Width(cps[0]);
  }

  lemma {:induction false} ScanFollowsCodePoints(text: Text, i: nat, cps: seq<Scalar>, pos: Position)
    requires i <= |text| && text[i..] == Utf8(cps)
    ensures Scan(text, pos, i) == i + Size(cps, pos)
    decreases |cps|
  {
    if pos.line == 0 {
      UnitsFollowCodePoints(text, i, cps, pos.character);
    } else if cps != [] {
      var j := LineHead(text, i, cps, pos.line);
      ScanFollowsCodePoints(text, j, cps[1..], Minus(pos, cps[0]));
    }
  }

  /** On valid UTF-8 the octet scan is a code point scan, for every position. */
  lemma OffsetIsCodePointIndex(cps: seq<Scalar>, pos: Position)
    ensures OffsetOf(Utf8(cps), pos) == |Utf8(cps[..Index(cps, pos)])|
  {
    assert Utf8(cps)[0..] == Utf8(cps);
    ScanFollowsCodePoints(Utf8(cps), 0, cps, pos);
    SizeOfPrefix(cps, pos);
  }

  // -- Positions of boundaries -----------------------------------------------------------

  lemma {:induction false} ContinuationsCountNothing(pos: Position, octets: Text)
    requires forall i :: 0 <= i < |octets| ==> Continuation(octets[i])
    ensures CountAll(pos, octets) == pos
    decreases |octets|
  {
    if octets != [] {
      ContinuationsCountNothing(pos, octets[1..]);
    }
  }

  lemma CountScalar(pos: Position, c: Scalar)
    ensures CountAll(pos, EncodeScalar(c)) == Advance(pos, c)
  {
    var e := EncodeScalar(c);
    if c >= 0x80 {
      assert forall i :: 0 <= i < |e[1..]| ==> e[1..][i] == e[i + 1];
      ContinuationsCountNothing(Count(pos, e[0]), e[1..]);
    } else {
      assert e[1..] == [];
    }
  }

  lemma {:induction false} CountFollowsCodePoints(pos: Position, cps: seq<Scalar>)
    ensures CountAll(pos, Utf8(cps)) == Behind(cps, pos)
    decreases |cps|
  {
    if cps != [] {
      CountAppend(pos, EncodeScalar(cps[0]), Utf8(cps[1..]));
      CountScalar(pos, cps[0]);
      CountFollowsCodePoints(Advance(pos, cps[0]), cps[1..]);
    }
  }

  /** At a code point boundary the reported position is the UTF-16 position. */
  lemma PositionIsUtf16(cps: seq<Scalar>, k: nat)
    requires k <= |cps|
    ensures |Utf8(cps[..k])| <= |Utf8(cps)|
    ensures PositionOf(Utf8(cps), |Utf8(cps[..k])|) == Behind(cps[..k], Origin)
  {
    Utf8Append(cps[..k], cps[k..]);
    assert cps[..k] + cps[k..] == cps;
    assert Utf8(cps)[..|Utf8(cps[..k])|] == Utf8(cps[..k]);
    CountFollowsCodePoints(Origin, cps[..k]);
  }

  lemma {:induction false} BehindFromColumn(cps: seq<Scalar>, line: nat, column: nat)
    ensures var p := Behind(cps, Origin);
            Behind(cps, Position(line, column))
            == Position(line + p.line, if p.line == 0 then column + p.character else p.character)
    decreases |cps|
  {
    if cps != [] {
      var a := Advance(Origin, cps[0]);
      BehindFromColumn(cps[1..], a.line, a.character);
      if cps[0] == LF {
        BehindFromColumn(cps[1..], line + 1, 0);
      } else {
        BehindFromColumn(cps[1..], line, column + Units(cps[0]));
      }
    }
  }

  /** Every boundary is found again from its UTF-16 position. */
  lemma {:induction false} IndexOfBehind(cps: seq<Scalar>, k: nat)
    requires k <= |cps|
    ensures Index(cps, Behind(cps[..k], Origin)) == k
    decreases k
  {
    if k > 0 {
      var c, tail := cps[0], cps[1..];
      assert cps[..k][0] == c && cps[..k][1..] == tail[..k - 1];
      IndexOfBehind(tail, k - 1);
      var a := Advance(Origin, c);
      BehindFromColumn(tail[..k - 1], a.line, a.character);
    }
  }

  /** Converting a boundary's offset to a UTF-16 position and back gives the offset. */
  lemma OffsetRoundTrip(cps: seq<Scalar>, k: nat)
    requires k <= |cps|
    ensures OffsetOf(Utf8(cps), PositionOf(Utf8(cps), |Utf8(cps[..k])|)) == |Utf8(cps[..k])|
  {
    PositionIsUtf16(cps, k);
    IndexOfBehind(cps, k);
    OffsetIsCodePointIndex(cps, Behind(cps[..k], Origin));
  }

  // -- Positions within their line ---------------------------------------------------------

  /** Some boundary of the position's line lies at or behind it. */
  ghost predicate WithinLine(cps: seq<Scalar>, pos: Position, k: nat) {
    && k <= |cps|
    && Behind(cps[..k], Origin).line == pos.line
    && pos.character <= Behind(cps[..k], Origin).character
  }

  /** A position within its line is mapped to a boundary of that line: the one at the
      position, or, between the two halves of a surrogate pair, the one behind it. */
  lemma {:induction false} SnapsToBoundary(cps: seq<Scalar>, pos: Position, k: nat)
    requires WithinLine(cps, pos, k)
    ensures var j := Index(cps, pos);
            var b := Behind(cps[..j], Origin);
            && j <= k
            && b.line == pos.line
            && (b.character == pos.character
                || (j > 0 && cps[j - 1] > 0xFFFF && b.character == pos.character + 1))
    decreases |cps|
  {
    if cps == [] || pos == Origin {
      assert cps[..0] == [];
    } else {
      var c, tail := cps[0], cps[1..];
      assert k > 0 by { assert cps[..0] == []; }
      assert cps[..k][0] == c && cps[..k][1..] == tail[..k - 1];
      var a := Advance(Origin, c);
      BehindFromColumn(tail[..k - 1], a.line, a.character);
      var pos' := Minus(pos, c);
      SnapsToBoundary(tail, pos', k - 1);
      var j := Index(tail, pos');
      assert cps[..j + 1][0] == c && cps[..j + 1][1..] == tail[..j];
      BehindFromColumn(tail[..j], a.line, a.character);
    }
  }

  // -- Lines counted in UTF-16 units ---------------------------------------------------------

  /** The UTF-16 units before the first line feed. */
  function FirstLineUnits(cps: seq<Scalar>): (u: nat) {
    if cps == [] || cps[0] == LF then 0 else Units(cps[0]) + FirstLineUnits(cps[1..])
  }

  /** The code points from the start of a line on. */
  function FromLine(cps: seq<Scalar>, line: nat): (r: seq<Scalar>)
    decreases |cps|
  {
    if line == 0 || cps == [] then cps else FromLine(cps[1..], if cps[0] == LF then line - 1 else line)
  }

  lemma NextIsBehind(text: Text, i: nat, cps: seq<Scalar>)
    requires i <= |text| && text[i..] == Utf8(cps) && cps != []
    ensures var j := i + Width(cps[0]);
            i < |text| && j <= |text| && text[j..] == Utf8(cps[1..]) && Next(text, i) == j
    ensures UnitsOfLead(text[i]) == Units(cps[0]) && (text[i] == LF <==> cps[0] == LF)
  {
    HeadAt(text, i, cps);
    ScalarAt(text, i, cps[0]);
  }

  lemma ScalarAt(text: Text, i: nat, c: Scalar)
    requires At(text, i, c)
    ensures i < |text| && Next(text, i) == i + Width(c)
    ensures UnitsOfLead(text[i]) == Units(c) && (text[i] == LF <==> c == LF)
  {
    var e := EncodeScalar(c);
    assert text[i..i + |e|][0] == text[i] == e[0];
    if c >= 0x80 {
      forall k | i + 1 <= k < i + |e| ensures Continuation(text[k]) {
        assert text[i..i + |e|][k - i] == text[k] == e[k - i];
      }
      SkipContinuationOver(text, i + 1, |e| - 1);
    }
  }

  lemma {:induction false} LineUnitsOfUtf8(text: Text, i: nat, cps: seq<Scalar>)
    requires i <= |text| && text[i..] == Utf8(cps)
    ensures LineUnits(text, i) == FirstLineUnits(cps)
    decreases |cps|
  {
    if cps != [] {
      NextIsBehind(text, i, cps);
      if cps[0] != LF {
        LineUnitsOfUtf8(text, i + Width(cps[0]), cps[1..]);
      }
    }
  }

  lemma {:induction false} LineStartOfUtf8(text: Text, i: nat, cps: seq<Scalar>, line: nat)
    requires i <= |text| && text[i..] == Utf8(cps)
    ensures text[SkipLines(text, line, i)..] == Utf8(FromLine(cps, line))
    decreases |cps|
  {
    if line > 0 && cps != [] {
      var j := LineHead(text, i, cps, line);
      LineStartOfUtf8(text, j, cps[1..], if cps[0] == LF then line - 1 else line);
    }
  }

  /** No boundary of a line counts more units than the line has. */
  lemma {:induction false} BoundaryIsInItsLine(cps: seq<Scalar>, k: nat)
    requires k <= |cps|
    ensures var p := Behind(cps[..k], Origin);
            p.line <= Behind(cps, Origin).line && p.character <= FirstLineUnits(FromLine(cps, p.line))
    decreases k
  {
    if k > 0 {
      var c, tail := cps[0], cps[1..];
      assert cps[..k][0] == c && cps[..k][1..] == tail[..k - 1];
      BoundaryIsInItsLine(tail, k - 1);
      var a := Advance(Origin, c);
      BehindFromColumn(tail[..k - 1], a.line, a.character);
      BehindFromColumn(tail, a.line, a.character);
    } else {
      BehindFromColumn(cps, 0, 0);
      assert cps[..0] == [];
    }
  }

  /** Every line ends at a boundary that counts all its units. */
  lemma {:induction false} EndOfLineIsBoundary(cps: seq<Scalar>, line: nat) returns (k: nat)
    requires line <= Behind(cps, Origin).line
    ensures k <= |cps| && Behind(cps[..k], Origin) == Position(line, FirstLineUnits(FromLine(cps, line)))
    decreases |cps|
  {
    if cps == [] || (line == 0 && cps[0] == LF) {
      k := 0;
      assert cps[..0] == [];
    } else {
      var c, tail := cps[0], cps[1..];
      var a := Advance(Origin, c);
      BehindFromColumn(tail, a.line, a.character);
      var j := EndOfLineIsBoundary(tail, if c == LF then line - 1 else line);
      k := j + 1;
      assert cps[..k][0] == c && cps[..k][1..] == tail[..j];
      BehindFromColumn(tail[..j], a.line, a.character);
    }
  }

  lemma WithinLineInUnits(cps: seq<Scalar>, pos: Position)
    ensures (exists k :: WithinLine(cps, pos, k))
            <==> pos.line <= Behind(cps, Origin).line && pos.character <= FirstLineUnits(FromLine(cps, pos.line))
  {
    if k: nat :| WithinLine(cps, pos, k) {
      BoundaryIsInItsLine(cps, k);
    }
    if pos.line <= Behind(cps, Origin).line && pos.character <= FirstLineUnits(FromLine(cps, pos.line)) {
      var k := EndOfLineIsBoundary(cps, pos.line);
      assert WithinLine(cps, pos, k);
    }
  }

  /** A position lies within its line if and only if the text has that line and the
      position counts no more units than the line has. */
  lemma WithinLineExactlyWhen(cps: seq<Scalar>, pos: Position)
    ensures var text := Utf8(cps);
            (exists k :: WithinLine(cps, pos, k))
            <==> pos.line <= PositionOf(text, |text|).line
                 && pos.character <= LineUnits(text, LineStart(text, pos.line))
  {
    var text := Utf8(cps);
    WithinLineInUnits(cps, pos);
    assert text[0..] == text && text[..|text|] == text;
    CountFollowsCodePoints(Origin, cps);
    LineStartOfUtf8(text, 0, cps, pos.line);
    LineUnitsOfUtf8(text, LineStart(text, pos.line), FromLine(cps, pos.line));
  }

  /** Being within the line by UTF-16 units is being within the line by octets. */
  lemma WithinLineIsInLine(cps: seq<Scalar>, pos: Position, k: nat)
    requires WithinLine(cps, pos, k)
    ensures InLine(Utf8(cps), pos)
  {
    WithinLineExactlyWhen(cps, pos);
  }
}
