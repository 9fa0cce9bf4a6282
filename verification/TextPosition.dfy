// Offsets and UTF-16 positions (src/lsp/utils.cpp). Text is a string of octets.
module TextPosition {

  type Octet = b: int | 0 <= b < 256
  type Text = seq<Octet>

  const LF := 10

  datatype Position = Position(line: nat, character: nat)

  predicate Continuation(b: Octet) {
    128 <= b < 192
  }

  /** UTF-16 code units of the code point that starts with this octet. */
  function UnitsOfLead(lead: Octet): (u: nat) {
    if lead >= 0xF0 then 2 else 1
  }

  function Less(a: nat, b: nat): (r: nat) {
    if a < b then 0 else a - b
  }

  /** The first loop: past the first `line` line feeds, or to the end. */
  function SkipLines(text: Text, line: nat, i: nat): (r: nat)
    requires i <= |text|
    ensures i <= r <= |text|
    decreases |text| - i
  {
    if line == 0 || i == |text| then i
    else SkipLines(text, if text[i] == LF then line - 1 else line, i + 1)
  }

  function SkipContinuation(text: Text, i: nat): (r: nat)
    requires i <= |text|
    ensures i <= r <= |text|
    decreases |text| - i
  {
    if i < |text| && Continuation(text[i]) then SkipContinuation(text, i + 1) else i
  }

  /** The end of the code point that starts at i, as the scan sees it. */
  function Next(text: Text, i: nat): (r: nat)
    requires i < |text|
    ensures i < r <= |text|
  {
    if text[i] >= 128 then SkipContinuation(text, i + 1) else i + 1
  }

  /** The second loop: over code points until `character` units are used up. */
  function SkipUnits(text: Text, character: nat, i: nat): (r: nat)
    requires i <= |text|
    ensures i <= r <= |text|
    decreases |text| - i
  {
    if character == 0 || i == |text| then i
    else SkipUnits(text, Less(character, UnitsOfLead(text[i])), Next(text, i))
  }

  /** GetOffsetForPosition. */
  function OffsetOf(text: Text, pos: Position): (r: nat)
    ensures r <= |text|
  {
    SkipUnits(text, pos.character, SkipLines(text, pos.line, 0))
  }

  method UnitsLoop(text: Text, position: nat, start: nat) returns (i: nat)
    requires start <= |text|
    ensures i == SkipUnits(text, position, start)
  {
    i := start;
    var character := position;
    while character > 0 && i < |text|
      invariant i <= |text|
      invariant SkipUnits(text, character, i) == SkipUnits(text, position, start)
      decreases |text| - i
    {
      var lead := text[i];
      ghost var at := i;
      i := i + 1;
      if lead >= 128 {
        while i < |text| && text[i] >= 128 && text[i] < 192
          invariant at < i <= |text|
          invariant SkipContinuation(text, i) == SkipContinuation(text, at + 1)
        {
          i := i + 1;
        }
      }
      var units := if lead >= 0xF0 then 2 else 1;
      character := character - if character < units then character else units;
    }
  }

  method GetOffsetForPosition(text: Text, position: Position) returns (r: nat)
    ensures r == OffsetOf(text, position) <= |text|
  {
    var line, i := position.line, 0;
    while line > 0 && i < |text|
      invariant i <= |text|
      invariant SkipLines(text, line, i) == SkipLines(text, position.line, 0)
      decreases |text| - i
    {
      if text[i] == LF {
        line := line - 1;
      }
      i := i + 1;
    }
    r := UnitsLoop(text, position.character, i);
  }

  /** The effect of one octet on the position. */
  function Count(pos: Position, b: Octet): (r: Position) {
    if b == LF then Position(pos.line + 1, 0)
    else if Continuation(b) then pos
    else Position(pos.line, pos.character + UnitsOfLead(b))
  }

  function CountAll(pos: Position, octets: Text): (r: Position)
    decreases |octets|
  {
    if octets == [] then pos else CountAll(Count(pos, octets[0]), octets[1..])
  }

  /** GetPositionForOffset; an offset past the end stops at the end. */
  function PositionOf(text: Text, offset: nat): (r: Position) {
    CountAll(Position(0, 0), text[..if offset < |text| then offset else |text|])
  }

  lemma {:induction false} CountAppend(pos: Position, a: Text, b: Text)
    ensures CountAll(pos, a + b) == CountAll(CountAll(pos, a), b)
    decreases |a|
  {
    if a == [] {
      assert a + b == b;
    } else {
      assert (a + b)[1..] == a[1..] + b;
      CountAppend(Count(pos, a[0]), a[1..], b);
    }
  }

  method GetPositionForOffset(text: Text, offset: nat) returns (r: Position)
    ensures r == PositionOf(text, offset)
  {
    var line, character := 0, 0;
    var i := 0;
    while i < offset && i < |text|
      invariant 0 <= i <= |text| && i <= offset
      invariant Position(line, character) == CountAll(Position(0, 0), text[..i])
    {
      assert text[..i + 1] == text[..i] + [text[i]];
      CountAppend(Position(0, 0), text[..i], [text[i]]);
      assert CountAll(Position(line, character), [text[i]]) == Count(Position(line, character), text[i]);
      var byte := text[i];
      if byte == LF {
        line := line + 1;
        character := 0;
      } else if byte < 128 || byte >= 192 {
        character := character + if byte >= 0xF0 then 2 else 1;
      }
      i := i + 1;
    }
    r := Position(line, character);
  }

  // -- Order --------------------------------------------------------------------------

  predicate AtMost(a: Position, b: Position) {
    a.line < b.line || (a.line == b.line && a.character <= b.character)
  }

  /** The line feed that ends the line starting at i, or the end of the text. */
  function EndOfLine(text: Text, i: nat): (r: nat)
    requires i <= |text|
    ensures i <= r <= |text| && (r < |text| ==> text[r] == LF)
    ensures forall k :: i <= k < r ==> text[k] != LF
    decreases |text| - i
  {
    if i == |text| || text[i] == LF then i else EndOfLine(text, i + 1)
  }

  /** The units of the rest of the line from i on, its line feed not counted. */
  function LineUnits(text: Text, i: nat): (u: nat)
    requires i <= |text|
    decreases |text| - i
  {
    if i == |text| || text[i] == LF then 0 else UnitsOfLead(text[i]) + LineUnits(text, Next(text, i))
  }

  function LineStart(text: Text, line: nat): (r: nat)
    ensures r <= |text|
  {
    SkipLines(text, line, 0)
  }

  /** The position counts no more units than its line has; the last line has no end to
      run past. */
  predicate InLine(text: Text, pos: Position) {
    var start := LineStart(text, pos.line);
    EndOfLine(text, start) == |text| || pos.character <= LineUnits(text, start)
  }

  lemma {:induction false} NoLineFeedSkipped(text: Text, i: nat)
    requires i <= |text|
    ensures EndOfLine(text, SkipContinuation(text, i)) == EndOfLine(text, i)
    decreases |text| - i
  {
    if i < |text| && Continuation(text[i]) {
      NoLineFeedSkipped(text, i + 1);
    }
  }

  /** How far a number of units reaches, in units: up to the end of the line, or up to
      and over its line feed. */
  lemma {:induction false} UnitsReach(text: Text, c: nat, i: nat)
    requires i <= |text|
    ensures var e := EndOfLine(text, i);
            && (SkipUnits(text, c, i) <= e <==> e == |text| || c <= LineUnits(text, i))
            && (e < |text| ==> (SkipUnits(text, c, i) <= e + 1 <==> e + 1 == |text| || c <= LineUnits(text, i) + 1))
    decreases |text| - i
  {
    if i < |text| && text[i] != LF {
      NoLineFeedSkipped(text, i + 1);
      assert EndOfLine(text, i) == EndOfLine(text, Next(text, i));
      UnitsReach(text, Less(c, UnitsOfLead(text[i])), Next(text, i));
    }
  }

  /** Being in the line, counted in units, is not ending behind it. */
  lemma InLineExactlyWhen(text: Text, pos: Position)
    ensures InLine(text, pos) <==> OffsetOf(text, pos) <= EndOfLine(text, LineStart(text, pos.line))
  {
    UnitsReach(text, pos.character, LineStart(text, pos.line));
  }

  lemma {:induction false} MoreUnitsGoFurther(text: Text, a: nat, b: nat, i: nat)
    requires i <= |text| && a <= b
    ensures SkipUnits(text, a, i) <= SkipUnits(text, b, i)
    decreases |text| - i
  {
    if a != 0 && i != |text| {
      var u := UnitsOfLead(text[i]);
      MoreUnitsGoFurther(text, Less(a, u), Less(b, u), Next(text, i));
    }
  }

  /** A later line starts behind the end of an earlier one. */
  lemma {:induction false} LinesAreApart(text: Text, a: nat, b: nat, i: nat)
    requires i <= |text| && a < b
    ensures EndOfLine(text, SkipLines(text, a, i)) <= SkipLines(text, b, i)
    decreases |text| - i
  {
    if i != |text| {
      if a == 0 {
        if text[i] != LF { LinesAreApart(text, a, b, i + 1); }
      } else if text[i] == LF {
        LinesAreApart(text, a - 1, b - 1, i + 1);
      } else {
        LinesAreApart(text, a, b, i + 1);
      }
    }
  }

  /** On any text, ordered positions have ordered offsets as long as the first lies
      within its line. */
  lemma OffsetsAreMonotone(text: Text, a: Position, b: Position)
    requires AtMost(a, b) && (a.line < b.line ==> InLine(text, a))
    ensures OffsetOf(text, a) <= OffsetOf(text, b)
  {
    if a.line == b.line {
      MoreUnitsGoFurther(text, a.character, b.character, SkipLines(text, a.line, 0));
    } else {
      InLineExactlyWhen(text, a);
      LinesAreApart(text, a.line, b.line, 0);
    }
  }

  lemma {:induction false} LaterLinesStartLater(text: Text, a: nat, b: nat, i: nat)
    requires i <= |text| && a <= b
    ensures SkipLines(text, a, i) <= SkipLines(text, b, i)
    decreases |text| - i
  {
    if a > 0 && i != |text| {
      LaterLinesStartLater(text, if text[i] == LF then a - 1 else a, if text[i] == LF then b - 1 else b, i + 1);
    }
  }

  /** The next line starts behind the line feed of this one, or at the end. */
  lemma {:induction false} NextLineStart(text: Text, line: nat, i: nat)
    requires i <= |text|
    ensures var e := EndOfLine(text, SkipLines(text, line, i));
            SkipLines(text, line + 1, i) == if e < |text| then e + 1 else |text|
    decreases |text| - i
  {
    if i < |text| {
      if line > 0 {
        NextLineStart(text, if text[i] == LF then line - 1 else line, i + 1);
      } else if text[i] != LF {
        NextLineStart(text, 0, i + 1);
      }
    }
  }

  /** The exact condition for one position: no later position maps before it if and
      only if it counts no more units than its line with its line feed has, or there is
      no text behind that line. */
  lemma OrderKeptExactlyWhen(text: Text, a: Position)
    ensures (forall b :: AtMost(a, b) ==> OffsetOf(text, a) <= OffsetOf(text, b))
            <==> LineStart(text, a.line + 1) == |text| || a.character <= LineUnits(text, LineStart(text, a.line)) + 1
  {
    NextLineStart(text, a.line, 0);
    UnitsReach(text, a.character, LineStart(text, a.line));
    OrderKeptAgainstNextLine(text, a);
  }

  lemma OrderKeptAgainstNextLine(text: Text, a: Position)
    ensures (forall b :: AtMost(a, b) ==> OffsetOf(text, a) <= OffsetOf(text, b))
            <==> OffsetOf(text, a) <= LineStart(text, a.line + 1)
  {
    var next := Position(a.line + 1, 0);
    assert AtMost(a, next) && OffsetOf(text, next) == LineStart(text, a.line + 1);
    if OffsetOf(text, a) <= LineStart(text, a.line + 1) {
      forall b | AtMost(a, b) ensures OffsetOf(text, a) <= OffsetOf(text, b) {
        if a.line == b.line {
          OffsetsAreMonotone(text, a, b);
        } else {
          LaterLinesStartLater(text, a.line + 1, b.line, 0);
        }
      }
    }
  }

  const TwoLines: Text := [97, LF, 98]

  /** Without that condition order can be lost: the code does not clamp to the line. */
  lemma PastTheLineBreaksOrder()
    ensures AtMost(Position(0, 3), Position(1, 0))
    ensures OffsetOf(TwoLines, Position(0, 3)) > OffsetOf(TwoLines, Position(1, 0))
  {
    assert SkipLines(TwoLines, 1, 0) == SkipLines(TwoLines, 1, 1) == SkipLines(TwoLines, 0, 2) == 2;
    assert SkipUnits(TwoLines, 3, 0) == SkipUnits(TwoLines, 2, 1) == SkipUnits(TwoLines, 1, 2) == SkipUnits(TwoLines, 0, 3) == 3;
  }
}
