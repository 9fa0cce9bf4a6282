// Header blocks of any number of lines, and input that ends inside a frame.
module HeaderBlocks {
  import opened Base
  import opened FrameFormat
  import opened Framing

  /** A header line as a peer may send it: not empty, without a line feed, and without a
      carriage return at its end. */
  predicate IsLine(line: Octets) {
    line != "" && '\n' !in line && line[|line| - 1] != '\r'
  }

  ghost predicate AreLines(lines: seq<Octets>) {
    lines != [] && forall i :: 0 <= i < |lines| ==> IsLine(lines[i])
  }

  const CrLf := "\r\n"
  const Lf := "\n"

  predicate IsBreak(b: Octets) {
    b == CrLf || b == Lf
  }

  function Joined(lines: seq<Octets>, b: Octets): (r: Octets)
    requires lines != []
  {
    if |lines| == 1 then lines[0] else lines[0] + b + Joined(lines[1..], b)
  }

  /** The length announced by the last line that announces a usable one. */
  function Announced(lines: seq<Octets>, sofar: Option<nat>): (r: Option<nat>) {
    if lines == [] then sofar
    else Announced(lines[1..], if LineLength(lines[0]).Some? then LineLength(lines[0]) else sofar)
  }

  // -- The length of a block ---------------------------------------------------------------

  lemma TrimsToLine(line: Octets)
    requires IsLine(line)
    ensures TrimCr(line) == line && TrimCr(line + "\r") == line
  {
    assert (line + "\r")[..|line|] == line;
  }

  /** The line feed that ends the first line of a block. */
  lemma FirstBreak(line: Octets, b: Octets, rest: Octets)
    requires IsLine(line) && IsBreak(b)
    ensures var block := line + b + rest;
            var end := IndexOf(block, '\n');
            end == |line| + |b| - 1 && block[..end] == line + b[..|b| - 1] && block[end + 1..] == rest
  {
    var block := line + b + rest;
    assert forall i :: 0 <= i < |line| ==> block[i] == line[i] && line[i] in line;
    IndexIs(block, '\n', |line| + |b| - 1);
  }

  lemma IndexIs(s: Octets, c: char, k: nat)
    requires k <= |s| && (forall i :: 0 <= i < k ==> s[i] != c) && (k < |s| ==> s[k] == c)
    ensures IndexOf(s, c) == k
  {
  }

  lemma FirstLineCounts(line: Octets, b: Octets, sofar: Option<nat>)
    requires IsLine(line) && IsBreak(b)
    ensures Later(line + b[..|b| - 1], sofar) == if LineLength(line).Some? then LineLength(line) else sofar
  {
    TrimsToLine(line);
    if b == Lf {
      assert line + b[..0] == line;
    } else {
      assert b[..1] == "\r";
    }
  }

  lemma LastLineCounts(line: Octets, sofar: Option<nat>)
    requires IsLine(line)
    ensures BlockLength(line, sofar) == if LineLength(line).Some? then LineLength(line) else sofar
  {
    assert forall i :: 0 <= i < |line| ==> line[i] in line;
    IndexIs(line, '\n', |line|);
    assert line[0..] == line && line[0..|line|] == line;
    BlockStep(line, 0, |line|, sofar);
    TrimsToLine(line);
  }

  lemma BlockCons(line: Octets, b: Octets, rest: Octets, sofar: Option<nat>)
    requires IsLine(line) && IsBreak(b) && rest != ""
    ensures BlockLength(line + b + rest, sofar)
            == BlockLength(rest, if LineLength(line).Some? then LineLength(line) else sofar)
  {
    var block := line + b + rest;
    FirstBreak(line, b, rest);
    FirstLineCounts(line, b, sofar);
    var end := |line| + |b| - 1;
    assert block[0..] == block && block[0..end] == block[..end];
    BlockStep(block, 0, end, sofar);
  }

  /** Any lines, joined by either line break, announce what their last usable
      Content-Length says. */
  lemma {:induction false} BlockAnnounces(lines: seq<Octets>, b: Octets, sofar: Option<nat>)
    requires AreLines(lines) && IsBreak(b)
    ensures Joined(lines, b) != "" && BlockLength(Joined(lines, b), sofar) == Announced(lines, sofar)
    decreases |lines|
  {
    var now := if LineLength(lines[0]).Some? then LineLength(lines[0]) else sofar;
    if |lines| == 1 {
      LastLineCounts(lines[0], sofar);
      assert lines[1..] == [];
    } else {
      BlockAnnounces(lines[1..], b, now);
      BlockCons(lines[0], b, Joined(lines[1..], b), sofar);
    }
  }

  // -- The end of a block --------------------------------------------------------------------

  /** Nothing inside, or at the end of, such a string can be taken for an empty line. */
  ghost predicate Tight(s: Octets) {
    && s != "" && s[0] != '\n' && s[|s| - 1] != '\n' && s[|s| - 1] != '\r'
    && (|s| > 1 && s[0] == '\r' ==> s[1] != '\n')
    && (forall k :: 0 <= k < |s| - 1 && s[k] == '\n' ==> s[k + 1] != '\n')
    && (forall k :: 0 <= k < |s| - 2 && s[k] == '\n' && s[k + 1] == '\r' ==> s[k + 2] != '\n')
  }

  lemma LineIsTight(line: Octets)
    requires IsLine(line)
    ensures Tight(line)
  {
    assert forall k :: 0 <= k < |line| ==> line[k] in line;
  }

  lemma ConsIsTight(line: Octets, b: Octets, rest: Octets)
    requires IsLine(line) && IsBreak(b) && Tight(rest)
    ensures Tight(line + b + rest)
  {
    var s, n := line + b + rest, |line| + |b|;
    assert forall k :: 0 <= k < |line| ==> s[k] == line[k] && line[k] in line;
    assert forall k :: n <= k < |s| ==> s[k] == rest[k - n];
    assert s[n - 1] == '\n' && (forall k :: 0 <= k < n - 1 ==> s[k] != '\n');
    forall k | 0 <= k < |s| - 1 && s[k] == '\n' ensures s[k + 1] != '\n' {
      if k >= n { assert rest[k - n] == '\n'; }
    }
    forall k | 0 <= k < |s| - 2 && s[k] == '\n' && s[k + 1] == '\r' ensures s[k + 2] != '\n' {
      if k >= n { assert rest[k - n] == '\n' && rest[k + 1 - n] == '\r'; }
    }
  }

  lemma {:induction false} JoinedIsTight(lines: seq<Octets>, b: Octets)
    requires AreLines(lines) && IsBreak(b)
    ensures Tight(Joined(lines, b))
    decreases |lines|
  {
    if |lines| == 1 {
      LineIsTight(lines[0]);
    } else {
      JoinedIsTight(lines[1..], b);
      ConsIsTight(lines[0], b, Joined(lines[1..], b));
    }
  }

  lemma CrLfCrLfIs(s: Octets, k: nat)
    ensures OccursAt(s, CrLfCrLf, k)
            ==> k + 3 < |s| && s[k] == '\r' && s[k + 1] == '\n' && s[k + 2] == '\r' && s[k + 3] == '\n'
  {
    if OccursAt(s, CrLfCrLf, k) {
      var e := s[k..k + 4];
      assert e[0] == s[k] && e[1] == s[k + 1] && e[2] == s[k + 2] && e[3] == s[k + 3];
    }
  }

  lemma LfLfIs(s: Octets, k: nat)
    ensures OccursAt(s, LfLf, k) ==> k + 1 < |s| && s[k] == '\n' && s[k + 1] == '\n'
  {
    if OccursAt(s, LfLf, k) {
      var e := s[k..k + 2];
      assert e[0] == s[k] && e[1] == s[k + 1];
    }
  }

  lemma NoDelimiterInside(h: Octets, more: Octets, k: nat)
    requires Tight(h) && k < |h|
    ensures !OccursAt(h + more, CrLfCrLf, k) && !OccursAt(h + more, LfLf, k)
  {
    CrLfCrLfIs(h + more, k);
    LfLfIs(h + more, k);
  }

  lemma EndsAtCrLfCrLf(h: Octets, more: Octets)
    requires Tight(h)
    ensures FindHeaderEnd(h + CrLfCrLf + more) == Some(HeaderEnd(|h|, 4))
  {
    var s := h + CrLfCrLf + more;
    assert s == h + (CrLfCrLf + more);
    assert s[|h|..|h| + 4] == CrLfCrLf;
    assert OccursAt(s, CrLfCrLf, |h|);
    forall k: nat | k < |h| ensures !OccursAt(s, CrLfCrLf, k) && !OccursAt(s, LfLf, k) {
      NoDelimiterInside(h, CrLfCrLf + more, k);
    }
    CrLfCrLfIs(s, |h|);
    LfLfIs(s, |h|);
  }

  lemma EndsAtLfLf(h: Octets, more: Octets)
    requires Tight(h)
    ensures FindHeaderEnd(h + LfLf + more) == Some(HeaderEnd(|h|, 2))
  {
    var s := h + LfLf + more;
    assert s == h + (LfLf + more);
    assert s[|h|..|h| + 2] == LfLf;
    assert OccursAt(s, LfLf, |h|);
    forall k: nat | k < |h| ensures !OccursAt(s, CrLfCrLf, k) && !OccursAt(s, LfLf, k) {
      NoDelimiterInside(h, LfLf + more, k);
    }
  }

  // -- Frames with any header block ----------------------------------------------------------------

  /** A block of lines and the empty line behind it. */
  function Block(lines: seq<Octets>, b: Octets): (r: Octets)
    requires lines != []
  {
    Joined(lines, b) + b + b
  }

  lemma BlockEnds(lines: seq<Octets>, b: Octets, more: Octets)
    requires AreLines(lines) && IsBreak(b)
    ensures FindHeaderEnd(Block(lines, b) + more) == Some(HeaderEnd(|Joined(lines, b)|, 2 * |b|))
  {
    var h := Joined(lines, b);
    JoinedIsTight(lines, b);
    if b == CrLf {
      assert Block(lines, b) + more == h + CrLfCrLf + more;
      EndsAtCrLfCrLf(h, more);
    } else {
      assert Block(lines, b) + more == h + LfLf + more;
      EndsAtLfLf(h, more);
    }
  }

  /** Whatever header block precedes it: what follows is read as its last usable
      Content-Length says; without one it is read as the next header. */
  lemma BlockDelivers(lines: seq<Octets>, b: Octets, more: Octets, maxFrame: nat, goOn: bool)
    requires AreLines(lines) && IsBreak(b)
    ensures Deliver(Block(lines, b) + more, maxFrame, goOn) == Body(more, Announced(lines, None), maxFrame, goOn)
  {
    var h := Joined(lines, b);
    BlockEnds(lines, b, more);
    BlockAnnounces(lines, b, None);
    var input := Block(lines, b) + more;
    assert input[..|h|] == h && input[|h| + 2 * |b|..] == more;
  }

  /** A header line with another key, or with none. */
  predicate OtherHeader(line: Octets) {
    IsLine(line) && line[..IndexOf(line, ':')] != "Content-Length"
  }

  lemma {:induction false} OthersAnnounceNothing(lines: seq<Octets>, sofar: Option<nat>)
    requires forall i :: 0 <= i < |lines| ==> OtherHeader(lines[i])
    ensures Announced(lines, sofar) == sofar
    decreases |lines|
  {
    if lines != [] {
      assert OtherHeader(lines[0]);
      OthersAnnounceNothing(lines[1..], sofar);
    }
  }

  lemma {:induction false} AnnouncedAppend(a: seq<Octets>, c: seq<Octets>, sofar: Option<nat>)
    ensures Announced(a + c, sofar) == Announced(c, Announced(a, sofar))
    decreases |a|
  {
    if a == [] {
      assert a + c == c;
    } else {
      assert (a + c)[0] == a[0] && (a + c)[1..] == a[1..] + c;
      AnnouncedAppend(a[1..], c, if LineLength(a[0]).Some? then LineLength(a[0]) else sofar);
    }
  }

  lemma LengthLine(n: nat)
    requires n <= IntMax
    ensures IsLine("Content-Length: " + Decimal(n)) && LineLength("Content-Length: " + Decimal(n)) == Some(n)
  {
    HeaderIsOneLine(n);
    var h := Header(n);
    assert '\n' !in h && h[|h| - 1] != '\r';
    HeaderShape(n);
    KeyAndValue(" " + Decimal(n));
    ParsesWrittenLength(n);
  }

  lemma OneLengthAnnounced(before: seq<Octets>, after: seq<Octets>, n: nat)
    requires n <= IntMax
    requires forall i :: 0 <= i < |before| ==> OtherHeader(before[i])
    requires forall i :: 0 <= i < |after| ==> OtherHeader(after[i])
    ensures var lines := before + ["Content-Length: " + Decimal(n)] + after;
            AreLines(lines) && Announced(lines, None) == Some(n)
  {
    var line := "Content-Length: " + Decimal(n);
    LengthLine(n);
    var lines := before + [line] + after;
    forall i | 0 <= i < |lines| ensures IsLine(lines[i]) {
      if i < |before| { assert lines[i] == before[i]; } else if i > |before| { assert lines[i] == after[i - |before| - 1]; }
    }
    AnnouncedAppend(before + [line], after, None);
    AnnouncedAppend(before, [line], None);
    OthersAnnounceNothing(before, None);
    OthersAnnounceNothing(after, Some(n));
    assert [line][1..] == [];
  }

  /** A frame whose header has further lines in front of or behind its Content-Length,
      with either line break, is delivered like any other. */
  lemma ExtraHeadersAreIgnored(before: seq<Octets>, after: seq<Octets>, b: Octets, body: Octets, rest: Octets, maxFrame: nat, goOn: bool)
    requires |body| <= IntMax && IsBreak(b) && !TooLong(|body|, maxFrame)
    requires forall i :: 0 <= i < |before| ==> OtherHeader(before[i])
    requires forall i :: 0 <= i < |after| ==> OtherHeader(after[i])
    ensures var lines := before + ["Content-Length: " + Decimal(|body|)] + after;
            Deliver(Block(lines, b) + (body + rest), maxFrame, goOn) == [body] + Deliver(rest, maxFrame, goOn)
  {
    var lines := before + ["Content-Length: " + Decimal(|body|)] + after;
    OneLengthAnnounced(before, after, |body|);
    BlockDelivers(lines, b, body + rest, maxFrame, goOn);
    assert (body + rest)[..|body|] == body && (body + rest)[|body|..] == rest;
  }

  /** A header block without a Content-Length is skipped. */
  lemma BlockWithoutLengthIsSkipped(lines: seq<Octets>, b: Octets, rest: Octets, maxFrame: nat, goOn: bool)
    requires lines != [] && IsBreak(b) && forall i :: 0 <= i < |lines| ==> OtherHeader(lines[i])
    ensures Deliver(Block(lines, b) + rest, maxFrame, goOn) == Deliver(rest, maxFrame, goOn)
  {
    OthersAnnounceNothing(lines, None);
    BlockDelivers(lines, b, rest, maxFrame, goOn);
  }

  // -- Input that ends inside a frame ----------------------------------------------------------------

  /** Nothing ends the session before all bodies have been read. */
  ghost predicate ReadsOn(bodies: seq<Octets>, maxFrame: nat, goOn: bool) {
    goOn || forall i :: 0 <= i < |bodies| ==> !TooLong(|bodies[i]|, maxFrame)
  }

  lemma {:induction false} FramesThen(bodies: seq<Octets>, tail: Octets, maxFrame: nat, goOn: bool)
    requires forall i :: 0 <= i < |bodies| ==> |bodies[i]| <= IntMax
    requires ReadsOn(bodies, maxFrame, goOn)
    ensures Deliver(WrittenAll(bodies) + tail, maxFrame, goOn)
            == Kept(bodies, maxFrame, goOn) + Deliver(tail, maxFrame, goOn)
    decreases |bodies|
  {
    if bodies == [] {
      assert WrittenAll(bodies) + tail == tail;
    } else {
      var body, rest := bodies[0], WrittenAll(bodies[1..]) + tail;
      Reassociate(Written(body), WrittenAll(bodies[1..]), tail);
      FirstFrame(body, rest, maxFrame, goOn);
      FramesThen(bodies[1..], tail, maxFrame, goOn);
      Reassociate(if TooLong(|body|, maxFrame) then [] else [body], Kept(bodies[1..], maxFrame, goOn),
                  Deliver(tail, maxFrame, goOn));
    }
  }

  lemma FirstFrame(body: Octets, rest: Octets, maxFrame: nat, goOn: bool)
    requires |body| <= IntMax && (goOn || !TooLong(|body|, maxFrame))
    ensures Deliver(Written(body) + rest, maxFrame, goOn)
            == (if TooLong(|body|, maxFrame) then [] else [body]) + Deliver(rest, maxFrame, goOn)
  {
    DeliversWritten(body, rest, maxFrame, goOn);
    assert (body + rest)[..|body|] == body && (body + rest)[|body|..] == rest;
  }

  /** The first octets of a frame, but not all of them. */
  predicate IsPart(tail: Octets, body: Octets) {
    tail < Written(body)
  }

  lemma PartOfHeader(n: nat, tail: Octets, maxFrame: nat, goOn: bool)
    requires tail < Header(n) + CrLfCrLf
    ensures Deliver(tail, maxFrame, goOn) == []
  {
    var whole := Header(n) + CrLfCrLf;
    HeaderIsOneLine(n);
    assert whole[..|tail|] == tail;
    forall k: nat ensures !OccursAt(tail, CrLfCrLf, k) && !OccursAt(tail, LfLf, k) {
      if k + 4 <= |tail| {
        assert tail[k..k + 4][0] == tail[k] == whole[k] && k < |Header(n)|;
      }
      if k + 2 <= |tail| {
        assert tail[k..k + 2][0] == whole[k] && tail[k..k + 2][1] == whole[k + 1];
      }
    }
  }

  lemma PartOfBody(body: Octets, part: Octets, maxFrame: nat, goOn: bool)
    requires |body| <= IntMax && |part| < |body|
    ensures Deliver(Header(|body|) + CrLfCrLf + part, maxFrame, goOn) == []
  {
    var h := Header(|body|);
    HeaderIsOneLine(|body|);
    HeaderAnnounces(|body|);
    HeaderEndsAtDelimiter(h, part);
    var s := h + CrLfCrLf + part;
    assert s[..|h|] == h && s[|h| + 4..] == part;
  }

  lemma PartDeliversNothing(tail: Octets, body: Octets, maxFrame: nat, goOn: bool)
    requires |body| <= IntMax && IsPart(tail, body)
    ensures Deliver(tail, maxFrame, goOn) == []
  {
    var head := Header(|body|) + CrLfCrLf;
    assert Written(body) == head + body && Written(body)[..|tail|] == tail;
    if |tail| < |head| {
      assert head[..|tail|] == tail;
      PartOfHeader(|body|, tail, maxFrame, goOn);
    } else {
      var part := tail[|head|..];
      assert tail == head + part;
      PartOfBody(body, part, maxFrame, goOn);
    }
  }

  /** Input that ends inside a frame delivers the frames before it and nothing of it. */
  lemma IncompleteFrameIsNotDelivered(bodies: seq<Octets>, tail: Octets, body: Octets, maxFrame: nat, goOn: bool)
    requires forall i :: 0 <= i < |bodies| ==> |bodies[i]| <= IntMax
    requires |body| <= IntMax && IsPart(tail, body) && ReadsOn(bodies, maxFrame, goOn)
    ensures Deliver(WrittenAll(bodies) + tail, maxFrame, goOn) == Kept(bodies, maxFrame, goOn)
  {
    FramesThen(bodies, tail, maxFrame, goOn);
    PartDeliversNothing(tail, body, maxFrame, goOn);
  }

  /** The limit, exactly: a written frame is delivered if there is no limit or it is not
      longer; a longer one is skipped if the overload handler says so, and otherwise
      nothing is delivered any more. */
  lemma FrameLimitExactly(body: Octets, rest: Octets, maxFrame: nat, goOn: bool)
    requires |body| <= IntMax
    ensures Deliver(Written(body) + rest, maxFrame, goOn)
            == if maxFrame == 0 || |body| <= maxFrame then [body] + Deliver(rest, maxFrame, goOn)
               else if goOn then Deliver(rest, maxFrame, goOn) else []
  {
    DeliversWritten(body, rest, maxFrame, goOn);
    assert (body + rest)[..|body|] == body && (body + rest)[|body|..] == rest;
  }

  // -- What counts as a length ----------------------------------------------------------------

  /** A length value taken apart: white space, an optional sign, digits, blanks, and
      whatever follows a NUL. */
  datatype LengthText = LengthText(white: Octets, sign: Octets, digits: Octets, blanks: Octets, tail: Octets)

  function Text(t: LengthText): Octets {
    t.white + (t.sign + (t.digits + (t.blanks + t.tail)))
  }

  predicate IsWhite(c: char) {
    c as int == 32 || 9 <= c as int <= 13
  }

  /** The number is in the range of int, and negative only as a zero. */
  ghost predicate Fine(t: LengthText, n: nat) {
    && (forall i :: 0 <= i < |t.white| ==> IsWhite(t.white[i]))
    && (t.sign == "" || t.sign == "+" || (t.sign == "-" && n == 0))
    && t.digits != "" && (forall i :: 0 <= i < |t.digits| ==> '0' <= t.digits[i] <= '9')
    && ValueOf(t.digits) == n && n <= 0x7FFF_FFFF
    && (forall i :: 0 <= i < |t.blanks| ==> t.blanks[i] == ' ' || t.blanks[i] == '\t')
    && (t.tail == "" || t.tail[0] == '\0')
  }

  lemma {:induction false} CStringOf(a: Octets, tail: Octets)
    requires '\0' !in a && (tail == "" || tail[0] == '\0')
    ensures CString(a + tail) == a
  {
    if a == "" {
      assert a + tail == tail;
    } else {
      assert a[0] in a && (a + tail)[0] == a[0] && (a + tail)[1..] == a[1..] + tail;
      CStringOf(a[1..], tail);
    }
  }

  lemma {:induction false} SpacesAre(s: Octets)
    ensures forall i :: 0 <= i < Spaces(s) ==> IsWhite(s[i])
  {
    if s != "" && IsSpace(s[0]) {
      SpacesAre(s[1..]);
      forall i | 0 < i < Spaces(s) ensures IsWhite(s[i]) { assert s[i] == s[1..][i - 1]; }
    }
  }

  lemma {:induction false} BlanksAre(s: Octets)
    ensures forall i :: 0 <= i < Blanks(s) ==> s[i] == ' ' || s[i] == '\t'
  {
    if s != "" && (s[0] == ' ' || s[0] == '\t') {
      BlanksAre(s[1..]);
      forall i | 0 < i < Blanks(s) ensures s[i] == ' ' || s[i] == '\t' { assert s[i] == s[1..][i - 1]; }
    }
  }

  lemma {:induction false} CStringIs(s: Octets)
    ensures CString(s) <= s && (|CString(s)| < |s| ==> s[|CString(s)|] == '\0')
  {
    if s != "" && s[0] != '\0' {
      CStringIs(s[1..]);
    }
  }

  lemma {:induction false} SpacesOf(white: Octets, rest: Octets)
    requires (forall i :: 0 <= i < |white| ==> IsWhite(white[i])) && rest != "" && !IsWhite(rest[0])
    ensures Spaces(white + rest) == |white|
  {
    if white == "" {
      assert white + rest == rest;
    } else {
      assert (white + rest)[0] == white[0] && (white + rest)[1..] == white[1..] + rest;
      SpacesOf(white[1..], rest);
    }
  }

  lemma {:induction false} DigitsOf(digits: Octets, rest: Octets)
    requires (forall i :: 0 <= i < |digits| ==> IsDigit(digits[i])) && (rest == "" || !IsDigit(rest[0]))
    ensures Digits(digits + rest) == |digits|
  {
    if digits == "" {
      assert digits + rest == rest;
    } else {
      assert (digits + rest)[0] == digits[0] && (digits + rest)[1..] == digits[1..] + rest;
      DigitsOf(digits[1..], rest);
    }
  }

  lemma BlanksOf(blanks: Octets)
    requires forall i :: 0 <= i < |blanks| ==> blanks[i] == ' ' || blanks[i] == '\t'
    ensures Blanks(blanks) == |blanks|
  {
  }

  lemma SignDropped(sign: Octets, digits: Octets, rest: Octets)
    requires (sign == "" || sign == "+" || sign == "-") && digits != "" && IsDigit(digits[0])
    ensures DropSign(sign + (digits + rest)) == (sign == "-", digits + rest)
  {
    var s := sign + (digits + rest);
    if sign == "" {
      assert s == digits + rest && s[0] == digits[0];
    } else {
      assert s[0] == sign[0] && s[1..] == digits + rest;
    }
  }

  lemma PlainPart(t: LengthText, n: nat)
    requires Fine(t, n)
    ensures var plain := t.white + (t.sign + (t.digits + t.blanks));
            '\0' !in plain && Text(t) == plain + t.tail && CString(Text(t)) == plain
  {
    var plain := t.white + (t.sign + (t.digits + t.blanks));
    forall i | 0 <= i < |plain| ensures plain[i] != '\0' {
      var a, b := |t.white|, |t.white| + |t.sign|;
      if i < a { assert plain[i] == t.white[i]; }
      else if i < b { assert plain[i] == t.sign[i - a]; }
      else if i < b + |t.digits| { assert plain[i] == t.digits[i - b]; }
      else { assert plain[i] == t.blanks[i - b - |t.digits|]; }
    }
    assert Text(t) == plain + t.tail;
    CStringOf(plain, t.tail);
  }

  /** What parseContentLength makes of a C string. */
  function ParsePlain(s: Octets): Option<nat> {
    ParseSigned(DropSign(s[Spaces(s)..]))
  }

  function ParseSigned(number: (bool, Octets)): Option<nat> {
    var k := Digits(number.1);
    if k == 0 then None else Judge(number.0, ValueOf(number.1[..k]), number.1[k..])
  }

  function Judge(negative: bool, n: nat, behind: Octets): Option<nat> {
    if (negative && n != 0) || n > IntMax || Blanks(behind) < |behind| then None else Some(n)
  }

  lemma SplitDigits(digits: Octets, blanks: Octets)
    requires forall i :: 0 <= i < |digits| ==> IsDigit(digits[i])
    requires forall i :: 0 <= i < |blanks| ==> blanks[i] == ' ' || blanks[i] == '\t'
    ensures var k := Digits(digits + blanks);
            k == |digits| && (digits + blanks)[..k] == digits && (digits + blanks)[k..] == blanks
  {
    DigitsOf(digits, blanks);
  }

  lemma ParseIsPlain(v: Octets)
    ensures ParseLength(v) == ParsePlain(CString(v))
  {
  }

  lemma AcceptsNumber(negative: bool, digits: Octets, blanks: Octets, n: nat)
    requires digits != "" && (forall i :: 0 <= i < |digits| ==> IsDigit(digits[i])) && ValueOf(digits) == n <= IntMax
    requires (negative ==> n == 0) && forall i :: 0 <= i < |blanks| ==> blanks[i] == ' ' || blanks[i] == '\t'
    ensures ParseSigned((negative, digits + blanks)) == Some(n)
  {
    SplitDigits(digits, blanks);
    BlanksOf(blanks);
    assert Judge(negative, n, blanks) == Some(n);
  }

  lemma AcceptsFine(t: LengthText, n: nat)
    requires Fine(t, n)
    ensures ParseLength(Text(t)) == Some(n)
  {
    PlainPart(t, n);
    ParseIsPlain(Text(t));
    AcceptsPlain(t.white, t.sign, t.digits, t.blanks, n);
  }

  lemma AcceptsPlain(white: Octets, sign: Octets, digits: Octets, blanks: Octets, n: nat)
    requires Fine(LengthText(white, sign, digits, blanks, ""), n)
    ensures ParsePlain(white + (sign + (digits + blanks))) == Some(n)
  {
    WhiteIsSkipped(white, sign, digits, blanks);
    SignDropped(sign, digits, blanks);
    AcceptsNumber(sign == "-", digits, blanks, n);
  }

  lemma WhiteIsSkipped(white: Octets, sign: Octets, digits: Octets, blanks: Octets)
    requires (forall i :: 0 <= i < |white| ==> IsWhite(white[i])) && (sign == "" || sign == "+" || sign == "-")
    requires digits != "" && IsDigit(digits[0])
    ensures var s := white + (sign + (digits + blanks)); s[Spaces(s)..] == sign + (digits + blanks)
  {
    var rest := sign + (digits + blanks);
    assert rest[0] == if sign == "" then digits[0] else sign[0];
    SpacesOf(white, rest);
    assert (white + rest)[|white|..] == rest;
  }

  lemma SignSplit(rest: Octets) returns (sign: Octets)
    ensures rest == sign + DropSign(rest).1 && DropSign(rest).0 == (sign == "-")
    ensures sign == "" || sign == "+" || sign == "-"
  {
    sign := rest[..|rest| - |DropSign(rest).1|];
  }

  lemma NumberSplit(negative: bool, number: Octets, n: nat)
    requires ParseSigned((negative, number)) == Some(n)
    ensures var digits, blanks := number[..Digits(number)], number[Digits(number)..];
            && digits != "" && ValueOf(digits) == n <= IntMax && (negative ==> n == 0)
            && number == digits + blanks
            && forall i :: 0 <= i < |blanks| ==> blanks[i] == ' ' || blanks[i] == '\t'
  {
    BlanksAre(number[Digits(number)..]);
  }

  lemma SignedIsFine(rest: Octets, n: nat) returns (t: LengthText)
    requires ParseSigned(DropSign(rest)) == Some(n)
    ensures Fine(t, n) && t.white == t.tail == "" && rest == t.sign + (t.digits + t.blanks)
  {
    var sign := SignSplit(rest);
    var number := DropSign(rest).1;
    NumberSplit(sign == "-", number, n);
    t := LengthText("", sign, number[..Digits(number)], number[Digits(number)..], "");
  }

  lemma PlainIsFine(s: Octets, n: nat) returns (t: LengthText)
    requires ParsePlain(s) == Some(n)
    ensures Fine(t, n) && t.tail == "" && s == t.white + (t.sign + (t.digits + t.blanks))
  {
    var r := SignedIsFine(s[Spaces(s)..], n);
    t := r.(white := s[..Spaces(s)]);
    SpacesAre(s);
    SplitSeq(s, Spaces(s));
  }

  lemma AcceptedIsFine(v: Octets, n: nat) returns (t: LengthText)
    requires ParseLength(v) == Some(n)
    ensures Fine(t, n) && Text(t) == v
  {
    ParseIsPlain(v);
    CStringIs(v);
    var r := PlainIsFine(CString(v), n);
    t := r.(tail := v[|CString(v)|..]);
    TextIs(v, CString(v), r.white, r.sign, r.digits, r.blanks);
  }

  lemma TextIs(v: Octets, s: Octets, white: Octets, sign: Octets, digits: Octets, blanks: Octets)
    requires s <= v && s == white + (sign + (digits + blanks))
    ensures white + (sign + (digits + (blanks + v[|s|..]))) == v
  {
    SplitSeq(v, |s|);
  }

  /** A value is read as length n if and only if it is white space, an optional sign,
      decimal digits for n and blanks, up to its end or a NUL. */
  lemma LengthReadExactlyWhen(v: Octets, n: nat)
    ensures ParseLength(v) == Some(n) <==> exists t :: Fine(t, n) && Text(t) == v
  {
    if ParseLength(v) == Some(n) {
      var t := AcceptedIsFine(v, n);
    }
    if t :| Fine(t, n) && Text(t) == v {
      AcceptsFine(t, n);
    }
  }
}
