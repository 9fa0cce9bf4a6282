// The frame format of the LSP base protocol: the Content-Length header, as
// StreamMessageProducer.cpp reads it and WriterMsg writes it.
module FrameFormat {
  import opened Base

  const IntMax := 0x7FFF_FFFF

  // -- Numbers ----------------------------------------------------------------------

  predicate IsDigit(c: char) {
    '0' <= c <= '9'
  }

  function DigitOf(n: nat): (c: char)
    requires n < 10
    ensures IsDigit(c) && DigitValue(c) == n
  {
    ('0' as int + n) as char
  }

  function DigitValue(c: char): (n: nat)
    requires IsDigit(c)
    ensures n < 10
  {
    c as int - '0' as int
  }

  /** std::to_string. */
  function Decimal(n: nat): (r: Octets) {
    if n < 10 then [DigitOf(n)] else Decimal(n / 10) + [DigitOf(n % 10)]
  }

  function ValueOf(digits: Octets): (r: nat)
    requires forall i :: 0 <= i < |digits| ==> IsDigit(digits[i])
  {
    if digits == [] then 0
    else ValueOf(digits[..|digits| - 1]) * 10 + DigitValue(digits[|digits| - 1])
  }

  lemma {:induction false} ValueOfDecimal(n: nat)
    ensures Decimal(n) != [] && forall i :: 0 <= i < |Decimal(n)| ==> IsDigit(Decimal(n)[i])
    ensures ValueOf(Decimal(n)) == n
  {
    if n >= 10 {
      ValueOfDecimal(n / 10);
      assert Decimal(n)[..|Decimal(n)| - 1] == Decimal(n / 10);
    } else {
      assert Decimal(n)[..0] == [];
    }
  }

  predicate IsSpace(c: char) {
    c == ' ' || c == '\t' || c == '\n' || c == '\r' || c as int == 11 || c as int == 12
  }

  /** How many white space characters the string starts with. */
  function Spaces(s: Octets): (k: nat)
    ensures k <= |s| && (k < |s| ==> !IsSpace(s[k]))
  {
    if s == [] || !IsSpace(s[0]) then 0 else 1 + Spaces(s[1..])
  }

  function Digits(s: Octets): (k: nat)
    ensures k <= |s| && (forall i :: 0 <= i < k ==> IsDigit(s[i])) && (k < |s| ==> !IsDigit(s[k]))
  {
    if s == [] || !IsDigit(s[0]) then 0 else 1 + Digits(s[1..])
  }

  function Blanks(s: Octets): (k: nat)
    ensures k <= |s| && (k < |s| ==> s[k] != ' ' && s[k] != '\t')
  {
    if s == [] || (s[0] != ' ' && s[0] != '\t') then 0 else 1 + Blanks(s[1..])
  }

  /** A C string ends at its first NUL. */
  function CString(s: Octets): (r: Octets) {
    if s == [] || s[0] == '\0' then [] else [s[0]] + CString(s[1..])
  }

  function DropSign(s: Octets): (r: (bool, Octets)) {
    if s != [] && s[0] == '-' then (true, s[1..])
    else if s != [] && s[0] == '+' then (false, s[1..])
    else (false, s)
  }

  /** parseContentLength: strtol in base 10, then only blanks up to the end. A value
      that strtol cannot represent is out of range here as well. */
  function ParseLength(value: Octets): (r: Option<nat>)
    ensures r.Some? ==> r.value <= IntMax
  {
    var s := CString(value);
    var (negative, t) := DropSign(s[Spaces(s)..]);
    var k := Digits(t);
    if k == 0 then None
    else
      var n := ValueOf(t[..k]);
      if (negative && n != 0) || n > IntMax || Blanks(t[k..]) < |t[k..]| then None else Some(n)
  }

  lemma {:induction false} PlainCString(s: Octets)
    requires '\0' !in s
    ensures CString(s) == s
  {
    if s != [] {
      PlainCString(s[1..]);
    }
  }

  lemma DigitsOfAll(s: Octets)
    requires forall i :: 0 <= i < |s| ==> IsDigit(s[i])
    ensures Digits(s) == |s|
  {
  }

  lemma PrintedLengthIsPlain(n: nat)
    ensures CString(" " + Decimal(n)) == " " + Decimal(n)
    ensures Spaces(" " + Decimal(n)) == 1
  {
    var d := Decimal(n);
    ValueOfDecimal(n);
    var v := " " + d;
    assert forall i :: 0 < i < |v| ==> v[i] == d[i - 1] && IsDigit(d[i - 1]);
    PlainCString(v);
    assert v[1..] == d && IsDigit(d[0]);
    assert Spaces(d) == 0;
  }

  lemma ParsesDigits(value: Octets, d: Octets)
    requires CString(value) == " " + d && Spaces(" " + d) == 1
    requires d != [] && (forall i :: 0 <= i < |d| ==> IsDigit(d[i])) && ValueOf(d) <= IntMax
    ensures ParseLength(value) == Some(ValueOf(d))
  {
    assert (" " + d)[1..] == d && IsDigit(d[0]);
    DigitsOfAll(d);
    assert d[..|d|] == d && d[|d|..] == [];
  }

  /** The length that the writer prints is the length that the reader gets. */
  lemma ParsesWrittenLength(n: nat)
    requires n <= IntMax
    ensures ParseLength(" " + Decimal(n)) == Some(n)
  {
    PrintedLengthIsPlain(n);
    ValueOfDecimal(n);
    ParsesDigits(" " + Decimal(n), Decimal(n));
  }

  // -- Header blocks ------------------------------------------------------------------

  function IndexOf(s: Octets, c: char): (k: nat)
    ensures k <= |s| && (forall i :: 0 <= i < k ==> s[i] != c) && (k < |s| ==> s[k] == c)
  {
    if s == [] || s[0] == c then 0 else 1 + IndexOf(s[1..], c)
  }

  const LengthKey := "Content-Length"

  /** What one header line says about the length; other headers say nothing. */
  function LineLength(line: Octets): (r: Option<nat>) {
    var sep := IndexOf(line, ':');
    if sep < |line| && line[..sep] == LengthKey then ParseLength(line[sep + 1..]) else None
  }

  function TrimCr(line: Octets): (r: Octets) {
    if line != [] && line[|line| - 1] == '\r' then line[..|line| - 1] else line
  }

  /** The last usable Content-Length of a header block wins. */
  function BlockLength(block: Octets, sofar: Option<nat>): (r: Option<nat>)
    decreases |block|
  {
    var end := IndexOf(block, '\n');
    var now := Later(block[..end], sofar);
    if end == |block| then now else BlockLength(block[end + 1..], now)
  }

  method ParseHeader(line: Octets, sofar: Option<nat>) returns (r: Option<nat>)
    ensures r == var found := LineLength(line); if found.Some? then found else sofar
  {
    r := sofar;
    var sep := IndexOf(line, ':');
    if sep < |line| {
      var key := line[..sep];
      if key == LengthKey {
        var length := ParseLength(line[sep + 1..]);
        if length.Some? {
          r := length;
        }
      }
    }
  }

  function Later(line: Octets, sofar: Option<nat>): (r: Option<nat>) {
    var found := LineLength(TrimCr(line));
    if found.Some? then found else sofar
  }

  lemma BlockStep(block: Octets, start: nat, end: nat, sofar: Option<nat>)
    requires start <= |block| && end == start + IndexOf(block[start..], '\n')
    ensures var now := Later(block[start..end], sofar);
            BlockLength(block[start..], sofar) == if end == |block| then now else BlockLength(block[end + 1..], now)
  {
    var rest := block[start..];
    assert rest[..end - start] == block[start..end];
    if end != |block| { assert rest[end - start + 1..] == block[end + 1..]; }
  }

  method ParseLine(raw: Octets, sofar: Option<nat>) returns (r: Option<nat>)
    ensures r == Later(raw, sofar)
  {
    r := sofar;
    var line := raw;
    if line != "" && line[|line| - 1] == '\r' {
      line := line[..|line| - 1];
    }
    if line != "" {
      r := ParseHeader(line, r);
    }
  }

  /** One turn of the loop over the block; it is the last one at the block's end. */
  method BlockTurn(block: Octets, start: nat, sofar: Option<nat>) returns (r: Option<nat>, next: nat, last: bool)
    requires start <= |block|
    ensures last ==> r == BlockLength(block[start..], sofar)
    ensures !last ==> start < next <= |block| && BlockLength(block[next..], r) == BlockLength(block[start..], sofar)
  {
    var end := start + IndexOf(block[start..], '\n');
    BlockStep(block, start, end, sofar);
    r := ParseLine(block[start..end], sofar);
    last := end == |block|;
    next := end + 1;
  }

  method ParseHeaderBlock(block: Octets) returns (r: Option<nat>)
    ensures r == BlockLength(block, None)
  {
    r := None;
    var start, last := 0, false;
    ghost var goal := BlockLength(block, None);
    assert block[0..] == block;
    while !last
      invariant last ==> r == goal
      invariant !last ==> 0 <= start <= |block| && BlockLength(block[start..], r) == goal
      decreases !last, |block| - start
    {
      r, start, last := BlockTurn(block, start, r);
    }
  }

  // -- Finding the end of a header -------------------------------------------------------

  const CrLfCrLf := "\r\n\r\n"
  const LfLf := "\n\n"

  predicate OccursAt(s: Octets, pattern: Octets, k: nat) {
    k + |pattern| <= |s| && s[k..k + |pattern|] == pattern
  }

  /** std::string::find. */
  function Find(s: Octets, pattern: Octets): (r: Option<nat>)
    ensures r.Some? ==> OccursAt(s, pattern, r.value) && forall j: nat :: j < r.value ==> !OccursAt(s, pattern, j)
    ensures r.None? ==> forall j: nat :: !OccursAt(s, pattern, j)
  {
    FindFrom(s, pattern, 0)
  }

  function FindFrom(s: Octets, pattern: Octets, from: nat): (r: Option<nat>)
    requires from <= |s| + 1
    requires forall j: nat :: j < from ==> !OccursAt(s, pattern, j)
    ensures r.Some? ==> OccursAt(s, pattern, r.value) && forall j: nat :: j < r.value ==> !OccursAt(s, pattern, j)
    ensures r.None? ==> forall j: nat :: !OccursAt(s, pattern, j)
    decreases |s| + 1 - from
  {
    if from > |s| then None
    else if OccursAt(s, pattern, from) then Some(from)
    else FindFrom(s, pattern, from + 1)
  }

  /** Where the header ends and how long its delimiter is. */
  datatype HeaderEnd = HeaderEnd(at: nat, delimiter: nat)

  function FindHeaderEnd(buffer: Octets): (r: Option<HeaderEnd>)
    ensures r.Some? ==> r.value.at + r.value.delimiter <= |buffer| && r.value.delimiter >= 2
  {
    var crlf := Find(buffer, CrLfCrLf);
    var lf := Find(buffer, LfLf);
    if crlf.None? then (if lf.None? then None else Some(HeaderEnd(lf.value, 2)))
    else if lf.None? || crlf.value < lf.value then Some(HeaderEnd(crlf.value, 4))
    else Some(HeaderEnd(lf.value, 2))
  }

  lemma OccursInPrefix(s: Octets, more: Octets, pattern: Octets, k: nat)
    requires k + |pattern| <= |s|
    ensures OccursAt(s + more, pattern, k) <==> OccursAt(s, pattern, k)
  {
    assert (s + more)[k..k + |pattern|] == s[k..k + |pattern|];
  }

  /** An occurrence that is complete stays the first one when more input arrives. */
  lemma FindIsStable(s: Octets, more: Octets, pattern: Octets)
    requires Find(s, pattern).Some?
    ensures Find(s + more, pattern) == Find(s, pattern)
  {
    var k := Find(s, pattern).value;
    OccursInPrefix(s, more, pattern, k);
    forall j: nat | j < k ensures !OccursAt(s + more, pattern, j) {
      OccursInPrefix(s, more, pattern, j);
    }
  }

  /** A CR LF CR LF cannot straddle the end of a line feed pair. */
  lemma LfLfBlocksCrLf(s: Octets, more: Octets, e: nat, c: nat)
    requires OccursAt(s, LfLf, e) && c < e && c + 4 > |s|
    ensures !OccursAt(s + more, CrLfCrLf, c)
  {
    assert (s + more)[e + 1] == s[e + 1] == s[e..e + 2][1];
  }

  /** A header end found in part of the input is the header end of the whole input. */
  lemma HeaderEndIsStable(s: Octets, more: Octets)
    requires FindHeaderEnd(s).Some?
    ensures FindHeaderEnd(s + more) == FindHeaderEnd(s)
  {
    var all := s + more;
    var crlf, lf := Find(s, CrLfCrLf), Find(s, LfLf);
    if crlf.Some? && (lf.None? || crlf.value < lf.value) {
      FindIsStable(s, more, CrLfCrLf);
      forall k: nat | k <= crlf.value ensures !OccursAt(all, LfLf, k) {
        OccursInPrefix(s, more, LfLf, k);
      }
    } else {
      FindIsStable(s, more, LfLf);
      forall k: nat | k < lf.value ensures !OccursAt(all, CrLfCrLf, k) {
        if k + 4 <= |s| {
          OccursInPrefix(s, more, CrLfCrLf, k);
        } else {
          LfLfBlocksCrLf(s, more, lf.value, k);
        }
      }
    }
  }
}
