// What the character classes and the codec of FileUri mean, by the letter of RFC 3986.
module UriLaws {
  import opened Base
  import opened FileUri

  // -- Characters --------------------------------------------------------------------------

  /** Section 2.3: ALPHA and DIGIT as appendix B.1 of RFC 5234 gives them, "-", ".", "_"
      and "~". */
  lemma UnreservedExactly(c: char)
    ensures IsUnreserved(c)
            <==> || 0x41 <= c as int <= 0x5A || 0x61 <= c as int <= 0x7A || 0x30 <= c as int <= 0x39
                 || c as int in [0x2D, 0x2E, 0x5F, 0x7E]
  {
  }

  const LowerHex := "0123456789abcdef"
  const UpperHex := "0123456789ABCDEF"

  /** Section 2.1: the digits of an escape, in either case. */
  lemma HexExactly(c: char, v: int)
    ensures IsHex(c) && HexValue(c) == v <==> 0 <= v < 16 && (c == LowerHex[v] || c == UpperHex[v])
  {
  }

  // -- Encoding -----------------------------------------------------------------------------

  /** Unreserved octets and slashes stand for themselves; every other octet becomes "%"
      and its two upper case digits. */
  lemma EncodesByte(c: Byte)
    ensures Encode([c]) == if c == '/' || IsUnreserved(c) then [c]
                           else ['%', UpperHex[c as int / 16], UpperHex[c as int % 16]]
  {
    assert [c][1..] == [];
    HexExactly(HexDigit(c as int / 16), c as int / 16);
    HexExactly(HexDigit(c as int % 16), c as int % 16);
    assert EncodeByte(c) + [] == EncodeByte(c);
  }

  /** Nothing but unreserved octets, slashes and escapes comes out. */
  lemma {:induction false} EncodedIsClean(path: Bytes)
    ensures forall i :: 0 <= i < |Encode(path)| ==>
              Encode(path)[i] == '/' || Encode(path)[i] == '%' || IsUnreserved(Encode(path)[i])
  {
    if path != [] {
      EncodedIsClean(path[1..]);
    }
  }

  // -- Decoding -----------------------------------------------------------------------------

  /** The case of the digits of an escape does not matter. */
  lemma EscapesIgnoreCase(high: int, low: int, h: Byte, l: Byte, rest: Bytes)
    requires 0 <= high < 16 && 0 <= low < 16
    requires (h == LowerHex[high] || h == UpperHex[high]) && (l == LowerHex[low] || l == UpperHex[low])
    ensures Decode(['%', h, l] + rest) == [(high * 16 + low) as char] + Decode(rest)
  {
    HexExactly(h, high);
    HexExactly(l, low);
    var v := ['%', h, l] + rest;
    assert v[3..] == rest;
  }

  /** Without a complete escape only backslashes change. */
  lemma {:induction false} MalformedIsKept(v: Bytes)
    requires forall i: nat :: !EscapeAt(v, i)
    ensures Decode(v) == Normalized(v)
  {
    if v != [] {
      forall i: nat ensures !EscapeAt(v[1..], i) {
        assert !EscapeAt(v, i + 1);
      }
      MalformedIsKept(v[1..]);
      assert !EscapeAt(v, 0);
      assert Normalized(v) == [Unslash(v[0])] + Normalized(v[1..]);
    }
  }

  // -- Separators ------------------------------------------------------------------------------

  /** Backslashes become slashes and nothing else changes. */
  lemma BackslashesBecomeSlashes(path: Bytes)
    ensures |Normalized(path)| == |path| && '\\' !in Normalized(path)
    ensures forall i :: 0 <= i < |path| ==> Normalized(path)[i] == (if path[i] == '\\' then '/' else path[i])
    ensures Normalized(Normalized(path)) == Normalized(path)
  {
  }

  /** A URI means the same with slashes and with backslashes. */
  lemma {:induction false} SeparatorsReadAlike(v: Bytes)
    ensures Decode(Normalized(v)) == Decode(v)
    decreases |v|
  {
    if v != [] {
      assert EscapeAt(Normalized(v), 0) <==> EscapeAt(v, 0);
      assert Normalized(v)[1..] == Normalized(v[1..]);
      SeparatorsReadAlike(v[1..]);
      if EscapeAt(v, 0) {
        assert Normalized(v)[3..] == Normalized(v[3..]);
        SeparatorsReadAlike(v[3..]);
      }
    }
  }

  /** Only an escaped backslash survives decoding. */
  lemma {:induction false} BackslashOnlyFromEscape(v: Bytes) returns (i: nat)
    requires '\\' in Decode(v)
    ensures EscapeAt(v, i) && v[i + 1] == '5' && (v[i + 2] == 'c' || v[i + 2] == 'C')
    decreases |v|
  {
    var k := if EscapeAt(v, 0) then 3 else 1;
    if EscapeAt(v, 0) && FromHex(v[1], v[2]) == '\\' {
      i := 0;
    } else {
      var j := BackslashOnlyFromEscape(v[k..]);
      i := k + j;
    }
  }

  // -- Case ----------------------------------------------------------------------------------

  /** An authority is the local host in any mix of cases. */
  lemma LocalhostExactly(authority: Bytes)
    ensures IsLocalhost(authority)
            <==> |authority| == 9 && forall i :: 0 <= i < 9 ==> authority[i] == "localhost"[i] || authority[i] == "LOCALHOST"[i]
  {
    assert forall i :: 0 <= i < |authority| && i < 9 ==>
             (Lower(authority[i]) == Localhost[i] <==> authority[i] == "localhost"[i] || authority[i] == "LOCALHOST"[i]);
  }

  // -- URIs -----------------------------------------------------------------------------------

  predicate HasFileScheme(uri: Bytes) {
    |uri| >= 7 && forall i :: 0 <= i < 7 ==> uri[i] == "file://"[i] || uri[i] == "FILE://"[i]
  }

  /** The scheme is recognised in any mix of cases. */
  lemma SchemeExactly(uri: Bytes)
    ensures StartsWithFileScheme(uri) <==> HasFileScheme(uri)
  {
    if |uri| >= 7 {
      assert HasFileScheme(uri) <==>
             forall i :: i in [0, 1, 2, 3, 4, 5, 6] ==> uri[i] == "file://"[i] || uri[i] == "FILE://"[i];
    }
  }

  /** The URI of any path, drive paths and the empty path included: `file:` and the encoded
      path if it starts with two slashes, otherwise `file://` and the encoded path, which
      gets a leading slash if it has none. */
  lemma UriExactly(path: Bytes)
    ensures var n := Normalized(path);
            FileUriFromPath(path) == if n != [] && n[0] == '/' then
                                       (if |n| >= 2 && n[1] == '/' then "file:" else "file://") + Encode(n)
                                     else "file:///" + Encode(n)
  {
    var n := Normalized(path);
    SlashesEncodeAsThemselves(Rooted(n));
    if !IsAbsoluteFilePath(n) {
      EncodeSlash(n);
      assert "file://" + (['/'] + Encode(n)) == "file:///" + Encode(n);
    }
  }

  /** A URI of another scheme, or no URI at all, is returned as it is. */
  lemma OtherSchemesPass(uri: Bytes)
    requires !HasFileScheme(uri)
    ensures RawPath(uri) == uri
  {
    SchemeExactly(uri);
  }
}
