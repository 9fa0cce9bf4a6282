// File URIs (src/lsp/lsp.cpp, POSIX build). Paths and URIs are byte strings; a
// byte is a character below 256.
module FileUri {
  import opened Base

  type Byte = c: char | c as int < 256 witness 'a'
  type Bytes = seq<Byte>

  predicate IsHex(c: char) {
    '0' <= c <= '9' || 'a' <= c <= 'f' || 'A' <= c <= 'F'
  }

  function HexValue(c: char): (v: int)
    requires IsHex(c)
    ensures 0 <= v < 16
  {
    if '0' <= c <= '9' then c as int - '0' as int
    else if 'a' <= c <= 'f' then c as int - 'a' as int + 10
    else c as int - 'A' as int + 10
  }

  function HexDigit(v: int): (c: Byte)
    requires 0 <= v < 16
    ensures IsHex(c) && HexValue(c) == v
  {
    if v < 10 then (v + '0' as int) as char else (v - 10 + 'A' as int) as char
  }

  function FromHex(high: char, low: char): (c: Byte)
    requires IsHex(high) && IsHex(low)
    ensures c as int == HexValue(high) * 16 + HexValue(low)
  {
    (HexValue(high) * 16 + HexValue(low)) as char
  }

  predicate IsUnreserved(c: char) {
    'a' <= c <= 'z' || 'A' <= c <= 'Z' || '0' <= c <= '9' || c == '-' || c == '.' || c == '_' || c == '~'
  }

  predicate IsLetter(c: char) {
    'A' <= c <= 'Z' || 'a' <= c <= 'z'
  }

  function Lower(c: char): (r: char) {
    if 'A' <= c <= 'Z' then (c as int - 'A' as int + 'a' as int) as char else c
  }

  predicate IsWindowsDrivePath(path: Bytes) {
    |path| >= 2 && path[1] == ':' && IsLetter(path[0])
  }

  predicate IsAbsoluteFilePath(path: Bytes) {
    (path != [] && path[0] == '/') || IsWindowsDrivePath(path)
  }

  const Localhost := "localhost"

  predicate IsLocalhost(authority: Bytes) {
    |authority| == 9 && forall i :: 0 <= i < 9 ==> Lower(authority[i]) == Localhost[i]
  }

  predicate StartsWithFileScheme(uri: Bytes) {
    |uri| >= 7 && Lower(uri[0]) == 'f' && Lower(uri[1]) == 'i' && Lower(uri[2]) == 'l' && Lower(uri[3]) == 'e'
    && uri[4] == ':' && uri[5] == '/' && uri[6] == '/'
  }

  // -- Percent encoding -----------------------------------------------------------

  predicate Plain(c: char) {
    c == '/' || IsUnreserved(c)
  }

  function EncodeByte(c: Byte): (r: Bytes) {
    if Plain(c) then [c] else ['%', HexDigit(c as int / 16), HexDigit(c as int % 16)]
  }

  function Encode(path: Bytes): (r: Bytes) {
    if path == [] then [] else EncodeByte(path[0]) + Encode(path[1..])
  }

  predicate EscapeAt(v: Bytes, i: nat) {
    i + 2 < |v| && v[i] == '%' && IsHex(v[i + 1]) && IsHex(v[i + 2])
  }

  function Unslash(c: Byte): Byte {
    if c == '\\' then '/' else c
  }

  /** Malformed escapes are kept as they are; a backslash reads as a slash. */
  function Decode(v: Bytes): (r: Bytes) {
    if v == [] then []
    else if EscapeAt(v, 0) then [FromHex(v[1], v[2])] + Decode(v[3..])
    else [Unslash(v[0])] + Decode(v[1..])
  }

  lemma EncodeStep(path: Bytes, i: nat, encoded: Bytes)
    requires i < |path|
    ensures encoded + Encode(path[i..])
            == (if Plain(path[i]) then encoded + [path[i]]
                else encoded + ['%'] + [HexDigit(path[i] as int / 16)] + [HexDigit(path[i] as int % 16)])
               + Encode(path[i + 1..])
  {
    assert path[i..][0] == path[i] && path[i..][1..] == path[i + 1..];
    Reassociate(encoded, EncodeByte(path[i]), Encode(path[i + 1..]));
    assert !Plain(path[i]) ==>
        encoded + EncodeByte(path[i])
        == encoded + ['%'] + [HexDigit(path[i] as int / 16)] + [HexDigit(path[i] as int % 16)];
  }

  method PercentEncodeFilePath(path: Bytes) returns (encoded: Bytes)
    ensures encoded == Encode(path)
  {
    encoded := [];
    assert path[0..] == path && [] + Encode(path) == Encode(path);
    for i := 0 to |path|
      invariant encoded + Encode(path[i..]) == Encode(path)
    {
      var c := path[i];
      EncodeStep(path, i, encoded);
      if c == '/' || IsUnreserved(c) {
        encoded := encoded + [c];
      } else {
        encoded := encoded + ['%'] + [HexDigit(c as int / 16)] + [HexDigit(c as int % 16)];
      }
    }
  }

  lemma DecodeEscape(value: Bytes, i: nat)
    requires EscapeAt(value, i)
    ensures Decode(value[i..]) == [FromHex(value[i + 1], value[i + 2])] + Decode(value[i + 3..])
  {
    var rest := value[i..];
    assert rest[1] == value[i + 1] && rest[2] == value[i + 2] && rest[3..] == value[i + 3..];
  }

  lemma DecodeOther(value: Bytes, i: nat)
    requires i < |value| && !EscapeAt(value, i)
    ensures Decode(value[i..]) == [Unslash(value[i])] + Decode(value[i + 1..])
  {
    var rest := value[i..];
    assert |rest| >= 3 ==> rest[1] == value[i + 1] && rest[2] == value[i + 2];
    assert rest[1..] == value[i + 1..];
  }

  lemma DecodeStep(value: Bytes, i: nat, decoded: Bytes)
    requires i < |value| && decoded + Decode(value[i..]) == Decode(value)
    ensures EscapeAt(value, i) ==> decoded + [FromHex(value[i + 1], value[i + 2])] + Decode(value[i + 3..]) == Decode(value)
    ensures !EscapeAt(value, i) ==> decoded + [Unslash(value[i])] + Decode(value[i + 1..]) == Decode(value)
  {
    if EscapeAt(value, i) {
      DecodeEscape(value, i);
      Reassociate(decoded, [FromHex(value[i + 1], value[i + 2])], Decode(value[i + 3..]));
    } else {
      DecodeOther(value, i);
      Reassociate(decoded, [Unslash(value[i])], Decode(value[i + 1..]));
    }
  }

  method PercentDecodeFilePath(value: Bytes) returns (decoded: Bytes)
    ensures decoded == Decode(value)
  {
    decoded := [];
    var i := 0;
    assert value[0..] == value;
    while i < |value|
      invariant 0 <= i <= |value|
      invariant decoded + Decode(value[i..]) == Decode(value)
    {
      DecodeStep(value, i, decoded);
      if value[i] == '%' && i + 2 < |value| && IsHex(value[i + 1]) && IsHex(value[i + 2]) {
        decoded := decoded + [FromHex(value[i + 1], value[i + 2])];
        i := i + 2;
      } else {
        decoded := decoded + [if value[i] == '\\' then '/' else value[i]];
      }
      i := i + 1;
    }
  }

  lemma DecodeEncodedByte(c: Byte, rest: Bytes)
    ensures Decode(EncodeByte(c) + rest) == [c] + Decode(rest)
  {
    var v := EncodeByte(c) + rest;
    if Plain(c) {
      assert v[1..] == rest;
    } else {
      assert v[3..] == rest;
    }
  }

  /** Percent decoding undoes percent encoding on every byte string. */
  lemma {:induction false} DecodeUndoesEncode(path: Bytes)
    ensures Decode(Encode(path)) == path
  {
    if path != [] {
      DecodeEncodedByte(path[0], Encode(path[1..]));
      DecodeUndoesEncode(path[1..]);
    }
  }

  lemma Uncons(a: Bytes, b: Bytes)
    requires a != []
    ensures (a + b)[0] == a[0] && (a + b)[1..] == a[1..] + b
  {
  }

  lemma {:induction false} EncodeAppend(a: Bytes, b: Bytes)
    ensures Encode(a + b) == Encode(a) + Encode(b)
  {
    if a == [] {
      assert a + b == b;
    } else {
      var e := EncodeByte(a[0]);
      EncodeAppend(a[1..], b);
      Uncons(a, b);
      Reassociate(e, Encode(a[1..]), Encode(b));
    }
  }

  predicate IsDelimiter(c: char) {
    c == '/' || c == '?' || c == '#'
  }

  /** Encoding produces no delimiter that was not a slash in the path. */
  lemma {:induction false} EncodeAddsNoDelimiter(path: Bytes)
    ensures forall i :: 0 <= i < |Encode(path)| ==> Encode(path)[i] != '?' && Encode(path)[i] != '#'
    ensures '/' !in path ==> forall i :: 0 <= i < |Encode(path)| ==> !IsDelimiter(Encode(path)[i])
  {
    if path != [] {
      EncodeAddsNoDelimiter(path[1..]);
    }
  }

  lemma {:induction false} EncodeOfLetters(path: Bytes)
    requires forall i :: 0 <= i < |path| ==> IsLetter(path[i])
    ensures Encode(path) == path
  {
    if path != [] {
      EncodeOfLetters(path[1..]);
    }
  }

  lemma {:induction false} DecodeOfLetters(v: Bytes)
    requires forall i :: 0 <= i < |v| ==> IsLetter(v[i])
    ensures Decode(v) == v
  {
    if v != [] {
      DecodeOfLetters(v[1..]);
    }
  }

  lemma LocalhostIsLetters(a: Bytes)
    requires IsLocalhost(a)
    ensures forall i :: 0 <= i < |a| ==> IsLetter(a[i])
  {
    forall i | 0 <= i < |a| ensures IsLetter(a[i]) {
      assert Lower(a[i]) == Localhost[i] && IsLetter(Localhost[i]);
    }
  }

  /** A host is localhost before encoding exactly when it is afterwards. */
  lemma LocalhostSurvivesEncoding(host: Bytes)
    ensures IsLocalhost(Encode(host)) <==> IsLocalhost(host)
  {
    if IsLocalhost(host) {
      LocalhostIsLetters(host);
      EncodeOfLetters(host);
    } else if IsLocalhost(Encode(host)) {
      LocalhostIsLetters(Encode(host));
      DecodeOfLetters(Encode(host));
      DecodeUndoesEncode(host);
    }
  }

  // -- Building and reading URIs ----------------------------------------------------

  function Normalized(path: Bytes): (r: Bytes)
    ensures |r| == |path|
    ensures forall i :: 0 <= i < |r| ==> r[i] == Unslash(path[i])
  {
    seq(|path|, i requires 0 <= i < |path| => Unslash(path[i]))
  }

  method NormalizePathSeparators(path: Bytes) returns (r: Bytes)
    ensures r == Normalized(path)
  {
    r := path;
    for i := 0 to |path|
      invariant |r| == |path|
      invariant forall k :: 0 <= k < i ==> r[k] == Unslash(path[k])
      invariant forall k :: i <= k < |path| ==> r[k] == path[k]
    {
      if r[i] == '\\' {
        r := r[i := '/'];
      }
    }
  }

  const FileScheme: Bytes := ['f', 'i', 'l', 'e', ':']

  function Rooted(path: Bytes): (r: Bytes) {
    if IsAbsoluteFilePath(path) then path else ['/'] + path
  }

  function UriOf(path: Bytes): (r: Bytes) {
    if IsWindowsDrivePath(path) then FileScheme + ['/', '/', '/'] + Encode(path)
    else if |Encode(path)| >= 2 && Encode(path)[0] == '/' && Encode(path)[1] == '/' then FileScheme + Encode(path)
    else FileScheme + ['/', '/'] + Encode(path)
  }

  /** MakeFileUriFromPath. */
  function FileUriFromPath(path: Bytes): (r: Bytes) {
    UriOf(Rooted(Normalized(path)))
  }

  /** Position of the first delimiter, or the length. */
  function FirstDelimiter(s: Bytes): (k: nat)
    ensures k <= |s|
    ensures forall i :: 0 <= i < k ==> !IsDelimiter(s[i])
    ensures k < |s| ==> IsDelimiter(s[k])
  {
    if s == [] || IsDelimiter(s[0]) then 0 else 1 + FirstDelimiter(s[1..])
  }

  function FirstSuffixMark(s: Bytes): (k: nat)
    ensures k <= |s|
    ensures forall i :: 0 <= i < k ==> s[i] != '?' && s[i] != '#'
    ensures k < |s| ==> s[k] == '?' || s[k] == '#'
  {
    if s == [] || s[0] == '?' || s[0] == '#' then 0 else 1 + FirstSuffixMark(s[1..])
  }

  function StripSuffix(path: Bytes): (r: Bytes) {
    path[..FirstSuffixMark(path)]
  }

  /** RawPathFromFileUri. */
  function RawPath(uri: Bytes): (r: Bytes) {
    if !StartsWithFileScheme(uri) then uri
    else
      var rest := uri[7..];
      var k := FirstDelimiter(rest);
      var authority := rest[..k];
      var path := if k < |rest| && rest[k] == '/' then StripSuffix(rest[k..]) else [];
      if authority != [] && !IsLocalhost(authority)
      then Decode(['/', '/'] + authority + path)
      else Decode(path)
  }

  /** A query or a fragment never changes the path that is read. */
  lemma SuffixIsIgnored(uri: Bytes, mark: Byte, more: Bytes)
    requires StartsWithFileScheme(uri) && (mark == '?' || mark == '#')
    ensures RawPath(uri + [mark] + more) == RawPath(uri)
  {
    var rest, tail := uri[7..], [mark] + more;
    var all := rest + tail;
    assert (uri + [mark] + more)[7..] == all;
    var k := FirstDelimiter(rest);
    SplitUnique(all, k);
    assert all[..k] == rest[..k];
    if k < |rest| {
      assert all[k..] == rest[k..] + tail;
      StripIgnores(rest[k..], tail);
    }
  }

  lemma StripIgnores(path: Bytes, tail: Bytes)
    requires tail != [] && (tail[0] == '?' || tail[0] == '#')
    ensures StripSuffix(path + tail) == StripSuffix(path)
  {
    var k := FirstSuffixMark(path);
    var j := FirstSuffixMark(path + tail);
    assert (path + tail)[|path|] == tail[0];
    assert k < |path| ==> (path + tail)[k] == path[k];
    assert j < |path| ==> (path + tail)[j] == path[j];
    assert j == k;
    assert (path + tail)[..k] == path[..k];
  }

  /** The part of a `//host...` path before the next slash. */
  function Host(path: Bytes): (r: Bytes)
    requires |path| >= 2
  {
    path[2..][..FirstSlash(path[2..])]
  }

  /** Paths that survive the trip: absolute with a single leading slash, or
      `//host...` with a host that is neither empty nor localhost. */
  predicate Portable(path: Bytes) {
    && path != [] && path[0] == '/'
    && (|path| >= 2 && path[1] == '/' ==> Host(path) != [] && !IsLocalhost(Host(path)))
  }

  lemma SplitUnique(s: Bytes, k: nat)
    requires k <= |s| && (forall i :: 0 <= i < k ==> !IsDelimiter(s[i])) && (k < |s| ==> IsDelimiter(s[k]))
    ensures FirstDelimiter(s) == k
  {
  }

  lemma NothingToStrip(s: Bytes)
    requires forall i :: 0 <= i < |s| ==> s[i] != '?' && s[i] != '#'
    ensures StripSuffix(s) == s
  {
  }

  /** Reading `file://` followed by an authority and a path, both already encoded. */
  lemma RawPathOfParts(authority: Bytes, path: Bytes)
    requires forall i :: 0 <= i < |authority| ==> !IsDelimiter(authority[i])
    requires forall i :: 0 <= i < |path| ==> path[i] != '?' && path[i] != '#'
    requires path != [] ==> path[0] == '/'
    ensures RawPath(FileScheme + ['/', '/'] + authority + path)
            == Decode(if authority != [] && !IsLocalhost(authority) then ['/', '/'] + authority + path else path)
  {
    var uri := FileScheme + ['/', '/'] + authority + path;
    SchemeIsCut(authority, path);
    var rest := authority + path;
    SplitUnique(rest, |authority|);
    SplitParts(authority, path);
    NothingToStrip(path);
  }

  lemma SchemeIsCut(authority: Bytes, path: Bytes)
    ensures var uri := FileScheme + ['/', '/'] + authority + path;
            StartsWithFileScheme(uri) && uri[7..] == authority + path
  {
  }

  lemma SplitParts(a: Bytes, b: Bytes)
    ensures (a + b)[..|a|] == a && (a + b)[|a|..] == b
  {
  }

  lemma EncodeSlash(path: Bytes)
    ensures Encode(['/'] + path) == ['/'] + Encode(path)
    ensures Encode(['/', '/'] + path) == ['/', '/'] + Encode(path)
  {
    assert (['/'] + path)[1..] == path;
    assert ['/', '/'] + path == ['/'] + (['/'] + path);
    assert (['/'] + (['/'] + path))[1..] == ['/'] + path;
  }

  /** Reading `file://` followed by an encoded host and an encoded path, the latter
      empty or starting with a slash. */
  lemma ReadsHostAndPath(host: Bytes, tail: Bytes)
    requires '/' !in host && (tail != [] ==> tail[0] == '/')
    ensures RawPath(FileScheme + ['/', '/'] + Encode(host + tail))
            == if host != [] && !IsLocalhost(host) then ['/', '/'] + host + tail else tail
  {
    EncodeAppend(host, tail);
    assert FileScheme + ['/', '/'] + Encode(host + tail) == FileScheme + ['/', '/'] + Encode(host) + Encode(tail);
    ReadsEncodedParts(host, tail);
    LocalhostSurvivesEncoding(host);
    NonEmptyEncodes(host);
    DecodeUndoesEncode(tail);
    DecodesWhole(host, tail);
  }

  lemma ReadsEncodedParts(host: Bytes, tail: Bytes)
    requires '/' !in host && (tail != [] ==> tail[0] == '/')
    ensures RawPath(FileScheme + ['/', '/'] + Encode(host) + Encode(tail))
            == Decode(if Encode(host) != [] && !IsLocalhost(Encode(host))
                      then ['/', '/'] + Encode(host) + Encode(tail) else Encode(tail))
  {
    EncodeAddsNoDelimiter(host);
    EncodeAddsNoDelimiter(tail);
    StartsWithSlash(tail);
    RawPathOfParts(Encode(host), Encode(tail));
  }

  lemma DecodesWhole(host: Bytes, tail: Bytes)
    ensures Decode(['/', '/'] + Encode(host) + Encode(tail)) == ['/', '/'] + host + tail
  {
    EncodesWhole(host, tail);
    DecodeUndoesEncode(['/', '/'] + host + tail);
  }

  lemma EncodesWhole(host: Bytes, tail: Bytes)
    ensures Encode(['/', '/'] + host + tail) == ['/', '/'] + Encode(host) + Encode(tail)
  {
    EncodeAppend(['/', '/'] + host, tail);
    EncodeSlash(host);
  }

  lemma StartsWithSlash(tail: Bytes)
    requires tail != [] ==> tail[0] == '/'
    ensures Encode(tail) != [] ==> Encode(tail)[0] == '/'
  {
    if tail != [] {
      assert tail == ['/'] + tail[1..];
      EncodeSlash(tail[1..]);
    }
  }

  lemma NonEmptyEncodes(host: Bytes)
    ensures Encode(host) == [] <==> host == []
  {
  }

  lemma SlashesEncodeAsThemselves(path: Bytes)
    ensures (|Encode(path)| >= 2 && Encode(path)[0] == '/' && Encode(path)[1] == '/')
            <==> (|path| >= 2 && path[0] == '/' && path[1] == '/')
  {
    if path != [] && path[0] == '/' {
      assert Encode(path) == ['/'] + Encode(path[1..]);
      if |path| >= 2 {
        assert path[1..][0] == path[1];
        assert Encode(path[1..]) == EncodeByte(path[1]) + Encode(path[1..][1..]);
      }
    } else if path != [] {
      assert Encode(path)[0] == EncodeByte(path[0])[0];
    }
  }

  /** The raw path read back from a rooted path's URI, in all cases. */
  lemma ReadBack(path: Bytes)
    requires IsAbsoluteFilePath(path)
    ensures RawPath(UriOf(path)) ==
            if IsWindowsDrivePath(path) then ['/'] + path
            else if |path| >= 2 && path[1] == '/' && !Portable(path) then path[2 + |Host(path)|..]
            else path
  {
    SlashesEncodeAsThemselves(path);
    if IsWindowsDrivePath(path) {
      ReadBackDrive(path);
    } else if |path| >= 2 && path[1] == '/' {
      ReadBackUnc(path);
    } else {
      ReadBackPlain(path);
    }
  }

  lemma ReadBackDrive(path: Bytes)
    ensures RawPath(FileScheme + ['/', '/', '/'] + Encode(path)) == ['/'] + path
  {
    EncodeSlash(path);
    assert FileScheme + ['/', '/', '/'] + Encode(path) == FileScheme + ['/', '/'] + Encode(['/'] + path);
    ReadsHostAndPath([], ['/'] + path);
    assert [] + (['/'] + path) == ['/'] + path;
  }

  lemma ReadBackPlain(path: Bytes)
    requires path != [] && path[0] == '/'
    ensures RawPath(FileScheme + ['/', '/'] + Encode(path)) == path
  {
    assert [] + path == path;
    ReadsHostAndPath([], path);
  }

  lemma UncParts(path: Bytes)
    requires |path| >= 2 && path[0] == path[1] == '/'
    ensures var host, tail := Host(path), path[2 + |Host(path)|..];
            && path == ['/', '/'] + (host + tail) == ['/', '/'] + host + tail
            && '/' !in host && (tail != [] ==> tail[0] == '/')
  {
  }

  lemma ReadBackUnc(path: Bytes)
    requires |path| >= 2 && path[0] == path[1] == '/'
    ensures RawPath(FileScheme + Encode(path)) == if Portable(path) then path else path[2 + |Host(path)|..]
  {
    var host, tail := Host(path), path[2 + |Host(path)|..];
    UncParts(path);
    EncodeSlash(host + tail);
    Reassociate(FileScheme, ['/', '/'], Encode(host + tail));
    ReadsHostAndPath(host, tail);
  }

  /** Building a file URI and reading its raw path back gives the
      separator-normalised path exactly for the portable paths. */
  lemma RoundTripExactly(path: Bytes)
    ensures RawPath(FileUriFromPath(path)) == Normalized(path) <==> Portable(Normalized(path))
  {
    var n := Normalized(path);
    ReadBack(Rooted(n));
    if !IsAbsoluteFilePath(n) {
      assert Rooted(n)[1..] == n;
    }
  }
}
