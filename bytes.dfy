/**
 * Bytes and the field conversions the ITCH decoders apply to them: unsigned
 * big-endian integers (the `!` struct formats and `int.from_bytes(..., "big")`),
 * `bytes.decode()` of single-byte characters, and Python's `str.strip()`.
 */
module Bytes {

  type Byte = b: int | 0 <= b < 256

  function Pow256(w: nat): (r: nat)
    ensures r > 0
  {
    if w == 0 then 1 else 256 * Pow256(w - 1)
  }

  /** The unsigned big-endian value of `s`. */
  function FromBigEndian(s: seq<Byte>): (n: nat)
    ensures n < Pow256(|s|)
  {
    if s == [] then 0
    else
      var prefix := FromBigEndian(s[..|s| - 1]);
      assert prefix * 256 <= (Pow256(|s| - 1) - 1) * 256;
      prefix * 256 + s[|s| - 1]
  }

  /** The `w`-byte big-endian encoding of `n`. */
  function ToBigEndian(n: nat, w: nat): (s: seq<Byte>)
    requires n < Pow256(w)
    ensures |s| == w
  {
    if w == 0 then []
    else
      DivBound(n, w);
      ToBigEndian(n / 256, w - 1) + [n % 256]
  }

  lemma DivBound(n: nat, w: nat)
    requires 0 < w && n < Pow256(w)
    ensures n / 256 < Pow256(w - 1)
  {
  }

  /** Decoding the `w`-byte encoding of any `n < 256^w` gives back `n`. */
  lemma {:induction false} FromToBigEndian(n: nat, w: nat)
    requires n < Pow256(w)
    ensures FromBigEndian(ToBigEndian(n, w)) == n
  {
    if w > 0 {
      DivBound(n, w);
      var s := ToBigEndian(n, w);
      assert s[..w - 1] == ToBigEndian(n / 256, w - 1);
      FromToBigEndian(n / 256, w - 1);
    }
  }

  /** Encoding the value of `s` in `|s|` bytes gives back `s`. */
  lemma {:induction false} ToFromBigEndian(s: seq<Byte>)
    ensures ToBigEndian(FromBigEndian(s), |s|) == s
  {
    if s != [] {
      var init := s[..|s| - 1];
      var n := FromBigEndian(s);
      assert n / 256 == FromBigEndian(init) && n % 256 == s[|s| - 1];
      ToFromBigEndian(init);
    }
  }

  /** `bytes.decode()`: one character per byte, with the byte's code. */
  function Decode(b: seq<Byte>): (s: string)
    ensures |s| == |b|
  {
    if b == [] then [] else [b[0] as char] + Decode(b[1..])
  }

  /** A text every character of which takes one byte. */
  predicate IsByteText(s: string) {
    forall i :: 0 <= i < |s| ==> s[i] < 256 as char
  }

  /** `str.encode()` of a text whose characters each take one byte. */
  function Encode(s: string): (b: seq<Byte>)
    requires IsByteText(s)
    ensures |b| == |s|
  {
    if s == [] then [] else [s[0] as int] + Encode(s[1..])
  }

  lemma {:induction false} DecodeEncode(s: string)
    requires IsByteText(s)
    ensures Decode(Encode(s)) == s
  {
    if s != [] {
      DecodeEncode(s[1..]);
    }
  }

  lemma {:induction false} EncodeDecode(b: seq<Byte>)
    ensures IsByteText(Decode(b)) && Encode(Decode(b)) == b
  {
    if b != [] {
      EncodeDecode(b[1..]);
    }
  }

  /** The characters `str.isspace()` accepts among the ASCII range. */
  predicate IsSpace(c: char) {
    c == ' ' || ('\t' <= c <= '\r') || (28 as char <= c <= 31 as char)
  }

  /** `str.rstrip()`: drops the trailing whitespace. */
  function RStrip(s: string): (r: string)
    ensures |r| <= |s| && r == s[..|r|]
    ensures forall i :: |r| <= i < |s| ==> IsSpace(s[i])
    ensures r == [] || !IsSpace(r[|r| - 1])
  {
    if s != [] && IsSpace(s[|s| - 1]) then RStrip(s[..|s| - 1]) else s
  }

  /** A string that `strip()` leaves as it is. */
  predicate Stripped(s: string) {
    s == [] || (!IsSpace(s[0]) && !IsSpace(s[|s| - 1]))
  }

  /**
   * `str.strip()`: the leading whitespace is dropped one character at a time,
   * then `rstrip()` drops the trailing whitespace.
   */
  function Strip(s: string): (r: string)
    ensures |r| <= |s| && Stripped(r)
  {
    if s != [] && IsSpace(s[0]) then Strip(s[1..]) else RStrip(s)
  }

  function Spaces(n: nat): (r: string)
    ensures |r| == n && forall i :: 0 <= i < n ==> r[i] == ' '
  {
    if n == 0 then [] else [' '] + Spaces(n - 1)
  }

  /** Trailing padding is exactly what `rstrip()` removes from a stripped text. */
  lemma {:induction false} RStripPadded(text: string, pad: nat)
    requires Stripped(text)
    ensures RStrip(text + Spaces(pad)) == text
  {
    var s := text + Spaces(pad);
    if pad > 0 {
      assert s[|s| - 1] == ' ';
      assert s[..|s| - 1] == text + Spaces(pad - 1);
      RStripPadded(text, pad - 1);
    } else {
      assert s == text;
    }
  }

  /** A run of spaces strips to nothing. */
  lemma {:induction false} StripSpaces(n: nat)
    ensures Strip(Spaces(n)) == []
  {
    if n > 0 {
      assert Spaces(n)[1..] == Spaces(n - 1);
      StripSpaces(n - 1);
    }
  }

  /** Stripping a space-padded field gives back the text that was padded. */
  lemma StripPadded(text: string, pad: nat)
    requires Stripped(text)
    ensures Strip(text + Spaces(pad)) == text
  {
    if text == [] {
      assert text + Spaces(pad) == Spaces(pad);
      StripSpaces(pad);
    } else {
      assert (text + Spaces(pad))[0] == text[0];
      RStripPadded(text, pad);
    }
  }

  /** `r` is `s` with the `i` characters before it and all characters after it whitespace. */
  predicate Trimmed(s: string, r: string, i: int) {
    && 0 <= i <= |s| - |r|
    && r == s[i..i + |r|]
    && (forall j :: 0 <= j < i ==> IsSpace(s[j]))
    && (forall j :: i + |r| <= j < |s| ==> IsSpace(s[j]))
  }

  /** `strip()` removes only whitespace, and only from the two ends. */
  lemma {:induction false} StripInfix(s: string)
    ensures exists i :: Trimmed(s, Strip(s), i)
  {
    var r := Strip(s);
    if s != [] && IsSpace(s[0]) {
      StripInfix(s[1..]);
      var i' :| Trimmed(s[1..], r, i');
      assert r == s[i' + 1..i' + 1 + |r|];
      forall j | 0 <= j < i' + 1 ensures IsSpace(s[j]) {
        if j > 0 { assert s[j] == s[1..][j - 1]; }
      }
      forall j | i' + 1 + |r| <= j < |s| ensures IsSpace(s[j]) {
        assert s[j] == s[1..][j - 1];
      }
      assert Trimmed(s, r, i' + 1);
    } else {
      assert r == RStrip(s);
      assert Trimmed(s, r, 0);
    }
  }

  /** `strip()` only removes characters, so a text of one-byte characters stays one. */
  lemma {:induction false} StripKeepsByteText(s: string)
    requires IsByteText(s)
    ensures IsByteText(Strip(s))
  {
    if s != [] && IsSpace(s[0]) {
      StripKeepsByteText(s[1..]);
    }
  }
}
