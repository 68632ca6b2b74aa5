/**
  UTF-8 text as byte sequences: the well-formed sequences of section 4 of RFC 3629, the
  character boundaries Rust's `str` slices at, and the two loops that look for one.
 */
module Utf8 {
  newtype Byte = b: int | 0 <= b < 256
  type Bytes = seq<Byte>

  predicate Continuation(b: Byte) {
    0x80 <= b < 0xC0
  }

  predicate ThreeByteLead(first: Byte, second: Byte) {
    || (first == 0xE0 && 0xA0 <= second <= 0xBF)
    || (0xE1 <= first <= 0xEC && Continuation(second))
    || (first == 0xED && 0x80 <= second <= 0x9F)
    || (0xEE <= first <= 0xEF && Continuation(second))
  }

  predicate FourByteLead(first: Byte, second: Byte) {
    || (first == 0xF0 && 0x90 <= second <= 0xBF)
    || (0xF1 <= first <= 0xF3 && Continuation(second))
    || (first == 0xF4 && 0x80 <= second <= 0x8F)
  }

  /** The width of the character `s` starts with, or 0 when it starts with none. */
  function FirstWidth(s: Bytes): (w: nat)
    ensures w <= 4 && w <= |s|
  {
    if |s| >= 1 && s[0] < 0x80 then 1
    else if |s| >= 2 && 0xC2 <= s[0] <= 0xDF && Continuation(s[1]) then 2
    else if |s| >= 3 && ThreeByteLead(s[0], s[1]) && Continuation(s[2]) then 3
    else if |s| >= 4 && FourByteLead(s[0], s[1]) && Continuation(s[2]) && Continuation(s[3]) then 4
    else 0
  }

  /** A character is one lead byte and its continuation bytes. */
  lemma CharacterShape(s: Bytes)
    requires FirstWidth(s) > 0
    ensures !Continuation(s[0])
    ensures forall i :: 0 < i < FirstWidth(s) ==> Continuation(s[i])
  {
    forall i | 0 < i < FirstWidth(s) ensures Continuation(s[i]) {
      assert i == 1 || i == 2 || i == 3;
    }
  }

  predicate Valid(s: Bytes)
    decreases |s|
  {
    |s| == 0 || (FirstWidth(s) > 0 && Valid(s[FirstWidth(s)..]))
  }

  /** A Rust string. */
  type Text = s: Bytes | Valid(s) witness []

  /** `str::is_char_boundary` */
  predicate IsBoundary(s: Bytes, i: int) {
    0 <= i <= |s| && (i == 0 || i == |s| || !Continuation(s[i]))
  }

  /** The largest boundary at or before `i`. */
  ghost function Floor(s: Bytes, i: nat): (r: nat)
    requires i <= |s|
    ensures r <= i && IsBoundary(s, r)
    ensures forall j :: r < j <= i ==> !IsBoundary(s, j)
  {
    if IsBoundary(s, i) then i else Floor(s, i - 1)
  }

  /** The smallest boundary at or after `i`. */
  ghost function Ceil(s: Bytes, i: nat): (r: nat)
    requires i <= |s|
    ensures i <= r <= |s| && IsBoundary(s, r)
    ensures forall j :: i <= j < r ==> !IsBoundary(s, j)
    decreases |s| - i
  {
    if IsBoundary(s, i) then i else Ceil(s, i + 1)
  }

  /** `floor_boundary` */
  method FloorBoundary(text: Bytes, index: nat) returns (r: nat)
    ensures r == Floor(text, if index < |text| then index else |text|)
  {
    r := if index < |text| then index else |text|;
    ghost var start := r;
    while !IsBoundary(text, r)
      invariant r <= |text| && Floor(text, r) == Floor(text, start)
      decreases r
    {
      r := r - 1;
    }
  }

  /** `ceil_boundary` */
  method CeilBoundary(text: Bytes, index: nat) returns (r: nat)
    ensures r == Ceil(text, if index < |text| then index else |text|)
  {
    r := if index < |text| then index else |text|;
    ghost var start := r;
    while !IsBoundary(text, r)
      invariant r <= |text| && Ceil(text, r) == Ceil(text, start)
      decreases |text| - r
    {
      r := r + 1;
    }
  }

  lemma FirstWidthOfConcat(s: Bytes, t: Bytes)
    requires FirstWidth(s) > 0
    ensures FirstWidth(s + t) == FirstWidth(s)
  {
    assert forall i :: 0 <= i < |s| ==> (s + t)[i] == s[i];
  }

  lemma FirstWidthOfPrefix(s: Bytes, i: nat)
    requires 0 < FirstWidth(s) <= i <= |s|
    ensures FirstWidth(s[..i]) == FirstWidth(s)
  {
    assert forall j :: 0 <= j < i ==> s[..i][j] == s[j];
  }

  lemma {:induction false} ConcatValid(s: Bytes, t: Bytes)
    requires Valid(s) && Valid(t)
    ensures Valid(s + t)
    decreases |s|
  {
    hide FirstWidth;
    if |s| == 0 {
      assert s + t == t;
    } else {
      var w := FirstWidth(s);
      ConcatValid(s[w..], t);
      assert (s + t)[w..] == s[w..] + t;
      FirstWidthOfConcat(s, t);
    }
  }

  /** Text may be cut at any boundary: both sides are text again. */
  lemma {:induction false} CutValid(s: Bytes, i: nat)
    requires Valid(s) && IsBoundary(s, i)
    ensures Valid(s[..i]) && Valid(s[i..])
    decreases |s|
  {
    hide FirstWidth;
    if i == 0 {
      assert s[i..] == s;
    } else {
      var w := FirstWidth(s);
      CharacterShape(s);
      assert w <= i;
      CutValid(s[w..], i - w);
      assert s[w..][..i - w] == s[..i][w..];
      assert s[w..][i - w..] == s[i..];
      FirstWidthOfPrefix(s, i);
    }
  }

  /** No four bytes of text in a row are free of boundaries. */
  lemma {:induction false} BoundaryNear(s: Bytes, i: nat)
    requires Valid(s) && i <= |s|
    ensures exists j :: i - 3 <= j <= i && IsBoundary(s, j)
    ensures exists j :: i <= j <= i + 3 && IsBoundary(s, j)
    decreases |s|
  {
    if |s| > 0 {
      var w := FirstWidth(s);
      if i <= w {
        assert IsBoundary(s, 0) && IsBoundary(s, w) by {
          if w < |s| { CharacterShape(s[w..]); }
        }
        if i < w { assert IsBoundary(s, 0); assert w <= i + 3 || i == 0; }
      } else {
        BoundaryNear(s[w..], i - w);
        var lo :| i - w - 3 <= lo <= i - w && IsBoundary(s[w..], lo);
        var hi :| i - w <= hi <= i - w + 3 && IsBoundary(s[w..], hi);
        assert IsBoundary(s, w) by {
          if w < |s| { CharacterShape(s[w..]); }
        }
        assert IsBoundary(s, lo + w) && IsBoundary(s, hi + w);
      }
    } else {
      assert IsBoundary(s, i);
    }
  }

  /** Appending text leaves every boundary of the text before it where it was. */
  lemma AppendBoundary(s: Bytes, t: Bytes, i: int)
    requires Valid(t)
    requires 0 <= i
    ensures i <= |s| ==> (IsBoundary(s + t, i) <==> IsBoundary(s, i))
    ensures |s| <= i ==> (IsBoundary(s + t, i) <==> IsBoundary(t, i - |s|))
  {
    if |t| == 0 {
      assert s + t == s;
    } else {
      CharacterShape(t);
    }
  }

  /** Text written in ASCII; other characters are replaced by a question mark. */
  function Ascii(s: string): (t: Text)
    ensures |t| == |s|
  {
    var bytes := seq(|s|, i requires 0 <= i < |s| => if s[i] as int < 128 then s[i] as int as Byte else 63);
    AsciiValid(bytes);
    bytes
  }

  lemma {:induction false} AsciiValid(s: Bytes)
    requires forall i :: 0 <= i < |s| ==> s[i] < 128
    ensures Valid(s)
    decreases |s|
  {
    if |s| > 0 {
      AsciiValid(s[1..]);
    }
  }

  function Flatten(chunks: seq<Text>): (r: Bytes)
    ensures Valid(r)
  {
    if |chunks| == 0 then []
    else
      ConcatValid(Flatten(chunks[..|chunks| - 1]), chunks[|chunks| - 1]);
      Flatten(chunks[..|chunks| - 1]) + chunks[|chunks| - 1]
  }

  // ---- Text is what encodes Unicode scalar values.

  type Scalar = c: int | 0 <= c <= 0x10FFFF && !(0xD800 <= c <= 0xDFFF) witness 0

  /** The encoding of section 3 of RFC 3629. */
  function Encode(c: Scalar): (s: Bytes) {
    if c < 0x80 then [c as Byte]
    else if c < 0x800 then [(0xC0 + c / 64) as Byte, (0x80 + c % 64) as Byte]
    else if c < 0x1_0000 then [(0xE0 + c / 4096) as Byte, (0x80 + c / 64 % 64) as Byte, (0x80 + c % 64) as Byte]
    else [(0xF0 + c / 262144) as Byte, (0x80 + c / 4096 % 64) as Byte, (0x80 + c / 64 % 64) as Byte, (0x80 + c % 64) as Byte]
  }

  function EncodeText(cs: seq<Scalar>): (s: Bytes) {
    if |cs| == 0 then [] else Encode(cs[0]) + EncodeText(cs[1..])
  }

  lemma EncodedIsCharacter(c: Scalar)
    ensures FirstWidth(Encode(c)) == |Encode(c)| > 0
  {
    if 0x1_0000 <= c {
      assert 0 <= c / 262144 <= 4;
    } else if 0x800 <= c {
      assert 0 <= c / 4096 <= 15;
    }
  }

  /** The scalar value a well-formed character stands for. */
  function ScalarOf(s: Bytes): (c: int)
    requires FirstWidth(s) > 0
  {
    var w := FirstWidth(s);
    if w == 1 then s[0] as int
    else if w == 2 then 64 * (s[0] as int - 0xC0) + (s[1] as int - 0x80)
    else if w == 3 then 4096 * (s[0] as int - 0xE0) + 64 * (s[1] as int - 0x80) + (s[2] as int - 0x80)
    else 262144 * (s[0] as int - 0xF0) + 4096 * (s[1] as int - 0x80) + 64 * (s[2] as int - 0x80) + (s[3] as int - 0x80)
  }

  lemma SixBits(high: nat, low: nat)
    requires low < 64
    ensures (64 * high + low) / 64 == high && (64 * high + low) % 64 == low
  {
  }

  /** The groups of six bits of a number. */
  lemma Groups(a: nat, b: nat, c: nat, d: nat)
    requires b < 64 && c < 64 && d < 64
    ensures var n := 262144 * a + 4096 * b + 64 * c + d;
            n / 262144 == a && n / 4096 % 64 == b && n / 64 % 64 == c && n % 64 == d
    ensures a == 0 ==> (4096 * b + 64 * c + d) / 4096 == b
  {
    var n := 262144 * a + 4096 * b + 64 * c + d;
    SixBits(a, b);
    SixBits(64 * a + b, c);
    SixBits(4096 * a + 64 * b + c, d);
    assert n / 64 == 4096 * a + 64 * b + c;
    assert n / 4096 == 64 * a + b;
    assert n / 262144 == a;
  }

  lemma WideIsEncoded(s: Bytes)
    requires FirstWidth(s) == 4
    ensures var c := ScalarOf(s); 0x1_0000 <= c <= 0x10FFFF && Encode(c) == s[..4]
  {
    var a, b, c, d := s[0] as int - 0xF0, s[1] as int - 0x80, s[2] as int - 0x80, s[3] as int - 0x80;
    assert FourByteLead(s[0], s[1]) && Continuation(s[2]) && Continuation(s[3]);
    assert 0x1_0000 <= ScalarOf(s) <= 0x10FFFF;
    Groups(a, b, c, d);
  }

  lemma MiddleIsEncoded(s: Bytes)
    requires FirstWidth(s) == 3
    ensures var c := ScalarOf(s); 0x800 <= c < 0x1_0000 && !(0xD800 <= c <= 0xDFFF) && Encode(c) == s[..3]
  {
    var b, c, d := s[0] as int - 0xE0, s[1] as int - 0x80, s[2] as int - 0x80;
    assert ThreeByteLead(s[0], s[1]) && Continuation(s[2]);
    Groups(0, b, c, d);
  }

  lemma NarrowIsEncoded(s: Bytes)
    requires FirstWidth(s) == 1 || FirstWidth(s) == 2
    ensures var c := ScalarOf(s); 0 <= c < 0x800 && Encode(c) == s[..FirstWidth(s)]
  {
    if FirstWidth(s) == 2 {
      SixBits(s[0] as int - 0xC0, s[1] as int - 0x80);
    }
  }

  lemma CharacterIsEncoded(s: Bytes)
    requires FirstWidth(s) > 0
    ensures var c := ScalarOf(s);
            0 <= c <= 0x10FFFF && !(0xD800 <= c <= 0xDFFF) && Encode(c) == s[..FirstWidth(s)]
  {
    hide FirstWidth;
    hide ScalarOf;
    hide Encode;
    if FirstWidth(s) == 4 {
      WideIsEncoded(s);
    } else if FirstWidth(s) == 3 {
      MiddleIsEncoded(s);
    } else {
      NarrowIsEncoded(s);
    }
  }

  lemma {:induction false} EncodedIsValid(cs: seq<Scalar>)
    ensures Valid(EncodeText(cs))
  {
    hide FirstWidth;
    hide Encode;
    if |cs| > 0 {
      EncodedIsValid(cs[1..]);
      EncodedIsCharacter(cs[0]);
      FirstWidthOfConcat(Encode(cs[0]), EncodeText(cs[1..]));
      assert EncodeText(cs)[|Encode(cs[0])|..] == EncodeText(cs[1..]);
    }
  }

  lemma {:induction false} ValidHasScalars(s: Bytes) returns (cs: seq<Scalar>)
    requires Valid(s)
    ensures EncodeText(cs) == s
    decreases |s|
  {
    hide FirstWidth;
    hide Encode;
    hide ScalarOf;
    if |s| == 0 {
      cs := [];
    } else {
      var w := FirstWidth(s);
      var rest := ValidHasScalars(s[w..]);
      CharacterIsEncoded(s);
      var c: Scalar := ScalarOf(s);
      cs := [c] + rest;
      assert s == s[..w] + s[w..];
    }
  }

  /** Text is exactly what encodes a sequence of Unicode scalar values. */
  lemma TextIsEncoded(s: Bytes)
    ensures Valid(s) <==> exists cs :: EncodeText(cs) == s
  {
    hide Valid;
    hide EncodeText;
    if Valid(s) {
      var cs := ValidHasScalars(s);
      assert EncodeText(cs) == s;
    }
    if cs :| EncodeText(cs) == s {
      EncodedIsValid(cs);
    }
  }
}
