/** Byte strings and their UTF-8 well-formedness, by the grammar of section 4 of RFC 3629. */
module Utf8 {

  type Byte = b: int | 0 <= b < 256

  type Bytes = seq<Byte>

  /** The bytes of a text all of whose characters are ASCII. */
  function Ascii(s: string): Bytes {
    seq(|s|, i requires 0 <= i < |s| => s[i] as int % 256)
  }

  predicate Tail(b: Byte) {
    0x80 <= b <= 0xBF
  }

  /** The length of the character that starts s; 0 when none does. */
  function CharLength(s: Bytes): (n: nat)
    ensures n <= |s| && n <= 4
  {
    if |s| >= 1 && s[0] <= 0x7F then 1
    else if |s| >= 2 && 0xC2 <= s[0] <= 0xDF && Tail(s[1]) then 2
    else if |s| >= 3 && Tail(s[2]) && Second3(s[0], s[1]) then 3
    else if |s| >= 4 && Tail(s[2]) && Tail(s[3]) && Second4(s[0], s[1]) then 4
    else 0
  }

  predicate Second3(first: Byte, second: Byte) {
    || (first == 0xE0 && 0xA0 <= second <= 0xBF)
    || (0xE1 <= first <= 0xEC && Tail(second))
    || (first == 0xED && 0x80 <= second <= 0x9F)
    || (0xEE <= first <= 0xEF && Tail(second))
  }

  predicate Second4(first: Byte, second: Byte) {
    || (first == 0xF0 && 0x90 <= second <= 0xBF)
    || (0xF1 <= first <= 0xF3 && Tail(second))
    || (first == 0xF4 && 0x80 <= second <= 0x8F)
  }

  predicate Valid(s: Bytes)
    decreases |s|
  {
    s == [] || (CharLength(s) > 0 && Valid(s[CharLength(s)..]))
  }

  /** What follows valid text decides whether the whole is valid. */
  lemma {:induction false} ValidAfter(a: Bytes, b: Bytes)
    requires Valid(a)
    ensures Valid(a + b) <==> Valid(b)
    decreases |a|
  {
    if a == [] {
      assert a + b == b;
    } else {
      var n := CharLength(a);
      assert CharLength(a + b) == n;
      assert (a + b)[n..] == a[n..] + b;
      ValidAfter(a[n..], b);
    }
  }

  /** The longest valid prefix. */
  function LongestValid(s: Bytes): (r: Bytes)
    ensures r <= s && Valid(r)
    ensures forall k :: |r| < k <= |s| ==> !Valid(s[..k])
    decreases |s|
  {
    if Valid(s) then s else
      var r := LongestValid(s[..|s| - 1]);
      assert forall k :: |r| < k < |s| ==> s[..|s| - 1][..k] == s[..k];
      assert s[..|s|] == s;
      r
  }

  /** Drops bytes from the end until the text is valid. */
  method TrimToValid(s: Bytes) returns (r: Bytes)
    ensures r == LongestValid(s)
  {
    r := s;
    while |r| > 0 && !Valid(r)
      invariant r <= s
      invariant LongestValid(r) == LongestValid(s)
    {
      r := r[..|r| - 1];
    }
  }

  predicate Surrogate(n: int) {
    0xD800 <= n <= 0xDFFF
  }

  /** The encoding of a code point; a surrogate half becomes the replacement character. */
  function Encode(n: int): Bytes
    requires 0 <= n <= 0x10FFFF
  {
    if n <= 0x7F then [n]
    else if n <= 0x7FF then [0xC0 + n / 64, 0x80 + n % 64]
    else if Surrogate(n) then [0xEF, 0xBF, 0xBD]
    else if n <= 0xFFFF then [0xE0 + n / 4096, 0x80 + n / 64 % 64, 0x80 + n % 64]
    else [0xF0 + n / 262144, 0x80 + n / 4096 % 64, 0x80 + n / 64 % 64, 0x80 + n % 64]
  }

  /** The bytes a text takes, which is what the program measures lengths in. */
  function Size(s: string): (n: nat)
    ensures |s| <= n <= 4 * |s|
  {
    if s == "" then 0 else |Encode(s[0] as int)| + Size(s[1..])
  }

  /** Every code point is encoded as one whole character. */
  lemma {:induction false} EncodeIsValid(n: int)
    requires 0 <= n <= 0x10FFFF
    ensures CharLength(Encode(n)) == |Encode(n)| > 0 && Valid(Encode(n))
  {
    var r := Encode(n);
    if 0x800 <= n <= 0xFFFF && !Surrogate(n) {
      assert r[0] == 0xE0 ==> n / 64 >= 32;
      assert r[0] == 0xED ==> n / 64 < 864;
      assert Second3(r[0], r[1]);
    } else if n > 0xFFFF {
      assert r[0] == 0xF0 ==> n / 4096 >= 16;
      assert Second4(r[0], r[1]);
    }
    assert r[CharLength(r)..] == [];
  }

  /** What a byte with the given mark contributes at the given place. */
  function Bits(b: int, mark: int, place: int): int {
    (b - mark) * place
  }

  /** The code point a single character stands for, from the bits of its bytes. */
  function CodePoint(s: Bytes): int
    requires s != [] && CharLength(s) == |s|
  {
    if |s| == 1 then s[0]
    else if |s| == 2 then Bits(s[0], 0xC0, 64) + Bits(s[1], 0x80, 1)
    else if |s| == 3 then Bits(s[0], 0xE0, 4096) + Bits(s[1], 0x80, 64) + Bits(s[2], 0x80, 1)
    else Bits(s[0], 0xF0, 262144) + Bits(s[1], 0x80, 4096) + Bits(s[2], 0x80, 64) + Bits(s[3], 0x80, 1)
  }

  /** Encoding loses nothing, except that a surrogate half becomes the replacement character. */
  lemma {:induction false} EncodeRoundTrip(n: int)
    requires 0 <= n <= 0x10FFFF
    ensures Encode(n) != [] && CharLength(Encode(n)) == |Encode(n)|
    ensures CodePoint(Encode(n)) == if Surrogate(n) then 0xFFFD else n
  {
    hide CharLength, Valid;
    EncodeIsValid(n);
    Places(n);
  }

  lemma {:induction false} Places(n: int)
    requires 0 <= n
    ensures n == (n / 64) * 64 + n % 64
    ensures n == (n / 4096) * 4096 + (n / 64 % 64) * 64 + n % 64
    ensures n == (n / 262144) * 262144 + (n / 4096 % 64) * 4096 + (n / 64 % 64) * 64 + n % 64
  {
    QuotientOfQuotient(n, 64);
    QuotientOfQuotient(n, 4096);
    assert (n / 64) == (n / 64 / 64) * 64 + n / 64 % 64;
    assert (n / 4096) == (n / 4096 / 64) * 64 + n / 4096 % 64;
  }

  lemma {:induction false} QuotientOfQuotient(n: int, d: int)
    requires 0 <= n && (d == 64 || d == 4096)
    ensures n / d / 64 == n / (d * 64)
  {
    var q, r := n / d, n % d;
    assert n == q * d + r;
    var a, b := q / 64, q % 64;
    assert n == (a * 64 + b) * d + r;
  }

  /** A code point that stands for a character. */
  type Scalar = n: int | 0 <= n <= 0x10FFFF && !Surrogate(n)

  function EncodeAll(points: seq<Scalar>): Bytes {
    if points == [] then [] else Encode(points[0]) + EncodeAll(points[1..])
  }

  /** A character is the encoding of the scalar value its bits make. */
  lemma {:induction false} CharacterIsEncoding(s: Bytes)
    requires s != [] && CharLength(s) == |s|
    ensures 0 <= CodePoint(s) <= 0x10FFFF && !Surrogate(CodePoint(s)) && Encode(CodePoint(s)) == s
  {
    if |s| == 2 {
      var a: int, b: int := s[0] - 0xC0, s[1] - 0x80;
      assert CodePoint(s) == a * 64 + b;
    } else if |s| == 3 {
      ThreeBytes(s);
    } else if |s| == 4 {
      FourBytes(s);
    }
  }

  lemma {:induction false} ThreeBytes(s: Bytes)
    requires |s| == 3 && Tail(s[2]) && Second3(s[0], s[1])
    ensures 0 <= CodePoint(s) <= 0x10FFFF && !Surrogate(CodePoint(s)) && CodePoint(s) > 0x7FF
        && Encode(CodePoint(s)) == s
  {
    var a: int, b: int, c: int := s[0] - 0xE0, s[1] - 0x80, s[2] - 0x80;
    Places3(a, b, c);
    assert CodePoint(s) == a * 4096 + b * 64 + c;
  }

  lemma {:induction false} Places3(a: int, b: int, c: int)
    requires 0 <= a < 16 && 0 <= b < 64 && 0 <= c < 64
    ensures var n := a * 4096 + b * 64 + c; n / 4096 == a && n / 64 % 64 == b && n % 64 == c
  {
    var n := a * 4096 + b * 64 + c;
    assert n / 64 == a * 64 + b;
  }

  lemma {:induction false} FourBytes(s: Bytes)
    requires |s| == 4 && Tail(s[2]) && Tail(s[3]) && Second4(s[0], s[1])
    ensures 0 <= CodePoint(s) <= 0x10FFFF && !Surrogate(CodePoint(s)) && CodePoint(s) > 0xFFFF
        && Encode(CodePoint(s)) == s
  {
    var a: int, b: int, c: int, d: int := s[0] - 0xF0, s[1] - 0x80, s[2] - 0x80, s[3] - 0x80;
    Places4(a, b, c, d);
    assert CodePoint(s) == a * 262144 + b * 4096 + c * 64 + d;
  }

  lemma {:induction false} Places4(a: int, b: int, c: int, d: int)
    requires 0 <= a < 8 && 0 <= b < 64 && 0 <= c < 64 && 0 <= d < 64
    ensures var n := a * 262144 + b * 4096 + c * 64 + d;
            n / 262144 == a && n / 4096 % 64 == b && n / 64 % 64 == c && n % 64 == d
  {
    var n := a * 262144 + b * 4096 + c * 64 + d;
    assert n / 4096 == a * 64 + b && n / 64 == a * 4096 + b * 64 + c;
  }

  /** Valid text is a sequence of encoded scalar values. */
  lemma {:induction false} ValidIsEncoded(s: Bytes) returns (points: seq<Scalar>)
    requires Valid(s)
    ensures EncodeAll(points) == s
    decreases |s|
  {
    points := [];
    if s != [] {
      var n := CharLength(s);
      FirstCharacter(s);
      var rest := ValidIsEncoded(s[n..]);
      hide CharLength, Encode, CodePoint, Valid;
      points := [CodePoint(s[..n])] + rest;
      assert points[1..] == rest && s == s[..n] + s[n..];
    }
  }

  lemma {:induction false} FirstCharacter(s: Bytes)
    requires s != [] && Valid(s)
    ensures var n := CharLength(s);
            && 0 < n <= |s| && CharLength(s[..n]) == n && Valid(s[n..])
            && 0 <= CodePoint(s[..n]) <= 0x10FFFF && !Surrogate(CodePoint(s[..n]))
            && Encode(CodePoint(s[..n])) == s[..n]
  {
    var n := CharLength(s);
    assert CharLength(s[..n]) == n;
    hide CharLength, Encode, CodePoint;
    CharacterIsEncoding(s[..n]);
  }

  lemma {:induction false} EncodedIsValid(points: seq<Scalar>)
    ensures Valid(EncodeAll(points))
    decreases |points|
  {
    hide Encode, CharLength;
    if points != [] {
      EncodeIsValid(points[0]);
      EncodedIsValid(points[1..]);
      ValidAfter(Encode(points[0]), EncodeAll(points[1..]));
    }
  }

  /** Text is valid if and only if it is what some sequence of scalar values is encoded as. */
  lemma {:induction false} ValidExactly(s: Bytes)
    ensures Valid(s) <==> exists points: seq<Scalar> :: EncodeAll(points) == s
  {
    hide Valid, EncodeAll;
    if Valid(s) {
      var points := ValidIsEncoded(s);
    }
    if points: seq<Scalar> :| EncodeAll(points) == s {
      EncodedIsValid(points);
    }
  }

  /** The bytes a text is stored in. */
  function Stored(s: string): Bytes {
    if s == "" then [] else Encode(s[0] as int) + Stored(s[1..])
  }

  /** The size of a text is the length of what it is stored in. */
  lemma {:induction false} SizeIsStored(s: string)
    ensures Size(s) == |Stored(s)|
    decreases |s|
  {
    if s != "" {
      SizeIsStored(s[1..]);
    }
  }
}
