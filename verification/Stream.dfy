/**
 * The incremental reader of one string field of a JSON document that is still arriving, and the
 * stream of increments shown to the person watching.
 */
module Stream {
  import opened Results
  import opened Utf8

  const QUOTE: Byte := 0x22
  const BACKSLASH: Byte := 0x5C
  const COLON: Byte := 0x3A

  datatype Decoded = Decoded(value: Bytes, complete: bool)

  function Prepend(b: Bytes, d: Decoded): Decoded {
    Decoded(b + d.value, d.complete)
  }

  predicate Blank(b: Byte) {
    b == 0x20 || b == 0x09 || b == 0x0A || b == 0x0D
  }

  // ------------------------------------------------------------------ decoding the field

  predicate Hex(b: Byte) {
    0x30 <= b <= 0x39 || 0x41 <= b <= 0x46 || 0x61 <= b <= 0x66
  }

  function HexDigit(b: Byte): (n: nat)
    requires Hex(b)
    ensures n < 16
  {
    if b <= 0x39 then b - 0x30 else if b <= 0x46 then b - 0x37 else b - 0x57
  }

  predicate HexQuad(s: Bytes) {
    |s| == 4 && Hex(s[0]) && Hex(s[1]) && Hex(s[2]) && Hex(s[3])
  }

  function HexValue(s: Bytes): (n: nat)
    requires HexQuad(s)
    ensures n <= 0xFFFF
  {
    4096 * HexDigit(s[0]) + 256 * HexDigit(s[1]) + 16 * HexDigit(s[2]) + HexDigit(s[3])
  }

  /** What the decoder writes for a two-character escape. */
  function Unescape(c: Byte): Bytes {
    if c == 0x6E then [0x0A]                     // n
    else if c == 0x74 then [0x09]                // t
    else if c == 0x72 then [0x0D]                // r
    else if c == 0x62 || c == 0x66 then []       // b, f
    else [c]
  }

  /** The reading of what follows the opening quote. */
  function Body(s: Bytes): Decoded
    decreases |s|
  {
    if s == [] then Decoded([], false)
    else if s[0] == QUOTE then Decoded([], true)
    else if s[0] != BACKSLASH then Prepend([s[0]], Body(s[1..]))
    else if |s| < 2 then Decoded([], false)
    else if s[1] != 0x75 then Prepend(Unescape(s[1]), Body(s[2..]))
    else if |s| < 6 || !HexQuad(s[2..6]) then Decoded([], false)
    else Prepend(Encode(HexValue(s[2..6])), Body(s[6..]))
  }

  predicate At(s: Bytes, sub: Bytes, i: nat) {
    i + |sub| <= |s| && s[i..i + |sub|] == sub
  }

  /** The first position, at or after `from`, where `sub` occurs. */
  function Find(s: Bytes, sub: Bytes, from: nat): (r: Option<nat>)
    ensures r.Some? ==> from <= r.value && At(s, sub, r.value) && forall j :: from <= j < r.value ==> !At(s, sub, j)
    ensures r.None? ==> forall j :: from <= j ==> !At(s, sub, j)
    decreases |s| - from
  {
    if from > |s| then None
    else if At(s, sub, from) then Some(from)
    else Find(s, sub, from + 1)
  }

  function SkipBlanks(s: Bytes, i: nat): (j: nat)
    requires i <= |s|
    ensures i <= j <= |s| && (j < |s| ==> !Blank(s[j])) && forall k :: i <= k < j ==> Blank(s[k])
    decreases |s| - i
  {
    if i < |s| && Blank(s[i]) then SkipBlanks(s, i + 1) else i
  }

  function Quoted(field: Bytes): Bytes {
    [QUOTE] + field + [QUOTE]
  }

  /** Where the field's value starts, just after its opening quote. */
  function ValueStart(buf: Bytes, field: Bytes): (r: Option<nat>)
    ensures r.Some? ==> r.value <= |buf|
  {
    var key := Quoted(field);
    var found := Find(buf, key, 0);
    if found.None? then None else
      var colon := SkipBlanks(buf, found.value + |key|);
      if colon >= |buf| || buf[colon] != COLON then None else
        var open := SkipBlanks(buf, colon + 1);
        if open >= |buf| || buf[open] != QUOTE then None else Some(open + 1)
  }

  function Field(buf: Bytes, field: Bytes): Decoded {
    var start := ValueStart(buf, field);
    if start.None? then Decoded([], false) else Body(buf[start.value..])
  }

  method Index(s: Bytes, sub: Bytes) returns (r: Option<nat>)
    ensures r == Find(s, sub, 0)
  {
    var i := 0;
    while i <= |s|
      invariant 0 <= i <= |s| + 1
      invariant Find(s, sub, 0) == Find(s, sub, i)
    {
      if i + |sub| <= |s| && s[i..i + |sub|] == sub {
        return Some(i);
      }
      i := i + 1;
    }
    return None;
  }

  method Skip(buf: Bytes, from: nat) returns (i: nat)
    requires from <= |buf|
    ensures i == SkipBlanks(buf, from)
  {
    i := from;
    while i < |buf| && (buf[i] == 0x20 || buf[i] == 0x09 || buf[i] == 0x0A || buf[i] == 0x0D)
      invariant from <= i <= |buf|
      invariant SkipBlanks(buf, from) == SkipBlanks(buf, i)
    {
      i := i + 1;
    }
  }

  method JsonStringField(buf: Bytes, field: Bytes) returns (value: Bytes, complete: bool)
    ensures Decoded(value, complete) == Field(buf, field)
  {
    hide Body, Find, SkipBlanks, Blank;
    var key := [QUOTE] + field + [QUOTE];
    var found := Index(buf, key);
    if found.None? {
      return [], false;
    }
    var i := Skip(buf, found.value + |key|);
    if i >= |buf| || buf[i] != COLON {
      return [], false;
    }
    i := Skip(buf, i + 1);
    if i >= |buf| || buf[i] != QUOTE {
      return [], false;
    }
    value, complete := DecodeFrom(buf, i + 1);
  }

  method DecodeFrom(buf: Bytes, from: nat) returns (value: Bytes, complete: bool)
    requires from <= |buf|
    ensures Decoded(value, complete) == Body(buf[from..])
  {
    hide Body, HexQuad, HexValue, Encode, Unescape;
    value, complete := [], false;
    BodyOfNothing(buf);
    var i := from;
    while i < |buf|
      invariant from <= i <= |buf| && !complete
      invariant Body(buf[from..]) == Prepend(value, Body(buf[i..]))
    {
      BodyStep(buf, i, value);
      var c := buf[i];
      if c == QUOTE {
        complete := true;
        return;
      }
      if c != BACKSLASH {
        value, i := value + [c], i + 1;
        continue;
      }
      if i + 1 >= |buf| {
        return;
      }
      if buf[i + 1] != 0x75 {
        value, i := value + Unescape(buf[i + 1]), i + 2;
        continue;
      }
      if i + 5 >= |buf| || !HexQuad(buf[i + 2..i + 6]) {
        return;
      }
      value, i := value + Encode(HexValue(buf[i + 2..i + 6])), i + 6;
    }
  }

  lemma {:induction false} BodyOfNothing(buf: Bytes)
    ensures Body(buf[|buf|..]) == Decoded([], false)
  {}

  /** One turn of the decoding loop at position i, with `value` read so far. */
  lemma {:induction false} BodyStep(buf: Bytes, i: nat, value: Bytes)
    requires i < |buf|
    ensures Prepend(value, Body(buf[i..])) ==
            if buf[i] == QUOTE then Decoded(value, true)
            else if buf[i] != BACKSLASH then Prepend(value + [buf[i]], Body(buf[i + 1..]))
            else if i + 1 >= |buf| then Decoded(value, false)
            else if buf[i + 1] != 0x75 then Prepend(value + Unescape(buf[i + 1]), Body(buf[i + 2..]))
            else if i + 5 >= |buf| || !HexQuad(buf[i + 2..i + 6]) then Decoded(value, false)
            else Prepend(value + Encode(HexValue(buf[i + 2..i + 6])), Body(buf[i + 6..]))
  {
    var s := buf[i..];
    assert value + [] == value;
    assert s[1..] == buf[i + 1..];
    if s[0] != QUOTE && s[0] != BACKSLASH {
      PrependTwice(value, [s[0]], Body(s[1..]));
    } else if s[0] == BACKSLASH && |s| >= 2 && s[1] != 0x75 {
      assert s[2..] == buf[i + 2..];
      PrependTwice(value, Unescape(s[1]), Body(s[2..]));
    } else if |s| >= 6 {
      assert s[2..6] == buf[i + 2..i + 6] && s[6..] == buf[i + 6..];
      if HexQuad(s[2..6]) {
        PrependTwice(value, Encode(HexValue(s[2..6])), Body(s[6..]));
      }
    }
  }

  lemma {:induction false} PrependTwice(a: Bytes, b: Bytes, d: Decoded)
    ensures Prepend(a, Prepend(b, d)) == Prepend(a + b, d)
  {
    assert a + (b + d.value) == (a + b) + d.value;
  }

  // ------------------------------------------------------------------ a buffer and its extension

  lemma {:induction false} BodyExtends(s: Bytes, t: Bytes)
    ensures Body(s).value <= Body(s + t).value
    ensures Body(s).complete ==> Body(s + t) == Body(s)
    decreases |s|
  {
    if s != [] && s[0] != QUOTE {
      if s[0] != BACKSLASH {
        assert (s + t)[1..] == s[1..] + t;
        BodyExtends(s[1..], t);
      } else if |s| >= 2 && s[1] != 0x75 {
        assert (s + t)[2..] == s[2..] + t;
        BodyExtends(s[2..], t);
      } else if |s| >= 6 && HexQuad(s[2..6]) {
        assert (s + t)[2..6] == s[2..6];
        assert (s + t)[6..] == s[6..] + t;
        BodyExtends(s[6..], t);
      } else if |s| >= 6 {
        assert (s + t)[2..6] == s[2..6];
      }
    }
  }

  lemma {:induction false} FirstOccurrenceStays(s: Bytes, t: Bytes, sub: Bytes)
    requires Find(s, sub, 0).Some?
    ensures Find(s + t, sub, 0) == Find(s, sub, 0)
  {
    var i := Find(s, sub, 0).value;
    forall j: nat | j <= i ensures At(s + t, sub, j) <==> At(s, sub, j) {
      assert (s + t)[j..j + |sub|] == s[j..j + |sub|];
    }
  }

  lemma {:induction false} BlanksStay(s: Bytes, t: Bytes, i: nat)
    requires i <= |s| && SkipBlanks(s, i) < |s|
    ensures SkipBlanks(s + t, i) == SkipBlanks(s, i)
  {
    var a, b := SkipBlanks(s, i), SkipBlanks(s + t, i);
    assert forall k :: 0 <= k < |s| ==> (s + t)[k] == s[k];
    assert !Blank((s + t)[a]);
    assert b < |s| ==> (s + t)[b] == s[b];
  }

  lemma {:induction false} StartStays(s: Bytes, t: Bytes, field: Bytes)
    requires ValueStart(s, field).Some?
    ensures ValueStart(s + t, field) == ValueStart(s, field)
  {
    hide Find, SkipBlanks;
    var key := Quoted(field);
    FirstOccurrenceStays(s, t, key);
    var after := Find(s, key, 0).value + |key|;
    BlanksStay(s, t, after);
    var colon := SkipBlanks(s, after);
    assert (s + t)[colon] == s[colon];
    BlanksStay(s, t, colon + 1);
    var open := SkipBlanks(s, colon + 1);
    assert (s + t)[open] == s[open];
  }

  /** The decoded value only grows with the buffer, and a complete one never changes. */
  lemma {:induction false} PrefixMonotone(buf: Bytes, more: Bytes, field: Bytes)
    ensures Field(buf, field).value <= Field(buf + more, field).value
    ensures Field(buf, field).complete ==> Field(buf + more, field) == Field(buf, field)
  {
    var start := ValueStart(buf, field);
    if start.Some? {
      StartStays(buf, more, field);
      assert (buf + more)[start.value..] == buf[start.value..] + more;
      BodyExtends(buf[start.value..], more);
    }
  }

  // ------------------------------------------------------------------ the JSON round trip

  /**
   * One character of a JSON string as section 7 of RFC 8259 lets it be written: itself, a
   * two-character escape, four hexadecimal digits in either letter case, or a surrogate pair.
   */
  datatype Piece =
    | Raw(b: Byte)
    | Short(c: Byte)
    | Unicode(unit: Unit, upper: Cases)
    | Pair(high: Unit, highUpper: Cases, low: Unit, lowUpper: Cases)

  /** A code unit of UTF-16. */
  type Unit = n: int | 0 <= n <= 0xFFFF

  /** Which of four digits are written in upper case. */
  datatype Cases = Cases(first: bool, second: bool, third: bool, fourth: bool)

  const LOWER: Bytes := [0x30, 0x31, 0x32, 0x33, 0x34, 0x35, 0x36, 0x37, 0x38, 0x39, 0x61, 0x62, 0x63, 0x64, 0x65, 0x66]
  const UPPER: Bytes := [0x30, 0x31, 0x32, 0x33, 0x34, 0x35, 0x36, 0x37, 0x38, 0x39, 0x41, 0x42, 0x43, 0x44, 0x45, 0x46]

  function Digit(n: int, upper: bool): Byte
    requires 0 <= n < 16
  {
    if upper then UPPER[n] else LOWER[n]
  }

  /** The four hexadecimal digits of a code unit, most significant first. */
  function Spelling(n: Unit, u: Cases): Bytes {
    [Digit(n / 4096, u.first), Digit(n / 256 % 16, u.second), Digit(n / 16 % 16, u.third), Digit(n % 16, u.fourth)]
  }

  lemma {:induction false} DigitIsRead(n: int, upper: bool)
    requires 0 <= n < 16
    ensures Hex(Digit(n, upper)) && HexDigit(Digit(n, upper)) == n
  {}

  /** Nothing but a digit of either case is taken for one. */
  lemma {:induction false} HexExactly(b: Byte)
    ensures Hex(b) <==> b in UPPER || b in LOWER
  {
    if Hex(b) {
      var n := HexDigit(b);
      assert UPPER[n] == b || LOWER[n] == b;
    }
  }

  /** Reading four digits undoes writing them. */
  lemma {:induction false} SpellingIsRead(n: Unit, u: Cases)
    ensures HexQuad(Spelling(n, u)) && HexValue(Spelling(n, u)) == n
  {
    DigitIsRead(n / 4096, u.first);
    DigitIsRead(n / 256 % 16, u.second);
    DigitIsRead(n / 16 % 16, u.third);
    DigitIsRead(n % 16, u.fourth);
    hide Digit, Hex, HexDigit;
    DigitsAddUp(n);
  }

  lemma {:induction false} DigitsAddUp(n: Unit)
    ensures n == 4096 * (n / 4096) + 256 * (n / 256 % 16) + 16 * (n / 16 % 16) + n % 16
    ensures n / 4096 < 16
  {
    assert n == 16 * (n / 16) + n % 16;
    assert n / 16 == 16 * (n / 256) + n / 16 % 16;
    assert n / 256 == 16 * (n / 4096) + n / 256 % 16;
  }

  predicate WellFormed(p: Piece) {
    match p
    case Raw(b) => b >= 0x20 && b != QUOTE && b != BACKSLASH
    case Short(c) => c == QUOTE || c == BACKSLASH || c == 0x2F || c == 0x62 || c == 0x66 || c == 0x6E || c == 0x72
        || c == 0x74
    case Unicode(n, _) => !(0xD800 <= n <= 0xDFFF)
    case Pair(h, _, l, _) => 0xD800 <= h <= 0xDBFF && 0xDC00 <= l <= 0xDFFF
  }

  function Text(p: Piece): Bytes {
    match p
    case Raw(b) => [b]
    case Short(c) => [BACKSLASH, c]
    case Unicode(n, u) => [BACKSLASH, 0x75] + Spelling(n, u)
    case Pair(h, u, l, v) => [BACKSLASH, 0x75] + Spelling(h, u) + [BACKSLASH, 0x75] + Spelling(l, v)
  }

  /** The character a piece denotes, by RFC 8259. */
  function Meaning(p: Piece): Bytes
    requires WellFormed(p)
  {
    match p
    case Raw(b) => [b]
    case Short(c) =>
      if c == 0x62 then [0x08] else if c == 0x66 then [0x0C] else if c == 0x6E then [0x0A]
      else if c == 0x72 then [0x0D] else if c == 0x74 then [0x09] else [c]
    case Unicode(n, _) => Encode(n)
    case Pair(h, _, l, _) => Encode(0x10000 + (h - 0xD800) * 1024 + (l - 0xDC00))
  }

  predicate AllWellFormed(ps: seq<Piece>) {
    forall i :: 0 <= i < |ps| ==> WellFormed(ps[i])
  }

  function Texts(ps: seq<Piece>): Bytes {
    if ps == [] then [] else Text(ps[0]) + Texts(ps[1..])
  }

  function Value(ps: seq<Piece>): Bytes
    requires AllWellFormed(ps)
  {
    if ps == [] then [] else Meaning(ps[0]) + Value(ps[1..])
  }

  /** What the decoder makes of one piece: nothing of \b and \f, two replacement characters of a pair. */
  function Heard(p: Piece): Bytes
    requires WellFormed(p)
  {
    match p
    case Raw(b) => [b]
    case Short(c) => Unescape(c)
    case Unicode(n, _) => Encode(n)
    case Pair(_, _, _, _) => [0xEF, 0xBF, 0xBD, 0xEF, 0xBF, 0xBD]
  }

  function HeardAll(ps: seq<Piece>): Bytes
    requires AllWellFormed(ps)
  {
    if ps == [] then [] else Heard(ps[0]) + HeardAll(ps[1..])
  }

  lemma {:induction false} UnitIsHeard(n: Unit, u: Cases, rest: Bytes)
    ensures Body([BACKSLASH, 0x75] + Spelling(n, u) + rest) == Prepend(Encode(n), Body(rest))
  {
    var s := [BACKSLASH, 0x75] + Spelling(n, u) + rest;
    SpellingIsRead(n, u);
    assert s[2..6] == Spelling(n, u) && s[6..] == rest;
    hide Spelling, HexQuad, HexValue, Encode;
  }

  lemma {:induction false} PieceIsHeard(p: Piece, rest: Bytes)
    requires WellFormed(p)
    ensures Body(Text(p) + rest) == Prepend(Heard(p), Body(rest))
  {
    hide Spelling;
    var s := Text(p) + rest;
    match p
    case Raw(b) => assert s[1..] == rest;
    case Short(c) => assert s[2..] == rest;
    case Unicode(n, u) => UnitIsHeard(n, u, rest);
    case Pair(h, u, l, v) =>
      var half: Bytes := [0xEF, 0xBF, 0xBD];
      var second := [BACKSLASH, 0x75] + Spelling(l, v) + rest;
      assert s == [BACKSLASH, 0x75] + Spelling(h, u) + second;
      UnitIsHeard(h, u, second);
      UnitIsHeard(l, v, rest);
      PrependTwice(half, half, Body(rest));
      assert half + half == Heard(p);
  }

  lemma {:induction false} QuoteEnds(rest: Bytes)
    ensures Body([QUOTE] + rest) == Decoded([], true)
  {}

  lemma {:induction false} PiecesAreHeard(ps: seq<Piece>, rest: Bytes)
    requires AllWellFormed(ps)
    ensures Body(Texts(ps) + ([QUOTE] + rest)) == Decoded(HeardAll(ps), true)
    decreases |ps|
  {
    QuoteEnds(rest);
    hide Body, Text, Heard, WellFormed;
    var tail := [QUOTE] + rest;
    if ps == [] {
      assert Texts(ps) + tail == tail;
    } else {
      PieceIsHeard(ps[0], Texts(ps[1..]) + tail);
      PiecesAreHeard(ps[1..], rest);
      assert Texts(ps) + tail == Text(ps[0]) + (Texts(ps[1..]) + tail);
    }
  }

  /** The pieces the decoder renders as RFC 8259 means them. */
  predicate Faithful(p: Piece) {
    !p.Pair? && !(p.Short? && (p.c == 0x62 || p.c == 0x66))
  }

  /** The bytes that lead a four-byte character. */
  function Leads(s: Bytes): nat {
    if s == [] then 0 else (if s[0] >= 0xF0 then 1 else 0) + Leads(s[1..])
  }

  lemma {:induction false} LeadsOfSum(a: Bytes, b: Bytes)
    ensures Leads(a + b) == Leads(a) + Leads(b)
    decreases |a|
  {
    if a == [] {
      assert a + b == b;
    } else {
      assert (a + b)[1..] == a[1..] + b;
      LeadsOfSum(a[1..], b);
    }
  }

  function Pairs(ps: seq<Piece>): nat {
    if ps == [] then 0 else (if ps[0].Pair? then 1 else 0) + Pairs(ps[1..])
  }

  function Dropped(ps: seq<Piece>): nat {
    if ps == [] then 0 else (if !ps[0].Pair? && !Faithful(ps[0]) then 1 else 0) + Dropped(ps[1..])
  }

  lemma {:induction false} PieceAccount(p: Piece)
    requires WellFormed(p)
    ensures Leads(Meaning(p)) == Leads(Heard(p)) + (if p.Pair? then 1 else 0)
    ensures |Meaning(p)| + (if p.Pair? then 2 else 0) == |Heard(p)| + (if !p.Pair? && !Faithful(p) then 1 else 0)
    ensures Faithful(p) ==> Meaning(p) == Heard(p)
  {
    if p.Pair? {
      var m := Meaning(p);
      assert m == [m[0]] + ([m[1]] + ([m[2]] + [m[3]]));
      LeadsOfSum([m[0]], [m[1]] + ([m[2]] + [m[3]]));
      LeadsOfSum([m[1]], [m[2]] + [m[3]]);
      LeadsOfSum([m[2]], [m[3]]);
      var half: Bytes := [0xEF, 0xBF, 0xBD];
      assert Heard(p) == half + half;
      LeadsOfSum(half, half);
      LeadsOfSum([0xEF], [0xBF, 0xBD]);
    }
  }

  lemma {:induction false} Account(ps: seq<Piece>)
    requires AllWellFormed(ps)
    ensures Leads(Value(ps)) == Leads(HeardAll(ps)) + Pairs(ps)
    ensures |Value(ps)| + 2 * Pairs(ps) == |HeardAll(ps)| + Dropped(ps)
    ensures Pairs(ps) == 0 && Dropped(ps) == 0 <==> forall i :: 0 <= i < |ps| ==> Faithful(ps[i])
    ensures Pairs(ps) == 0 && Dropped(ps) == 0 ==> Value(ps) == HeardAll(ps)
    decreases |ps|
  {
    if ps != [] {
      PieceAccount(ps[0]);
      Account(ps[1..]);
      LeadsOfSum(Meaning(ps[0]), Value(ps[1..]));
      LeadsOfSum(Heard(ps[0]), HeardAll(ps[1..]));
      assert forall i :: 0 < i < |ps| ==> ps[i] == ps[1..][i - 1];
      assert (forall i :: 0 <= i < |ps| ==> Faithful(ps[i])) <==>
        (Faithful(ps[0]) && forall i :: 0 <= i < |ps[1..]| ==> Faithful(ps[1..][i]));
    }
  }

  /** Spaces, tabs, line feeds and carriage returns. */
  predicate AllBlank(s: Bytes) {
    forall i :: 0 <= i < |s| ==> s[i] in BLANKS
  }

  const BLANKS: set<Byte> := {0x20, 0x09, 0x0A, 0x0D}

  /** A document holding the field, however spaced and however its value is escaped. */
  function Document(before: Bytes, field: Bytes, gap: Bytes, gap': Bytes, ps: seq<Piece>, after: Bytes): Bytes {
    before + Quoted(field) + gap + [COLON] + gap' + [QUOTE] + (Texts(ps) + ([QUOTE] + after))
  }

  lemma {:induction false} DocumentStart(
      before: Bytes, field: Bytes, gap: Bytes, gap': Bytes, ps: seq<Piece>, after: Bytes)
    requires AllBlank(gap) && AllBlank(gap')
    requires Find(Document(before, field, gap, gap', ps, after), Quoted(field), 0) == Some(|before|)
    ensures var doc := Document(before, field, gap, gap', ps, after);
            var start := ValueStart(doc, field);
            start.Some? && doc[start.value..] == Texts(ps) + ([QUOTE] + after)
  {
    hide Texts, Find;
    var doc := Document(before, field, gap, gap', ps, after);
    var i := |before| + |Quoted(field)|;
    var colon := i + |gap|;
    assert doc[colon] == COLON;
    assert forall k :: i <= k < colon ==> doc[k] == gap[k - i];
    assert SkipBlanks(doc, i) == colon;
    var open := colon + 1 + |gap'|;
    assert doc[open] == QUOTE;
    assert forall k :: colon + 1 <= k < open ==> doc[k] == gap'[k - colon - 1];
    assert SkipBlanks(doc, colon + 1) == open;
    assert doc[open + 1..] == Texts(ps) + ([QUOTE] + after);
  }

  /** A text that breaks off or breaks the rules ends the reading there, unfinished. */
  lemma {:induction false} BrokenEnds(ps: seq<Piece>, broken: Bytes)
    requires AllWellFormed(ps) && Broken(broken)
    ensures Body(Texts(ps) + broken) == Decoded(HeardAll(ps), false)
    decreases |ps|
  {
    hide Body, Text, Heard, WellFormed, Broken;
    BrokenShowsNothing(broken);
    if ps == [] {
      assert Texts(ps) + broken == broken;
    } else {
      PieceIsHeard(ps[0], Texts(ps[1..]) + broken);
      BrokenEnds(ps[1..], broken);
      assert Texts(ps) + broken == Text(ps[0]) + (Texts(ps[1..]) + broken);
    }
  }

  /** Nothing, an escape that is not complete, or one whose digits are not digits. */
  ghost predicate Broken(s: Bytes) {
    || s == [] || s == [BACKSLASH]
    || (|s| >= 2 && s[0] == BACKSLASH && s[1] == 0x75
        && (|s| < 6 || exists i :: 2 <= i < 6 && s[i] !in UPPER && s[i] !in LOWER))
  }

  lemma {:induction false} BrokenShowsNothing(s: Bytes)
    requires Broken(s)
    ensures Body(s) == Decoded([], false)
  {
    if |s| >= 6 {
      var i :| 2 <= i < 6 && s[i] !in UPPER && s[i] !in LOWER;
      HexExactly(s[i]);
      hide Hex;
      assert s[2..6][i - 2] == s[i];
    }
  }

  /** An escape RFC 8259 does not know stands for its second character. */
  lemma {:induction false} UnknownEscape(c: Byte, rest: Bytes)
    requires c !in [QUOTE, BACKSLASH, 0x2F, 0x62, 0x66, 0x6E, 0x72, 0x74, 0x75]
    ensures Body([BACKSLASH, c] + rest) == Prepend([c], Body(rest))
  {
    assert ([BACKSLASH, c] + rest)[2..] == rest;
  }

  /**
   * A whole document in which the quoted name first occurs as the name of the member decodes as
   * complete, and to the value RFC 8259 gives the string if and only if it is written without \b,
   * \f and surrogate pairs.
   */
  lemma {:induction false} JsonRoundTrip(
      before: Bytes, field: Bytes, gap: Bytes, gap': Bytes, ps: seq<Piece>, after: Bytes)
    requires AllWellFormed(ps) && AllBlank(gap) && AllBlank(gap')
    requires Find(Document(before, field, gap, gap', ps, after), Quoted(field), 0) == Some(|before|)
    ensures var d := Field(Document(before, field, gap, gap', ps, after), field);
            && d.complete
            && (d.value == Value(ps) <==> forall i :: 0 <= i < |ps| ==> Faithful(ps[i]))
  {
    DocumentStart(before, field, gap, gap', ps, after);
    PiecesAreHeard(ps, after);
    Account(ps);
  }

  predicate BlankBetween(s: Bytes, i: nat, j: nat) {
    i <= j <= |s| && forall k :: i <= k < j ==> Blank(s[k])
  }

  lemma {:induction false} SkipsTo(s: Bytes, i: nat, j: nat)
    requires i <= |s| && j < |s| && !Blank(s[j])
    ensures SkipBlanks(s, i) == j <==> BlankBetween(s, i, j)
  {}

  /** The quoted name is at p and names a string: a colon follows, and then a quote at `open`. */
  ghost predicate NamesString(buf: Bytes, field: Bytes, p: nat, colon: nat, open: nat) {
    && At(buf, Quoted(field), p) && colon < open < |buf|
    && BlankBetween(buf, p + |Quoted(field)|, colon) && buf[colon] == COLON
    && BlankBetween(buf, colon + 1, open) && buf[open] == QUOTE
  }

  /**
   * The first occurrence of the quoted name decides, wherever it is: reading starts behind a quote
   * if and only if that occurrence names a string that opens there.
   */
  lemma {:induction false} FirstOccurrenceDecides(buf: Bytes, field: Bytes, p: nat, open: nat)
    requires Find(buf, Quoted(field), 0) == Some(p)
    ensures ValueStart(buf, field) == Some(open + 1) <==> exists colon: nat :: NamesString(buf, field, p, colon, open)
  {
    var i := p + |Quoted(field)|;
    hide Find, Quoted, SkipBlanks, BlankBetween, Blank;
    if ValueStart(buf, field) == Some(open + 1) {
      var colon := SkipBlanks(buf, i);
      StopsAt(buf, i);
      StopsAt(buf, colon + 1);
      assert NamesString(buf, field, p, colon, open);
    }
    if colon: nat :| NamesString(buf, field, p, colon, open) {
      MarksAreNotBlank();
      SkipsTo(buf, i, colon);
      SkipsTo(buf, colon + 1, open);
    }
  }

  lemma {:induction false} StopsAt(s: Bytes, i: nat)
    requires i <= |s|
    ensures BlankBetween(s, i, SkipBlanks(s, i))
  {}

  lemma {:induction false} MarksAreNotBlank()
    ensures !Blank(COLON) && !Blank(QUOTE)
  {}

  lemma {:induction false} MemberIsNamed(
      before: Bytes, field: Bytes, gap: Bytes, gap': Bytes, ps: seq<Piece>, after: Bytes)
    requires AllBlank(gap) && AllBlank(gap')
    ensures var doc := Document(before, field, gap, gap', ps, after);
            var colon := |before| + |Quoted(field)| + |gap|;
            At(doc, Quoted(field), |before|) && NamesString(doc, field, |before|, colon, colon + 1 + |gap'|)
  {
    hide Texts;
    var doc := Document(before, field, gap, gap', ps, after);
    var i := |before| + |Quoted(field)|;
    var colon := i + |gap|;
    assert doc[|before|..i] == Quoted(field);
    assert forall k :: i <= k < colon ==> doc[k] == gap[k - i];
    assert forall k :: colon + 1 <= k < colon + 1 + |gap'| ==> doc[k] == gap'[k - colon - 1];
  }

  /** No occurrence before a member's name leads to the member's value: its closing quote is in between. */
  lemma {:induction false} EarlierLeadsElsewhere(buf: Bytes, field: Bytes, p: nat, q: nat, colon: nat, open: nat)
    requires p < q && At(buf, Quoted(field), q) && q + |Quoted(field)| <= open
    ensures !NamesString(buf, field, p, colon, open)
  {
    var z := q + |Quoted(field)| - 1;
    assert buf[q..q + |Quoted(field)|][z - q] == QUOTE;
    assert buf[z] == QUOTE;
  }

  /** The decoder reads the value of a member if and only if the quoted name occurs nowhere before it. */
  lemma {:induction false} ReadsMemberExactly(
      before: Bytes, field: Bytes, gap: Bytes, gap': Bytes, ps: seq<Piece>, after: Bytes)
    requires AllBlank(gap) && AllBlank(gap')
    ensures var doc := Document(before, field, gap, gap', ps, after);
            ValueStart(doc, field) == Some(|before| + |Quoted(field)| + |gap| + |gap'| + 2) <==>
              Find(doc, Quoted(field), 0) == Some(|before|)
  {
    var doc := Document(before, field, gap, gap', ps, after);
    var open := |before| + |Quoted(field)| + |gap| + 1 + |gap'|;
    MemberIsNamed(before, field, gap, gap', ps, after);
    hide Document, At, NamesString, Quoted;
    var found := Find(doc, Quoted(field), 0);
    assert found.Some? && found.value <= |before|;
    FirstOccurrenceDecides(doc, field, found.value, open);
    if found.value < |before| {
      forall colon: nat ensures !NamesString(doc, field, found.value, colon, open) {
        EarlierLeadsElsewhere(doc, field, found.value, |before|, colon, open);
      }
    }
  }

  /** A document in which the quoted name first occurs as anything but a name shows nothing. */
  lemma {:induction false} NotAName(before: Bytes, field: Bytes, gap: Bytes, c: Byte, rest: Bytes)
    requires AllBlank(gap) && c !in BLANKS && c != COLON
    requires Find(before + Quoted(field) + gap + [c] + rest, Quoted(field), 0) == Some(|before|)
    ensures Field(before + Quoted(field) + gap + [c] + rest, field) == Decoded([], false)
  {
    var doc := before + Quoted(field) + gap + [c] + rest;
    var i := |before| + |Quoted(field)|;
    assert forall k :: i <= k < i + |gap| ==> doc[k] == gap[k - i];
    assert doc[i + |gap|] == c;
    SkipsTo(doc, i, i + |gap|);
  }

  lemma {:induction false} OccurrenceBegins(s: Bytes, sub: Bytes, j: nat)
    requires |sub| >= 2
    ensures At(s, sub, j) ==> s[j] == sub[0] && s[j + 1] == sub[1]
  {
    if At(s, sub, j) {
      assert s[j..j + |sub|][0] == sub[0] && s[j..j + |sub|][1] == sub[1];
    }
  }

  lemma {:induction false} NoOccurrenceBefore(s: Bytes, sub: Bytes, p: nat)
    requires |sub| >= 2 && At(s, sub, p)
    requires forall j :: 0 <= j < p ==> s[j] != sub[0] || s[j + 1] != sub[1]
    ensures Find(s, sub, 0) == Some(p)
  {
    forall j: nat | j < p ensures !At(s, sub, j) {
      OccurrenceBegins(s, sub, j);
    }
  }

  const THOUGHT: Bytes := Ascii("{\"thought\":")

  const REPLY: Bytes := Ascii("reply")

  /** {"thought":"reply","reply":"x"} */
  const ECHO: Bytes := THOUGHT + Quoted(REPLY) + [] + [0x2C] + Ascii("\"reply\":\"x\"}")

  /** A whole document whose field is never found, because another value spells its name. */
  lemma {:induction false} EchoHidesField()
    ensures Field(ECHO, REPLY) == Decoded([], false)
  {
    EchoShape();
    NoOccurrenceBefore(ECHO, Quoted(REPLY), |THOUGHT|);
    NotAName(THOUGHT, REPLY, [], 0x2C, Ascii("\"reply\":\"x\"}"));
  }

  lemma {:induction false} EchoShape()
    ensures At(ECHO, Quoted(REPLY), |THOUGHT|)
    ensures forall j :: 0 <= j < |THOUGHT| ==> ECHO[j] != Quoted(REPLY)[0] || ECHO[j + 1] != Quoted(REPLY)[1]
  {
    assert ECHO[|THOUGHT|..|THOUGHT| + |Quoted(REPLY)|] == Quoted(REPLY);
    assert Quoted(REPLY)[0] == QUOTE && Quoted(REPLY)[1] == 0x72;
    ThoughtShape();
  }

  lemma {:induction false} ThoughtShape()
    ensures forall j :: 0 <= j < |THOUGHT| - 1 ==> THOUGHT[j] != QUOTE || THOUGHT[j + 1] != 0x72
    ensures THOUGHT[|THOUGHT| - 1] == COLON
  {}

  // ------------------------------------------------------------------ holding back the tail

  const SECRET_PREFIXES: seq<Bytes> := [
    Ascii("authorization"), Ascii("bearer"), Ascii("basic"), Ascii("api key"), Ascii("api_key"), Ascii("api-key"),
    Ascii("apikey"), Ascii("password"), Ascii("passwd"), Ascii("secret"), Ascii("cookie"), Ascii("token"),
    Ascii("eyj"), Ascii("sk-"), Ascii("ghp_"), Ascii("gho_"), Ascii("akia"), Ascii("-----begin"), Ascii("http"),
    Ascii("postgres"), Ascii("mysql"), Ascii("mongodb"), Ascii("redis"), Ascii("amqp"), Ascii("://")
  ]

  /** Lower-casing, on ASCII letters. */
  function Fold(s: Bytes): Bytes {
    seq(|s|, i requires 0 <= i < |s| => if 0x41 <= s[i] <= 0x5A then s[i] + 32 else s[i])
  }

  /** The same text without capital letters. */
  ghost predicate Lowered(s: Bytes, lower: Bytes) {
    && |lower| == |s|
    && forall i :: 0 <= i < |s| ==>
         && !(0x41 <= lower[i] <= 0x5A)
         && (lower[i] == s[i] || (0x41 <= s[i] <= 0x5A && lower[i] == s[i] + 0x20))
  }

  lemma {:induction false} FoldMeans(s: Bytes)
    ensures Lowered(s, Fold(s))
  {}

  /** A trigger occurs at j, or the text from j on is the beginning of one. */
  predicate TriggerAt(text: Bytes, p: Bytes, j: nat) {
    j <= |text| && (p <= text[j..] || (j < |text| && text[j..] < p))
  }

  predicate Suspect(text: Bytes, triggers: seq<Bytes>, j: nat) {
    exists k :: 0 <= k < |triggers| && TriggerAt(text, triggers[k], j)
  }

  /** The least suspect position, or the length of the text. */
  function Hold(text: Bytes, triggers: seq<Bytes>, from: nat := 0): (cut: nat)
    requires from <= |text|
    ensures from <= cut <= |text|
    ensures forall j :: from <= j < cut ==> !Suspect(text, triggers, j)
    ensures cut < |text| ==> Suspect(text, triggers, cut)
    decreases |text| - from
  {
    if from == |text| || Suspect(text, triggers, from) then from else Hold(text, triggers, from + 1)
  }

  /** A trigger, or the unfinished beginning of one that the text breaks off in. */
  ghost predicate Begun(rest: Bytes, p: Bytes) {
    p <= rest || (rest != [] && rest < p)
  }

  /** The cut is the first position at which some trigger has begun, or the end of the text. */
  lemma {:induction false} HoldMeans(text: Bytes, triggers: seq<Bytes>)
    ensures var cut := Hold(text, triggers);
            && (forall j, p :: 0 <= j < cut && p in triggers ==> !Begun(text[j..], p))
            && (cut < |text| ==> exists p :: p in triggers && Begun(text[cut..], p))
  {
    var cut := Hold(text, triggers);
    forall j, p | 0 <= j < cut && p in triggers ensures !Begun(text[j..], p) {
      var k :| 0 <= k < |triggers| && triggers[k] == p;
      assert !Suspect(text, triggers, j) && !TriggerAt(text, triggers[k], j);
    }
    if cut < |text| {
      var k :| 0 <= k < |triggers| && TriggerAt(text, triggers[k], cut);
      assert triggers[k] in triggers;
    }
  }

  /** The least suspect position for the triggers before k. */
  ghost predicate CutFor(text: Bytes, triggers: seq<Bytes>, k: nat, cut: nat)
    requires k <= |triggers|
  {
    && cut <= |text|
    && (forall i, j :: 0 <= i < k && 0 <= j < cut ==> !TriggerAt(text, triggers[i], j))
    && (cut < |text| ==> exists i :: 0 <= i < k && TriggerAt(text, triggers[i], cut))
  }

  method HoldFrom(s: Bytes, triggers: seq<Bytes>) returns (cut: nat)
    ensures cut == Hold(Fold(s), triggers)
    ensures Lowered(s, Fold(s)) && cut <= |s|
    ensures forall j, p :: 0 <= j < cut && p in triggers ==> !Begun(Fold(s)[j..], p)
    ensures cut < |s| ==> exists p :: p in triggers && Begun(Fold(s)[cut..], p)
  {
    FoldMeans(s);
    HoldMeans(Fold(s), triggers);
    var lower := Fold(s);
    cut := |s|;
    for k := 0 to |triggers|
      invariant CutFor(lower, triggers, k, cut)
    {
      ghost var before := cut;
      var whole := Index(lower, triggers[k]);
      if whole.Some? && whole.value < cut {
        cut := whole.value;
      }
      var half := HalfWritten(lower, triggers[k]);
      if half < cut {
        cut := half;
      }
      NextCut(lower, triggers, k, before, whole, half, cut);
    }
    CutIsHold(lower, triggers, cut);
  }

  /** Where the longest unfinished trigger at the end of the text begins. */
  method HalfWritten(lower: Bytes, p: Bytes) returns (half: nat)
    ensures half <= |lower|
    ensures forall j :: 0 <= j < half ==> !(lower[j..] < p)
    ensures half < |lower| ==> lower[half..] < p
  {
    var n: int := if |p| - 1 < |lower| then |p| - 1 else |lower|;
    while n > 0
      invariant n <= |lower| && (n > 0 ==> n < |p|)
      invariant forall j :: 0 <= j < |lower| && |lower| - j > n ==> !(lower[j..] < p)
    {
      if lower[|lower| - n..] == p[..n] {
        return |lower| - n;
      }
      SuffixOnly(lower, p, n);
      n := n - 1;
    }
    return |lower|;
  }

  lemma {:induction false} OccurrenceIsPrefix(text: Bytes, p: Bytes)
    ensures forall j: nat :: j <= |text| ==> (At(text, p, j) <==> p <= text[j..])
  {
    forall j: nat | j <= |text| ensures At(text, p, j) <==> p <= text[j..] {
      if j + |p| <= |text| {
        assert text[j..][..|p|] == text[j..j + |p|];
      }
    }
  }

  lemma {:induction false} SuffixOnly(text: Bytes, p: Bytes, n: nat)
    requires 0 < n <= |text| && n <= |p| && text[|text| - n..] != p[..n]
    ensures !(text[|text| - n..] < p)
  {
    var suffix := text[|text| - n..];
    assert |suffix| == n && p[..|suffix|] != suffix;
  }

  lemma {:induction false} NextCut(
      text: Bytes, triggers: seq<Bytes>, k: nat, before: nat, whole: Option<nat>, half: nat, cut: nat)
    requires k < |triggers| && CutFor(text, triggers, k, before)
    requires whole == Find(text, triggers[k], 0)
    requires half <= |text|
    requires forall j :: 0 <= j < half ==> !(text[j..] < triggers[k])
    requires half < |text| ==> text[half..] < triggers[k]
    requires var c := if whole.Some? && whole.value < before then whole.value else before;
             cut == if half < c then half else c
    ensures CutFor(text, triggers, k + 1, cut)
  {
    OccurrenceIsPrefix(text, triggers[k]);
    forall i, j | 0 <= i < k + 1 && 0 <= j < cut ensures !TriggerAt(text, triggers[i], j) {
      if i == k {
        assert !At(text, triggers[k], j);
      }
    }
    if cut < |text| {
      if cut == before {
        var i :| 0 <= i < k && TriggerAt(text, triggers[i], cut);
      } else {
        assert TriggerAt(text, triggers[k], cut);
      }
    }
  }

  lemma {:induction false} CutIsHold(text: Bytes, triggers: seq<Bytes>, cut: nat)
    requires CutFor(text, triggers, |triggers|, cut)
    ensures cut == Hold(text, triggers)
  {
    var h := Hold(text, triggers);
    assert cut < |text| ==> Suspect(text, triggers, cut);
    assert forall j: nat :: j < cut ==> !Suspect(text, triggers, j);
  }

  /** Suspicion about a position of the text is never new: it was suspect when the text was shorter. */
  lemma {:induction false} SuspectBefore(s: Bytes, t: Bytes, triggers: seq<Bytes>, j: nat)
    requires j < |s| && Suspect(s + t, triggers, j)
    ensures Suspect(s, triggers, j)
  {
    var k :| 0 <= k < |triggers| && TriggerAt(s + t, triggers[k], j);
    var p := triggers[k];
    assert (s + t)[j..] == s[j..] + t;
    if p <= s[j..] + t {
      if |p| <= |s[j..]| {
        assert p == (s[j..] + t)[..|p|] == s[j..][..|p|];
      } else {
        assert p[..|s[j..]|] == (s[j..] + t)[..|s[j..]|] == s[j..];
      }
    }
    assert TriggerAt(s, p, j);
  }

  lemma {:induction false} FoldOfSum(s: Bytes, t: Bytes)
    ensures Fold(s + t) == Fold(s) + Fold(t)
  {}

  /**
   * The cut never moves left as the text grows, so no extension completes a trigger that starts
   * before it.
   */
  lemma {:induction false} HoldMonotone(s: Bytes, t: Bytes, triggers: seq<Bytes>)
    ensures Hold(Fold(s), triggers) <= Hold(Fold(s + t), triggers)
    ensures forall k, j: nat :: 0 <= k < |triggers| && At(Fold(s + t), triggers[k], j) ==> Hold(Fold(s), triggers) <= j
  {
    FoldOfSum(s, t);
    var text := Fold(s) + Fold(t);
    var h := Hold(text, triggers);
    if h < |s| {
      SuspectBefore(Fold(s), Fold(t), triggers, h);
    }
    forall k, j: nat | 0 <= k < |triggers| && At(text, triggers[k], j) ensures h <= j {
      OccurrenceIsPrefix(text, triggers[k]);
      assert TriggerAt(text, triggers[k], j);
      assert Suspect(text, triggers, j);
    }
  }

  lemma {:induction false} LongestValidGrows(a: Bytes, b: Bytes)
    requires a <= b
    ensures LongestValid(a) <= LongestValid(b)
  {
    hide Valid;
    var v := LongestValid(a);
    assert v == b[..|v|];
  }

  // ------------------------------------------------------------------ the stream of increments

  /** What may be shown of the field once `buf` has arrived. */
  function Shown(redact: Bytes -> Bytes, triggers: seq<Bytes>, field: Bytes, buf: Bytes): Bytes {
    var d := Field(buf, field);
    var visible := redact(d.value);
    if d.complete then visible else LongestValid(visible[..Hold(Fold(visible), triggers)])
  }

  /** The text sent so far, after one more look at the buffer. */
  function Sent(redact: Bytes -> Bytes, triggers: seq<Bytes>, field: Bytes, sent: Bytes, buf: Bytes): (r: Bytes)
    ensures sent <= r
  {
    var shown := Shown(redact, triggers, field, buf);
    if Field(buf, field).value == [] || !(sent < shown) then sent else shown
  }

  class FieldStream {
    const field: Bytes
    var sent: Bytes

    constructor (field: Bytes)
      ensures this.field == field && sent == []
    {
      this.field := field;
      sent := [];
    }

    /** The part of the field that has become visible since the last call. */
    method Next(redact: Bytes -> Bytes, buf: Bytes) returns (out: Bytes)
      modifies this
      ensures sent == Sent(redact, SECRET_PREFIXES, field, old(sent), buf)
      ensures old(sent) + out == sent
    {
      var value, complete := JsonStringField(buf, field);
      if value == [] {
        return [];
      }
      var visible := redact(value);
      if !complete {
        var cut := HoldFrom(visible, SECRET_PREFIXES);
        visible := TrimToValid(visible[..cut]);
      }
      if |visible| <= |sent| || !(sent <= visible) {
        return [];
      }
      out := visible[|sent|..];
      sent := visible;
    }
  }

  /** The text sent after looking at each buffer in turn. */
  function SentAll(redact: Bytes -> Bytes, triggers: seq<Bytes>, field: Bytes, bufs: seq<Bytes>): Bytes {
    if bufs == [] then [] else
      var n := |bufs| - 1;
      Sent(redact, triggers, field, SentAll(redact, triggers, field, bufs[..n]), bufs[n])
  }

  /** What the last look emitted. */
  function Emitted(redact: Bytes -> Bytes, triggers: seq<Bytes>, field: Bytes, bufs: seq<Bytes>): Bytes
    requires bufs != []
  {
    SentAll(redact, triggers, field, bufs)[|SentAll(redact, triggers, field, bufs[..|bufs| - 1])|..]
  }

  function AllEmitted(redact: Bytes -> Bytes, triggers: seq<Bytes>, field: Bytes, bufs: seq<Bytes>): Bytes {
    if bufs == [] then [] else
      AllEmitted(redact, triggers, field, bufs[..|bufs| - 1]) + Emitted(redact, triggers, field, bufs)
  }

  lemma {:induction false} EmissionsAddUp(redact: Bytes -> Bytes, triggers: seq<Bytes>, field: Bytes, bufs: seq<Bytes>)
    ensures AllEmitted(redact, triggers, field, bufs) == SentAll(redact, triggers, field, bufs)
    decreases |bufs|
  {
    if bufs != [] {
      EmissionsAddUp(redact, triggers, field, bufs[..|bufs| - 1]);
    }
  }

  ghost predicate Growing(bufs: seq<Bytes>) {
    forall i, j :: 0 <= i <= j < |bufs| ==> bufs[i] <= bufs[j]
  }

  /** Redaction leaves the field's value alone at every look. */
  ghost predicate NothingRedacted(redact: Bytes -> Bytes, field: Bytes, bufs: seq<Bytes>) {
    forall i :: 0 <= i < |bufs| ==> redact(Field(bufs[i], field).value) == Field(bufs[i], field).value
  }

  lemma {:induction false} ValueGrows(a: Bytes, b: Bytes, field: Bytes)
    requires a <= b
    ensures Field(a, field).value <= Field(b, field).value
    ensures Field(a, field).complete ==> Field(b, field) == Field(a, field)
  {
    assert b == a + b[|a|..];
    PrefixMonotone(a, b[|a|..], field);
  }

  /** Nothing is ever sent that the value at the last look does not begin with. */
  lemma {:induction false} SentIsPrefix(
      redact: Bytes -> Bytes, triggers: seq<Bytes>, field: Bytes, bufs: seq<Bytes>, last: Bytes)
    requires Growing(bufs) && NothingRedacted(redact, field, bufs)
    requires forall i :: 0 <= i < |bufs| ==> bufs[i] <= last
    ensures SentAll(redact, triggers, field, bufs) <= Field(last, field).value
    decreases |bufs|
  {
    if bufs != [] {
      var n := |bufs| - 1;
      SentIsPrefix(redact, triggers, field, bufs[..n], last);
      ValueGrows(bufs[n], last, field);
      ShownIsPrefix(redact, triggers, field, bufs[n]);
    }
  }

  lemma {:induction false} ShownIsPrefix(redact: Bytes -> Bytes, triggers: seq<Bytes>, field: Bytes, buf: Bytes)
    requires redact(Field(buf, field).value) == Field(buf, field).value
    ensures Shown(redact, triggers, field, buf) <= Field(buf, field).value
  {
    var value := Field(buf, field).value;
    var held := value[..Hold(Fold(value), triggers)];
    assert LongestValid(held) <= held <= value;
  }

  /**
   * Once the field is complete the increments concatenate to its redacted value if and only if what
   * was sent before is the beginning of it, or all of it when the field is empty.
   */
  lemma {:induction false} LosslessExactly(redact: Bytes -> Bytes, triggers: seq<Bytes>, field: Bytes, bufs: seq<Bytes>)
    requires bufs != [] && Field(bufs[|bufs| - 1], field).complete
    ensures var value := Field(bufs[|bufs| - 1], field).value;
            var before := SentAll(redact, triggers, field, bufs[..|bufs| - 1]);
            AllEmitted(redact, triggers, field, bufs) == redact(value) <==>
              if value == [] then before == redact(value) else before <= redact(value)
  {
    EmissionsAddUp(redact, triggers, field, bufs);
  }

  lemma {:induction false} SentWithin(
      redact: Bytes -> Bytes, triggers: seq<Bytes>, field: Bytes, bufs: seq<Bytes>, last: Bytes)
    requires forall i :: 0 <= i < |bufs| ==> Shown(redact, triggers, field, bufs[i]) <= last
    ensures SentAll(redact, triggers, field, bufs) <= last
    decreases |bufs|
  {
    hide Shown, Field;
    if bufs != [] {
      var n := |bufs| - 1;
      assert forall i :: 0 <= i < n ==> bufs[..n][i] == bufs[i];
      SentWithin(redact, triggers, field, bufs[..n], last);
    }
  }

  /**
   * Lossless under redaction: if no look showed anything the redacted value does not begin with, the
   * increments concatenate to exactly the redacted value.
   */
  lemma {:induction false} RedactedLossless(
      redact: Bytes -> Bytes, triggers: seq<Bytes>, field: Bytes, bufs: seq<Bytes>)
    requires bufs != [] && Field(bufs[|bufs| - 1], field).complete && Field(bufs[|bufs| - 1], field).value != []
    requires forall i :: 0 <= i < |bufs| - 1 ==>
               Shown(redact, triggers, field, bufs[i]) <= redact(Field(bufs[|bufs| - 1], field).value)
    ensures AllEmitted(redact, triggers, field, bufs) == redact(Field(bufs[|bufs| - 1], field).value)
  {
    var n := |bufs| - 1;
    assert forall i :: 0 <= i < n ==> bufs[..n][i] == bufs[i];
    SentWithin(redact, triggers, field, bufs[..n], redact(Field(bufs[n], field).value));
    LosslessExactly(redact, triggers, field, bufs);
  }

  /**
   * Lossless: however the document was cut into buffers, once the field is complete the
   * increments concatenate to exactly its value.
   */
  lemma {:induction false} Lossless(redact: Bytes -> Bytes, triggers: seq<Bytes>, field: Bytes, bufs: seq<Bytes>)
    requires bufs != [] && Growing(bufs) && NothingRedacted(redact, field, bufs)
    requires Field(bufs[|bufs| - 1], field).complete
    ensures AllEmitted(redact, triggers, field, bufs) == Field(bufs[|bufs| - 1], field).value
  {
    EmissionsAddUp(redact, triggers, field, bufs);
    var n := |bufs| - 1;
    SentIsPrefix(redact, triggers, field, bufs[..n], bufs[n]);
    assert Shown(redact, triggers, field, bufs[n]) == Field(bufs[n], field).value;
  }

  lemma {:induction false} ShownGrows(redact: Bytes -> Bytes, triggers: seq<Bytes>, field: Bytes, a: Bytes, b: Bytes)
    requires a <= b
    requires redact(Field(a, field).value) == Field(a, field).value
        && redact(Field(b, field).value) == Field(b, field).value
    ensures Shown(redact, triggers, field, a) <= Shown(redact, triggers, field, b)
  {
    ValueGrows(a, b, field);
    hide Field, Hold, Fold;
    var v, w := Field(a, field).value, Field(b, field).value;
    if !Field(a, field).complete {
      var held := v[..Hold(Fold(v), triggers)];
      assert LongestValid(held) <= held <= w;
      if !Field(b, field).complete {
        assert w == v + w[|v|..];
        HoldMonotone(v, w[|v|..], triggers);
        LongestValidGrows(held, w[..Hold(Fold(w), triggers)]);
      }
    }
  }

  /**
   * Prompt: after every look exactly the whole characters before the first trigger have been sent,
   * and all of the value once it is complete.
   */
  lemma {:induction false} SentExactly(
      redact: Bytes -> Bytes, triggers: seq<Bytes>, field: Bytes, bufs: seq<Bytes>)
    requires bufs != [] && Growing(bufs) && NothingRedacted(redact, field, bufs)
    ensures var d := Field(bufs[|bufs| - 1], field);
            SentAll(redact, triggers, field, bufs) ==
              if d.complete then d.value else LongestValid(d.value[..Hold(Fold(d.value), triggers)])
    decreases |bufs|
  {
    var n := |bufs| - 1;
    SentIsShown(redact, triggers, field, bufs);
    assert redact(Field(bufs[n], field).value) == Field(bufs[n], field).value;
    hide Field, Hold, Fold, LongestValid;
  }

  lemma {:induction false} SentIsShown(
      redact: Bytes -> Bytes, triggers: seq<Bytes>, field: Bytes, bufs: seq<Bytes>)
    requires bufs != [] && Growing(bufs) && NothingRedacted(redact, field, bufs)
    ensures SentAll(redact, triggers, field, bufs) == Shown(redact, triggers, field, bufs[|bufs| - 1])
    decreases |bufs|
  {
    hide Field, Shown;
    var n := |bufs| - 1;
    assert forall i :: 0 <= i < n ==> bufs[..n][i] == bufs[i];
    if n > 0 {
      SentIsShown(redact, triggers, field, bufs[..n]);
      ShownGrows(redact, triggers, field, bufs[n - 1], bufs[n]);
    }
    ShowsNothingOfNothing(redact, triggers, field, bufs[n]);
  }

  lemma {:induction false} ShowsNothingOfNothing(redact: Bytes -> Bytes, triggers: seq<Bytes>, field: Bytes, buf: Bytes)
    requires redact(Field(buf, field).value) == Field(buf, field).value
    ensures Field(buf, field).value == [] ==> Shown(redact, triggers, field, buf) == []
  {
    hide Field;
  }

  /** What one look at an open field shows ends before the first trigger of whatever text it grows into. */
  lemma {:induction false} LookHoldsBack(
      redact: Bytes -> Bytes, triggers: seq<Bytes>, field: Bytes, buf: Bytes, last: Bytes)
    requires !Field(buf, field).complete && redact(Field(buf, field).value) <= last
    ensures Shown(redact, triggers, field, buf) <= last
    ensures |Shown(redact, triggers, field, buf)| <= Hold(Fold(last), triggers)
  {
    var visible := redact(Field(buf, field).value);
    assert last == visible + last[|visible|..];
    HoldMonotone(visible, last[|visible|..], triggers);
    assert LongestValid(visible[..Hold(Fold(visible), triggers)]) <= visible;
  }

  /**
   * Hold-back under redaction: while the field is open and its redacted text only grows, nothing at
   * or after the first trigger of any redacted text it may still become has been sent.
   */
  lemma {:induction false} RedactedHeldBack(
      redact: Bytes -> Bytes, triggers: seq<Bytes>, field: Bytes, bufs: seq<Bytes>, last: Bytes)
    requires forall i :: 0 <= i < |bufs| ==>
               !Field(bufs[i], field).complete && redact(Field(bufs[i], field).value) <= last
    ensures SentAll(redact, triggers, field, bufs) <= last
    ensures |SentAll(redact, triggers, field, bufs)| <= Hold(Fold(last), triggers)
    decreases |bufs|
  {
    hide Shown, Field, Hold, Fold;
    if bufs != [] {
      var n := |bufs| - 1;
      assert forall i :: 0 <= i < n ==> bufs[..n][i] == bufs[i];
      RedactedHeldBack(redact, triggers, field, bufs[..n], last);
      LookHoldsBack(redact, triggers, field, bufs[n], last);
    }
  }

  /**
   * Hold-back: while the field is open and redaction leaves its value alone, nothing at or after the
   * first trigger of any text it may still become has been sent.
   */
  lemma {:induction false} HeldBack(
      redact: Bytes -> Bytes, triggers: seq<Bytes>, field: Bytes, bufs: seq<Bytes>, last: Bytes)
    requires Growing(bufs) && NothingRedacted(redact, field, bufs)
    requires forall i :: 0 <= i < |bufs| ==> bufs[i] <= last && !Field(bufs[i], field).complete
    ensures |SentAll(redact, triggers, field, bufs)| <= Hold(Fold(Field(last, field).value), triggers)
  {
    hide Field, Hold;
    forall i | 0 <= i < |bufs| ensures redact(Field(bufs[i], field).value) <= Field(last, field).value {
      ValueGrows(bufs[i], last, field);
    }
    RedactedHeldBack(redact, triggers, field, bufs, Field(last, field).value);
  }

  lemma {:induction false} ShownIsValid(redact: Bytes -> Bytes, triggers: seq<Bytes>, field: Bytes, buf: Bytes)
    requires Field(buf, field).complete ==> Valid(redact(Field(buf, field).value))
    ensures Valid(Shown(redact, triggers, field, buf))
  {
    hide Field, Hold, Suspect, CharLength, Fold, Valid;
  }

  /** One look sends a whole number of characters. */
  lemma {:induction false} SentIsValid(
      redact: Bytes -> Bytes, triggers: seq<Bytes>, field: Bytes, sent: Bytes, buf: Bytes)
    requires Valid(sent) && (Field(buf, field).complete ==> Valid(redact(Field(buf, field).value)))
    ensures var after := Sent(redact, triggers, field, sent, buf); Valid(after) && Valid(after[|sent|..])
  {
    ShownIsValid(redact, triggers, field, buf);
    hide Field, Shown, Valid;
    var after := Sent(redact, triggers, field, sent, buf);
    assert after == sent + after[|sent|..];
    ValidAfter(sent, after[|sent|..]);
  }

  /**
   * No increment cuts a character in half, whatever redaction does, provided the text it leaves
   * of a finished field is itself valid.
   */
  lemma {:induction false} IncrementsAreValid(
      redact: Bytes -> Bytes, triggers: seq<Bytes>, field: Bytes, bufs: seq<Bytes>)
    requires bufs != []
    requires forall i :: 0 <= i < |bufs| && Field(bufs[i], field).complete ==>
        Valid(redact(Field(bufs[i], field).value))
    ensures Valid(SentAll(redact, triggers, field, bufs))
    ensures Valid(Emitted(redact, triggers, field, bufs))
    decreases |bufs|
  {
    assert Valid([]);
    hide Field, Sent, Valid;
    var n := |bufs| - 1;
    if n > 0 {
      IncrementsAreValid(redact, triggers, field, bufs[..n]);
    }
    SentIsValid(redact, triggers, field, SentAll(redact, triggers, field, bufs[..n]), bufs[n]);
  }
}
