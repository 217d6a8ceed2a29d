/** Text as the source language has it, sequences of UTF-16 code units, and the scalar forms of JSON. */
module JsonText {
  import opened Wrappers

  type Unit = u: int | 0 <= u < 0x10000
  type Text = seq<Unit>

  const QUOTE: Unit := 0x22
  const BACKSLASH: Unit := 0x5c
  const COMMA: Unit := 0x2c
  const COLON: Unit := 0x3a
  const MINUS: Unit := 0x2d
  const ZERO: Unit := 0x30
  const OPEN_BRACKET: Unit := 0x5b
  const CLOSE_BRACKET: Unit := 0x5d
  const OPEN_BRACE: Unit := 0x7b
  const CLOSE_BRACE: Unit := 0x7d
  const LETTER_A: Unit := 0x61
  const LETTER_B: Unit := 0x62
  const LETTER_F: Unit := 0x66
  const LETTER_N: Unit := 0x6e
  const LETTER_R: Unit := 0x72
  const LETTER_T: Unit := 0x74
  const LETTER_U: Unit := 0x75

  // ---- decimal integers

  predicate IsDigit(u: Unit) {
    ZERO <= u <= ZERO + 9
  }

  function Digits(n: nat): (t: Text)
    ensures t != [] && forall i | 0 <= i < |t| :: IsDigit(t[i])
  {
    if n < 10 then [ZERO + n] else Digits(n / 10) + [ZERO + n % 10]
  }

  function Decimal(n: int): (t: Text)
    ensures t != [] && (IsDigit(t[0]) || t[0] == MINUS)
  {
    if n < 0 then [MINUS] + Digits(-n) else Digits(n)
  }

  datatype Scanned<+T> = Scanned(value: T, rest: Text)

  /** Reads digits as far as they go. */
  function ScanDigits(t: Text, sofar: nat): (r: Scanned<nat>)
    ensures |r.rest| <= |t|
    decreases |t|
  {
    if t != [] && IsDigit(t[0]) then ScanDigits(t[1..], sofar * 10 + (t[0] - ZERO)) else Scanned(sofar, t)
  }

  function ScanDecimal(t: Text): (r: Option<Scanned<int>>)
    ensures r.Some? ==> |r.value.rest| < |t|
  {
    if t == [] then None
    else if t[0] == MINUS then
      if |t| > 1 && IsDigit(t[1]) then
        var s := ScanDigits(t[2..], t[1] - ZERO);
        Some(Scanned(0 - s.value, s.rest))
      else None
    else if IsDigit(t[0]) then
      var s := ScanDigits(t[1..], t[0] - ZERO);
      Some(Scanned(s.value, s.rest))
    else None
  }

  lemma {:induction false} DigitsScan(n: nat, rest: Text)
    ensures ScanDigits(Digits(n) + rest, 0) == ScanDigits(rest, n)
    decreases n
  {
    if n < 10 {
      assert (Digits(n) + rest)[1..] == rest;
    } else {
      var last: Text := [ZERO + n % 10];
      DigitsScan(n / 10, last + rest);
      assert Digits(n) + rest == Digits(n / 10) + (last + rest);
      assert (last + rest)[1..] == rest;
    }
  }

  predicate EndsScalar(rest: Text) {
    rest == [] || !IsDigit(rest[0])
  }

  lemma DigitsScanFromFirst(n: nat, rest: Text)
    requires EndsScalar(rest)
    ensures
      var t := Digits(n) + rest;
      IsDigit(t[0]) && ScanDigits(t[1..], t[0] - ZERO) == Scanned(n, rest)
  {
    DigitsScan(n, rest);
    var t := Digits(n) + rest;
    assert t[0] == Digits(n)[0];
    assert ScanDigits(t, 0) == ScanDigits(t[1..], t[0] - ZERO);
  }

  lemma MinusScans(n: int, t: Text, rest: Text)
    requires n < 0 && t != [] && IsDigit(t[0]) && ScanDigits(t[1..], t[0] - ZERO) == Scanned(-n, rest)
    ensures ScanDecimal([MINUS] + t) == Some(Scanned(n, rest))
  {
    assert ([MINUS] + t)[2..] == t[1..];
  }

  lemma DecimalScans(n: int, rest: Text)
    requires EndsScalar(rest)
    ensures ScanDecimal(Decimal(n) + rest) == Some(Scanned(n, rest))
  {
    if n < 0 {
      DigitsScanFromFirst(-n, rest);
      Assoc([MINUS], Digits(-n), rest);
      MinusScans(n, Digits(-n) + rest, rest);
    } else {
      DigitsScanFromFirst(n, rest);
    }
  }

  // ---- strings

  predicate IsHighSurrogate(u: Unit) {
    0xd800 <= u < 0xdc00
  }

  predicate IsLowSurrogate(u: Unit) {
    0xdc00 <= u < 0xe000
  }

  function HexDigit(d: nat): Unit
    requires d < 16
  {
    if d < 10 then ZERO + d else LETTER_A + d - 10
  }

  function HexValue(u: Unit): (d: Option<nat>)
    ensures d.Some? ==> d.value < 16
  {
    if IsDigit(u) then Some(u - ZERO)
    else if LETTER_A <= u <= LETTER_F then Some(u - LETTER_A + 10)
    else None
  }

  function UnicodeEscape(u: Unit): Text {
    [BACKSLASH, LETTER_U, HexDigit(u / 4096), HexDigit(u / 256 % 16), HexDigit(u / 16 % 16), HexDigit(u % 16)]
  }

  /** The letter after the backslash of a two-unit escape. */
  function ShortEscape(u: Unit): Option<Unit> {
    if u == QUOTE || u == BACKSLASH then Some(u)
    else if u == 0x08 then Some(LETTER_B)
    else if u == 0x09 then Some(LETTER_T)
    else if u == 0x0a then Some(LETTER_N)
    else if u == 0x0c then Some(LETTER_F)
    else if u == 0x0d then Some(LETTER_R)
    else None
  }

  function ShortUnescape(e: Unit): Option<Unit> {
    if e == QUOTE || e == BACKSLASH then Some(e)
    else if e == LETTER_B then Some(0x08)
    else if e == LETTER_T then Some(0x09)
    else if e == LETTER_N then Some(0x0a)
    else if e == LETTER_F then Some(0x0c)
    else if e == LETTER_R then Some(0x0d)
    else None
  }

  function EscapeUnit(u: Unit): Text {
    if ShortEscape(u).Some? then [BACKSLASH, ShortEscape(u).value]
    else if u < 0x20 || IsHighSurrogate(u) || IsLowSurrogate(u) then UnicodeEscape(u)
    else [u]
  }

  /** Well-formed stringification: surrogate pairs stand as they are, lone surrogates are escaped. */
  function EscapeText(s: Text): Text
    decreases |s|
  {
    if s == [] then []
    else if |s| >= 2 && IsHighSurrogate(s[0]) && IsLowSurrogate(s[1]) then [s[0], s[1]] + EscapeText(s[2..])
    else EscapeUnit(s[0]) + EscapeText(s[1..])
  }

  function Quoted(s: Text): Text {
    [QUOTE] + EscapeText(s) + [QUOTE]
  }

  function ScanHex(t: Text): (r: Option<Unit>)
    requires |t| >= 4
  {
    var a, b, c, d := HexValue(t[0]), HexValue(t[1]), HexValue(t[2]), HexValue(t[3]);
    if a.Some? && b.Some? && c.Some? && d.Some?
    then Some(a.value * 4096 + b.value * 256 + c.value * 16 + d.value) else None
  }

  /** One unit of a string body, escaped or not. */
  function ScanUnit(t: Text): (r: Option<Scanned<Unit>>)
    requires t != []
    ensures r.Some? ==> |r.value.rest| < |t|
  {
    if t[0] != BACKSLASH then Some(Scanned(t[0], t[1..]))
    else if |t| == 1 then None
    else
      var e := t[1];
      if ShortUnescape(e).Some? then Some(Scanned(ShortUnescape(e).value, t[2..]))
      else if e == LETTER_U && |t| >= 6 then
        match ScanHex(t[2..]) {
          case Some(u) => Some(Scanned(u, t[6..]))
          case None => None
        }
      else None
  }

  /** A string body up to its closing quote. */
  function ScanBody(t: Text): (r: Option<Scanned<Text>>)
    ensures r.Some? ==> |r.value.rest| < |t|
    decreases |t|
  {
    if t == [] then None
    else if t[0] == QUOTE then Some(Scanned([], t[1..]))
    else
      match ScanUnit(t)
      case None => None
      case Some(unit) =>
        match ScanBody(unit.rest)
        case None => None
        case Some(body) => Some(Scanned([unit.value] + body.value, body.rest))
  }

  function ScanQuoted(t: Text): (r: Option<Scanned<Text>>)
    ensures r.Some? ==> |r.value.rest| < |t|
  {
    if t == [] || t[0] != QUOTE then None else ScanBody(t[1..])
  }

  lemma HexScans(u: Unit, rest: Text)
    ensures |UnicodeEscape(u) + rest| >= 6
    ensures ScanUnit(UnicodeEscape(u) + rest) == Some(Scanned(u, rest))
  {
    var t := UnicodeEscape(u) + rest;
    assert t[2..][0] == HexDigit(u / 4096) && t[2..][1] == HexDigit(u / 256 % 16);
    assert t[2..][2] == HexDigit(u / 16 % 16) && t[2..][3] == HexDigit(u % 16);
    assert t[6..] == rest;
    HexRecombines(u);
  }

  lemma HexRecombines(u: Unit)
    ensures u / 4096 * 4096 + u / 256 % 16 * 256 + u / 16 % 16 * 16 + u % 16 == u
  {
    assert u / 16 / 16 == u / 256 && u / 256 / 16 == u / 4096;
  }

  lemma UnitScans(u: Unit, rest: Text)
    ensures EscapeUnit(u) != [] && EscapeUnit(u)[0] != QUOTE
    ensures ScanUnit(EscapeUnit(u) + rest) == Some(Scanned(u, rest))
  {
    var t := EscapeUnit(u) + rest;
    if ShortEscape(u).Some? {
      assert t[2..] == rest;
    } else if u < 0x20 || IsHighSurrogate(u) || IsLowSurrogate(u) {
      HexScans(u, rest);
    } else {
      assert t[1..] == rest;
    }
  }

  function Prefixed(u: Unit, body: Option<Scanned<Text>>): Option<Scanned<Text>> {
    match body
    case None => None
    case Some(b) => Some(Scanned([u] + b.value, b.rest))
  }

  lemma EscapedUnitStep(u: Unit, tail: Text)
    ensures ScanBody(EscapeUnit(u) + tail) == Prefixed(u, ScanBody(tail))
  {
    UnitScans(u, tail);
    assert (EscapeUnit(u) + tail)[0] == EscapeUnit(u)[0];
  }

  lemma RawUnitStep(u: Unit, tail: Text)
    requires u != QUOTE && u != BACKSLASH
    ensures ScanBody([u] + tail) == Prefixed(u, ScanBody(tail))
  {
    assert ([u] + tail)[1..] == tail;
  }

  lemma Assoc(a: Text, b: Text, c: Text)
    ensures a + b + c == a + (b + c)
  {
  }

  predicate StartsWithPair(s: Text) {
    |s| >= 2 && IsHighSurrogate(s[0]) && IsLowSurrogate(s[1])
  }

  lemma PairSplits(s: Text, closing: Text)
    requires StartsWithPair(s)
    ensures EscapeText(s) + closing == [s[0]] + ([s[1]] + (EscapeText(s[2..]) + closing))
  {
    var tail := EscapeText(s[2..]);
    Assoc([s[0], s[1]], tail, closing);
    Assoc([s[0]], [s[1]], tail + closing);
  }

  lemma UnitSplits(s: Text, closing: Text)
    requires s != [] && !StartsWithPair(s)
    ensures EscapeText(s) + closing == EscapeUnit(s[0]) + (EscapeText(s[1..]) + closing)
  {
    Assoc(EscapeUnit(s[0]), EscapeText(s[1..]), closing);
  }

  lemma PairScans(s: Text, tail: Text, rest: Text)
    requires StartsWithPair(s) && ScanBody(tail) == Some(Scanned(s[2..], rest))
    ensures ScanBody([s[0]] + ([s[1]] + tail)) == Some(Scanned(s, rest))
  {
    RawUnitStep(s[1], tail);
    RawUnitStep(s[0], [s[1]] + tail);
    assert s == [s[0]] + ([s[1]] + s[2..]);
  }

  lemma {:induction false} BodyScans(s: Text, rest: Text)
    ensures ScanBody(EscapeText(s) + ([QUOTE] + rest)) == Some(Scanned(s, rest))
    decreases |s|
  {
    var closing := [QUOTE] + rest;
    if s == [] {
      assert EscapeText(s) + closing == closing;
      assert closing[1..] == rest;
    } else if StartsWithPair(s) {
      BodyScans(s[2..], rest);
      PairSplits(s, closing);
      PairScans(s, EscapeText(s[2..]) + closing, rest);
    } else {
      BodyScans(s[1..], rest);
      UnitSplits(s, closing);
      EscapedUnitStep(s[0], EscapeText(s[1..]) + closing);
      assert s == [s[0]] + s[1..];
    }
  }

  lemma QuotedScans(s: Text, rest: Text)
    ensures ScanQuoted(Quoted(s) + rest) == Some(Scanned(s, rest))
  {
    BodyScans(s, rest);
    assert (Quoted(s) + rest)[1..] == EscapeText(s) + ([QUOTE] + rest);
  }

  // ---- the default order of strings

  predicate Before(a: Text, b: Text)
    decreases |a|
  {
    if b == [] then false
    else if a == [] then true
    else a[0] < b[0] || (a[0] == b[0] && Before(a[1..], b[1..]))
  }

  lemma {:induction false} BeforeIsStrictOrder(a: Text, b: Text, c: Text)
    ensures !Before(a, a)
    ensures Before(a, b) && Before(b, c) ==> Before(a, c)
    ensures a == b || Before(a, b) || Before(b, a)
    decreases |a|
  {
    if a != [] {
      BeforeIsStrictOrder(a[1..], if b == [] then [] else b[1..], if c == [] then [] else c[1..]);
      if b != [] && a[0] == b[0] && a[1..] == b[1..] {
        assert a == [a[0]] + a[1..] == b;
      }
    }
  }
}
