/** `JSON.parse(JSON.stringify(v, null, gap))` is `v` again, for every value
    and every layout string `gap` made of spaces, tabs and line breaks.

    The proof follows the serializer: each production of the parser is
    stepped once by a small lemma over arbitrary text (so the solver never
    has to unfold a parser function on a long concrete string), and the
    serializer's output is rearranged into the shape the step expects by
    lemmas about the serializer alone. */
module JsonRoundTrip {
  import opened Base
  import opened Json

  /** Characters that may follow a serialized value inside a serialization. */
  predicate IsStop(c: char)
  {
    c == ',' || c == ']' || c == '}' || IsWs(c)
  }

  /** The text after a value ends the number or literal before it. */
  predicate StopsValue(rest: string)
  {
    rest == [] || IsStop(rest[0])
  }

  // ---------------------------------------------------------------------------
  // Sequence facts, each proved on its own so that callers never need
  // extensionality in a large context.

  lemma {:induction false} ConsSplit<T>(s: seq<T>)
    requires s != []
    ensures [s[0]] + s[1..] == s
  {
  }

  lemma {:induction false} LeftUnit(a: string)
    ensures "" + a == a
  {
  }

  lemma {:induction false} StartOf(a: string, b: string)
    requires a != []
    ensures a + b != [] && (a + b)[0] == a[0]
  {
  }

  lemma {:induction false} DropFirst(c: char, x: string)
    ensures ([c] + x)[0] == c && ([c] + x)[1..] == x
  {
  }

  // ---------------------------------------------------------------------------
  // White space and digit runs

  lemma {:induction false} SkipWsOver(w: string, x: string)
    requires AllWs(w)
    requires x == [] || !IsWs(x[0])
    ensures SkipWs(w + x) == x
  {
    if w == [] {
      LeftUnit(x);
    } else {
      assert (w + x)[1..] == w[1..] + x;
      SkipWsOver(w[1..], x);
    }
  }

  lemma {:induction false} DigitRunOver(ds: string, x: string)
    requires AllDigits(ds)
    requires x == [] || !IsDigit(x[0])
    ensures DigitRun(ds + x) == ds
  {
    if ds == [] {
      LeftUnit(x);
    } else {
      assert (ds + x)[1..] == ds[1..] + x;
      DigitRunOver(ds[1..], x);
      ConsSplit(ds);
    }
  }

  // ---------------------------------------------------------------------------
  // Strings

  lemma {:induction false} StringBodyEnd(rest: string)
    ensures StringBody("\"" + rest) == Some(([], rest))
  {
    DropFirst('"', rest);
  }

  lemma {:induction false} StringBodyEscape(s: string, c: char, y: string, str: string, rest: string)
    requires s != [] && s[0] == '\\'
    requires Unescape(s[1..]) == Some((c, y))
    requires StringBody(y) == Some((str, rest))
    ensures StringBody(s) == Some(([c] + str, rest))
  {
  }

  lemma {:induction false} StringBodyPlain(s: string, str: string, rest: string)
    requires s != [] && s[0] != '"' && s[0] != '\\' && s[0] as int >= 0x20
    requires StringBody(s[1..]) == Some((str, rest))
    ensures StringBody(s) == Some(([s[0]] + str, rest))
  {
  }

  /** The two-character escapes read back as the character escaped. */
  lemma {:induction false} ShortEscapeReads(c: char, tail: string)
    requires c == '"' || c == '\\' || c as int == 0x08 || c as int == 0x0C || c == '\n' || c == '\r' || c == '\t'
    ensures var s := EscapeChar(c) + tail; s != [] && s[0] == '\\' && Unescape(s[1..]) == Some((c, tail))
  {
    var s := EscapeChar(c) + tail;
    assert |EscapeChar(c)| == 2 && EscapeChar(c)[0] == '\\';
    assert s[1..][1..] == tail;
  }

  lemma {:induction false} Hex4Of(n: nat, x: string)
    requires n < 0x100
    ensures Hex4("00" + [HexDigit(n / 16), HexDigit(n % 16)] + x) == Some(n)
  {
    var s := "00" + [HexDigit(n / 16), HexDigit(n % 16)] + x;
    assert s[0] == '0' && s[1] == '0' && s[2] == HexDigit(n / 16) && s[3] == HexDigit(n % 16);
    assert HexValue(HexDigit(n / 16)) == Some(n / 16);
    assert HexValue(HexDigit(n % 16)) == Some(n % 16);
  }

  /** The `\u00XX` escapes of the other control characters read back. */
  lemma {:induction false} ControlEscapeReads(c: char, tail: string)
    requires c as int < 0x20
    requires !(c as int == 0x08 || c as int == 0x0C || c == '\n' || c == '\r' || c == '\t')
    ensures var s := EscapeChar(c) + tail; s != [] && s[0] == '\\' && Unescape(s[1..]) == Some((c, tail))
  {
    var n := c as int;
    var hex := [HexDigit(n / 16), HexDigit(n % 16)];
    var s := EscapeChar(c) + tail;
    assert EscapeChar(c) == "\\u00" + hex;
    assert s[1..] == "u" + ("00" + hex + tail);
    Hex4Of(n, tail);
    assert s[1..][1..] == "00" + hex + tail;
    assert s[1..][5..] == tail;
  }

  /** Four lower-case hexadecimal digits, as in a `\uXXXX` escape. */
  function HexText4(n: nat): (r: string)
    requires n < 0x10000
    ensures |r| == 4
  {
    [HexDigit(n / 16 / 16 / 16), HexDigit(n / 16 / 16 % 16), HexDigit(n / 16 % 16), HexDigit(n % 16)]
  }

  lemma {:induction false} HexDigitReads(d: nat)
    requires d < 16
    ensures HexValue(HexDigit(d)) == Some(d)
  {
    var digits := "0123456789abcdef";
    if d < 10 {
      assert digits[d] as int == '0' as int + d by {
        assert digits[..10] == "0123456789";
      }
    } else {
      assert digits[d] as int == 'a' as int + d - 10 by {
        assert digits[10..] == "abcdef";
      }
    }
  }

  lemma {:induction false} HexPlaces(n: nat)
    ensures ((n / 16 / 16 / 16 * 16 + n / 16 / 16 % 16) * 16 + n / 16 % 16) * 16 + n % 16 == n
  {
    var q1 := n / 16;
    var q2 := q1 / 16;
    assert q2 / 16 * 16 + q2 % 16 == q2;
    assert q2 * 16 + q1 % 16 == q1;
    assert q1 * 16 + n % 16 == n;
  }

  lemma {:induction false} Hex4Reads(n: nat, x: string)
    requires n < 0x10000
    ensures Hex4(HexText4(n) + x) == Some(n)
  {
    var t := HexText4(n);
    var s := t + x;
    HexDigitReads(n / 16 / 16 / 16);
    HexDigitReads(n / 16 / 16 % 16);
    HexDigitReads(n / 16 % 16);
    HexDigitReads(n % 16);
    assert s[0] == t[0] && s[1] == t[1] && s[2] == t[2] && s[3] == t[3];
    HexPlaces(n);
  }

  /** The UTF-16 surrogate pair of a character outside the basic plane. */
  function HighSurrogate(c: char): (r: nat)
    requires c as int >= 0x10000
    ensures 0xD800 <= r < 0xDC00
  {
    0xD800 + (c as int - 0x10000) / 0x400
  }

  function LowSurrogate(c: char): (r: nat)
    requires c as int >= 0x10000
    ensures 0xDC00 <= r < 0xE000
  {
    0xDC00 + (c as int - 0x10000) % 0x400
  }

  /** `JSON.parse` reads the escaped surrogate pair of a character outside
      the basic plane (`\uD83D\uDE00`) as that one character. */
  lemma {:induction false} SurrogatePairReads(c: char, x: string)
    requires c as int >= 0x10000
    ensures Unescape("u" + HexText4(HighSurrogate(c)) + "\\u" + HexText4(LowSurrogate(c)) + x) == Some((c, x))
  {
    var hi := HighSurrogate(c);
    var lo := LowSurrogate(c);
    var s := "u" + HexText4(hi) + "\\u" + HexText4(lo) + x;
    assert s[1..] == HexText4(hi) + ("\\u" + HexText4(lo) + x);
    Hex4Reads(hi, "\\u" + HexText4(lo) + x);
    assert s[5] == '\\' && s[6] == 'u';
    assert s[7..] == HexText4(lo) + x;
    Hex4Reads(lo, x);
    assert s[11..] == x;
    SurrogatesCombine(c);
  }

  lemma {:induction false} SurrogatesCombine(c: char)
    requires c as int >= 0x10000
    ensures Supplementary(HighSurrogate(c), LowSurrogate(c)) == c
  {
    var d := c as int - 0x10000;
    assert d / 0x400 * 0x400 + d % 0x400 == d;
  }

  lemma {:induction false} EscapeCons(str: string, q: string)
    requires str != []
    ensures Escape(str) + q == EscapeChar(str[0]) + (Escape(str[1..]) + q)
  {
  }

  /** An escaped string followed by a closing quote reads back as the string. */
  lemma {:induction false} EscapeRoundTrip(str: string, rest: string)
    ensures StringBody(Escape(str) + ("\"" + rest)) == Some((str, rest))
  {
    var q := "\"" + rest;
    if str == [] {
      LeftUnit(q);
      StringBodyEnd(rest);
    } else {
      var c := str[0];
      var tail := Escape(str[1..]) + q;
      EscapeRoundTrip(str[1..], rest);
      EscapeCons(str, q);
      if c == '"' || c == '\\' || c as int == 0x08 || c as int == 0x0C || c == '\n' || c == '\r' || c == '\t' {
        ShortEscapeReads(c, tail);
        StringBodyEscape(EscapeChar(c) + tail, c, tail, str[1..], rest);
      } else if c as int < 0x20 {
        ControlEscapeReads(c, tail);
        StringBodyEscape(EscapeChar(c) + tail, c, tail, str[1..], rest);
      } else {
        assert EscapeChar(c) == [c];
        DropFirst(c, tail);
        StringBodyPlain(EscapeChar(c) + tail, str[1..], rest);
      }
      ConsSplit(str);
    }
  }

  // ---------------------------------------------------------------------------
  // Numbers

  lemma {:induction false} IntegerPartOf(n: nat, x: string)
    requires x == [] || !IsDigit(x[0])
    ensures IntegerPart(NatText(n) + x) == Some((NatText(n), x))
  {
    var ds := NatText(n);
    if n == 0 {
      DropFirst('0', x);
    } else {
      StartOf(ds, x);
      DigitRunOver(ds, x);
      assert (ds + x)[|ds|..] == x;
    }
  }

  lemma {:induction false} FractionNone(x: string)
    requires x == [] || x[0] != '.'
    ensures FractionPart(x) == Some(("", x))
  {
  }

  /** `e`, an optional sign, then digits that stop before `rest`. */
  lemma {:induction false} ExponentDigits(sign: string, n: nat, rest: string)
    requires sign == "" || sign == "-"
    requires StopsValue(rest)
    ensures ExponentPart("e" + sign + NatText(n) + rest) ==
            Some((if sign == "-" then -(n as int) else n, rest))
  {
    var ds := NatText(n);
    var s := "e" + sign + ds + rest;
    assert s[0] == 'e';
    if sign == "-" {
      assert s[1] == '-';
      assert s[2..] == ds + rest;
    } else {
      assert s[1] == ds[0];
      assert s[1..] == ds + rest;
    }
    DigitRunOver(ds, rest);
    NatTextValue(n);
    assert (ds + rest)[|ds|..] == rest;
    var a := if sign == "-" then s[2..] else s[1..];
    assert a == ds + rest;
    assert DigitRun(a) == ds;
  }

  lemma {:induction false} ExpTextSplit(e: int)
    requires e != 0
    ensures ExpText(e) == "e" + (if e < 0 then "-" else "") + NatText(if e < 0 then -e else e)
  {
  }

  lemma {:induction false} ExponentPartOf(e: int, rest: string)
    requires StopsValue(rest)
    ensures ExponentPart(ExpText(e) + rest) == Some((e, rest))
  {
    if e == 0 {
      assert ExpText(e) == "";
      LeftUnit(rest);
    } else {
      var sign := if e < 0 then "-" else "";
      var n: nat := if e < 0 then -e else e;
      ExponentDigits(sign, n, rest);
      ExpTextSplit(e);
    }
  }

  lemma {:induction false} ExpTextStart(e: int, rest: string)
    requires StopsValue(rest)
    ensures var x := ExpText(e) + rest; x == [] || (!IsDigit(x[0]) && x[0] != '.')
  {
    if e == 0 {
      assert ExpText(e) == "";
      LeftUnit(rest);
    } else {
      ExpTextSplit(e);
      StartOf(ExpText(e), rest);
    }
  }

  lemma {:induction false} IntTextSplit(m: int)
    ensures IntText(m) == (if m < 0 then "-" else "") + NatText(if m < 0 then -m else m)
  {
    if m >= 0 {
      LeftUnit(NatText(m));
    }
  }

  lemma {:induction false} SignedText(neg: bool, n: nat, x: string)
    ensures var s := (if neg then "-" else "") + NatText(n) + x;
      (s != [] && s[0] == '-') == neg &&
      (if neg then s[1..] else s) == NatText(n) + x
  {
    var s := (if neg then "-" else "") + NatText(n) + x;
    if neg {
      assert s == "-" + (NatText(n) + x);
    } else {
      assert s == NatText(n) + x;
      StartOf(NatText(n), x);
    }
  }

  lemma {:induction false} NumberIntStep(s: string, neg: bool, ds: string, b: string)
    requires neg == (s != [] && s[0] == '-')
    requires IntegerPart(if neg then s[1..] else s) == Some((ds, b))
    ensures Number(s) == NumberTail(neg, ds, b)
  {
  }

  lemma {:induction false} NumberTailStep(neg: bool, ds: string, x: string, e: int, rest: string)
    requires AllDigits(ds)
    requires FractionPart(x) == Some(("", x))
    requires ExponentPart(x) == Some((e, rest))
    ensures NumberTail(neg, ds, x) ==
            Some((Decimal(if neg then -(DigitsValue(ds) as int) else DigitsValue(ds) as int, e), rest))
  {
    assert ds + "" == ds;
  }

  /** A sign and integer digits followed by an exponent part. */
  lemma {:induction false} NumberOf(neg: bool, n: nat, x: string, e: int, rest: string)
    requires x == [] || (!IsDigit(x[0]) && x[0] != '.')
    requires ExponentPart(x) == Some((e, rest))
    ensures Number((if neg then "-" else "") + NatText(n) + x) ==
            Some((Decimal(if neg then -(n as int) else n, e), rest))
  {
    var s := (if neg then "-" else "") + NatText(n) + x;
    SignedText(neg, n, x);
    IntegerPartOf(n, x);
    NumberIntStep(s, neg, NatText(n), x);
    FractionNone(x);
    NumberTailStep(neg, NatText(n), x, e, rest);
    NatTextValue(n);
  }

  /** The text of a number reads back as the same mantissa and exponent. */
  lemma {:induction false} NumberRoundTrip(d: Decimal, rest: string)
    requires StopsValue(rest)
    ensures Number(NumText(d) + rest) == Some((d, rest))
  {
    var m := d.mantissa;
    var n: nat := if m < 0 then -m else m;
    var x := ExpText(d.exponent) + rest;
    ExponentPartOf(d.exponent, rest);
    ExpTextStart(d.exponent, rest);
    NumberOf(m < 0, n, x, d.exponent, rest);
    NumTextSplit(d, rest);
  }

  lemma {:induction false} NumTextSplit(d: Decimal, rest: string)
    ensures var m := d.mantissa;
      NumText(d) + rest == (if m < 0 then "-" else "") + NatText(if m < 0 then -m else m) + (ExpText(d.exponent) + rest)
  {
    IntTextSplit(d.mantissa);
  }

  // ---------------------------------------------------------------------------
  // One step of each parser function, on arbitrary text

  /** Value parsing skips nothing when the text starts with a non-space. */
  lemma {:induction false} ValueStart(t: string)
    requires t != [] && !IsWs(t[0])
    ensures Value(t) == ValueAt(t)
  {
    SkipWsOver([], t);
    LeftUnit(t);
  }

  /** Leading layout before a value is skipped. */
  lemma {:induction false} ValueSkip(w: string, y: string)
    requires AllWs(w)
    requires y != [] && !IsWs(y[0])
    ensures Value(w + y) == Value(y)
  {
    SkipWsOver(w, y);
    ValueStart(y);
  }

  lemma {:induction false} ValueAtNumber(t: string)
    requires t != [] && (t[0] == '-' || IsDigit(t[0]))
    ensures ValueAt(t) == match Number(t)
                          case None => None
                          case Some((d, rest)) => Some((JNum(d), rest))
  {
  }

  lemma {:induction false} ValueAtString(t: string)
    requires t != [] && t[0] == '"'
    ensures ValueAt(t) == match StringBody(t[1..])
                          case None => None
                          case Some((str, rest)) => Some((JStr(str), rest))
  {
  }

  lemma {:induction false} ValueAtArray(t: string)
    requires t != [] && t[0] == '['
    ensures ValueAt(t) == Array(t[1..])
  {
  }

  lemma {:induction false} ValueAtObject(t: string)
    requires t != [] && t[0] == '{'
    ensures ValueAt(t) == Object(t[1..])
  {
  }

  lemma {:induction false} ValueAtNull(rest: string)
    ensures ValueAt("null" + rest) == Some((JNull, rest))
  {
    var t := "null" + rest;
    assert t[0] == 'n' && t[..4] == "null" && t[4..] == rest;
  }

  lemma {:induction false} ValueAtTrue(rest: string)
    ensures ValueAt("true" + rest) == Some((JBool(true), rest))
  {
    var t := "true" + rest;
    assert t[0] == 't' && t[..4] == "true" && t[4..] == rest;
  }

  lemma {:induction false} ValueAtFalse(rest: string)
    ensures ValueAt("false" + rest) == Some((JBool(false), rest))
  {
    var t := "false" + rest;
    assert t[0] == 'f' && t[..5] == "false" && t[5..] == rest;
  }

  lemma {:induction false} ArrayEmptyStep(w: string, rest: string)
    requires AllWs(w)
    ensures Array(w + ("]" + rest)) == Some((JArr([]), rest))
  {
    SkipWsOver(w, "]" + rest);
    DropFirst(']', rest);
  }

  lemma {:induction false} ArrayItemsStep(w: string, x: string)
    requires AllWs(w)
    requires x != [] && !IsWs(x[0]) && x[0] != ']'
    ensures Array(w + x) == match Elements(x)
                            case None => None
                            case Some((items, rest)) => Some((JArr(items), rest))
  {
    SkipWsOver(w, x);
  }

  lemma {:induction false} ElementsCommaStep(x: string, v: Json, r: string, more: string)
    requires Value(x) == Some((v, r))
    requires SkipWs(r) == "," + more
    ensures Elements(x) == match Elements(more)
                           case None => None
                           case Some((vs, rr)) => Some(([v] + vs, rr))
  {
    DropFirst(',', more);
  }

  lemma {:induction false} ElementsEndStep(x: string, v: Json, r: string, rest: string)
    requires Value(x) == Some((v, r))
    requires SkipWs(r) == "]" + rest
    ensures Elements(x) == Some(([v], rest))
  {
    DropFirst(']', rest);
  }

  lemma {:induction false} ObjectEmptyStep(w: string, rest: string)
    requires AllWs(w)
    ensures Object(w + ("}" + rest)) == Some((JObj([]), rest))
  {
    SkipWsOver(w, "}" + rest);
    DropFirst('}', rest);
  }

  lemma {:induction false} ObjectMembersStep(w: string, x: string)
    requires AllWs(w)
    requires x != [] && !IsWs(x[0]) && x[0] != '}'
    ensures Object(w + x) == match Members(x)
                             case None => None
                             case Some((ms, rest)) => Some((JObj(ms), rest))
  {
    SkipWsOver(w, x);
  }

  lemma {:induction false} MembersSkip(w: string, x: string)
    requires AllWs(w)
    requires x == [] || !IsWs(x[0])
    ensures Members(w + x) == MembersAt(x)
  {
    SkipWsOver(w, x);
  }

  /** A quoted key, a colon and a value make a member. */
  lemma {:induction false} MemberAtStep(t: string, k: string, y: string, v: Json, after: string)
    requires t != [] && t[0] == '"'
    requires StringBody(t[1..]) == Some((k, ":" + y))
    requires Value(y) == Some((v, after))
    ensures MemberAt(t) == Some((Member(k, v), after))
  {
    SkipWsOver([], ":" + y);
    LeftUnit(":" + y);
    DropFirst(':', y);
  }

  lemma {:induction false} MembersCommaStep(t: string, m: Member, r2: string, more: string)
    requires MemberAt(t) == Some((m, r2))
    requires SkipWs(r2) == "," + more
    ensures MembersAt(t) == match Members(more)
                            case None => None
                            case Some((ms, r3)) => Some(([m] + ms, r3))
  {
    DropFirst(',', more);
  }

  lemma {:induction false} MembersEndStep(t: string, m: Member, r2: string, rest: string)
    requires MemberAt(t) == Some((m, r2))
    requires SkipWs(r2) == "}" + rest
    ensures MembersAt(t) == Some(([m], rest))
  {
    DropFirst('}', rest);
  }

  /** After a value: optional layout `close` then the closing bracket. */
  lemma {:induction false} ClosingStops(close: string, bracket: char, rest: string)
    requires AllWs(close)
    requires bracket == ']' || bracket == '}'
    ensures StopsValue(close + ([bracket] + rest))
    ensures SkipWs(close + ([bracket] + rest)) == [bracket] + rest
  {
    if close == [] {
      LeftUnit([bracket] + rest);
    } else {
      StartOf(close, [bracket] + rest);
    }
    DropFirst(bracket, rest);
    SkipWsOver(close, [bracket] + rest);
  }

  lemma {:induction false} ArrayFromParts(lead: string, body: string, close: string, items: seq<Json>, rest: string)
    requires AllWs(lead) && AllWs(close)
    requires body != [] && !IsWs(body[0]) && body[0] != ']'
    requires Elements(body + (close + ("]" + rest))) == Some((items, rest))
    ensures Array(lead + (body + (close + ("]" + rest)))) == Some((JArr(items), rest))
  {
    StartOf(body, close + ("]" + rest));
    ArrayItemsStep(lead, body + (close + ("]" + rest)));
  }

  lemma {:induction false} ObjectFromParts(lead: string, body: string, close: string, ms: seq<Member>, rest: string)
    requires AllWs(lead) && AllWs(close)
    requires body != [] && body[0] == '"'
    requires Members(body + (close + ("}" + rest))) == Some((ms, rest))
    ensures Object(lead + (body + (close + ("}" + rest)))) == Some((JObj(ms), rest))
  {
    StartOf(body, close + ("}" + rest));
    ObjectMembersStep(lead, body + (close + ("}" + rest)));
  }

  /** `lead v , w more` parses as `v` followed by the elements of `more`. */
  lemma {:induction false} ElementsConsParts(lead: string, y: string, v: Json, w: string, more: string,
                                            vs: seq<Json>, rest: string)
    requires AllWs(lead) && AllWs(w)
    requires y != [] && !IsWs(y[0])
    requires Value(y) == Some((v, "," + (w + more)))
    requires Elements(w + more) == Some((vs, rest))
    ensures Elements(lead + y) == Some(([v] + vs, rest))
  {
    ValueSkip(lead, y);
    SkipWsOver([], "," + (w + more));
    LeftUnit("," + (w + more));
    ElementsCommaStep(lead + y, v, "," + (w + more), w + more);
  }

  /** `lead v close ] rest` parses as the single element `v`. */
  lemma {:induction false} ElementsLastParts(lead: string, y: string, v: Json, close: string, rest: string)
    requires AllWs(lead) && AllWs(close)
    requires y != [] && !IsWs(y[0])
    requires Value(y) == Some((v, close + ("]" + rest)))
    ensures Elements(lead + y) == Some(([v], rest))
  {
    ValueSkip(lead, y);
    ClosingStops(close, ']', rest);
    ElementsEndStep(lead + y, v, close + ("]" + rest), rest);
  }

  lemma {:induction false} MembersConsParts(lead: string, t: string, m: Member, w: string, more: string,
                                           ms: seq<Member>, rest: string)
    requires AllWs(lead) && AllWs(w)
    requires t != [] && t[0] == '"'
    requires MemberAt(t) == Some((m, "," + (w + more)))
    requires Members(w + more) == Some((ms, rest))
    ensures Members(lead + t) == Some(([m] + ms, rest))
  {
    MembersSkip(lead, t);
    SkipWsOver([], "," + (w + more));
    LeftUnit("," + (w + more));
    MembersCommaStep(t, m, "," + (w + more), w + more);
  }

  lemma {:induction false} MembersLastParts(lead: string, t: string, m: Member, close: string, rest: string)
    requires AllWs(lead) && AllWs(close)
    requires t != [] && t[0] == '"'
    requires MemberAt(t) == Some((m, close + ("}" + rest)))
    ensures Members(lead + t) == Some(([m], rest))
  {
    MembersSkip(lead, t);
    ClosingStops(close, '}', rest);
    MembersEndStep(t, m, close + ("}" + rest), rest);
  }

  // ---------------------------------------------------------------------------
  // The shape of the serializer's output

  /** The layout of a non-empty array or object: the line break and
      indentation before the first element (also written after each `,`),
      the nesting prefix of the elements, and the layout before the closing
      bracket. */
  function Lead(gap: string, indent: string): string
  {
    if gap == "" then "" else "\n" + indent + gap
  }

  function InnerIndent(gap: string, indent: string): string
  {
    if gap == "" then indent else indent + gap
  }

  function Close(gap: string, indent: string): string
  {
    if gap == "" then "" else "\n" + indent
  }

  lemma {:induction false} LayoutParts(gap: string, indent: string)
    requires AllWs(gap) && AllWs(indent)
    ensures AllWs(Lead(gap, indent)) && AllWs(InnerIndent(gap, indent)) && AllWs(Close(gap, indent))
  {
  }

  /** A serialization starts with a character that is neither layout nor a
      delimiter. */
  lemma {:induction false} SerStart(v: Json, gap: string, indent: string)
    ensures Ser(v, gap, indent) != []
    ensures var c := Ser(v, gap, indent)[0]; !IsWs(c) && !IsStop(c)
  {
    if v.JNum? {
      var t := NumText(v.n);
      IntTextSplit(v.n.mantissa);
      StartOf(IntText(v.n.mantissa), ExpText(v.n.exponent));
      assert t[0] == '-' || IsDigit(t[0]);
    }
  }

  lemma {:induction false} SerItemsStart(items: seq<Json>, gap: string, indent: string, sep: string)
    requires items != []
    ensures SerItems(items, gap, indent, sep) != []
    ensures var c := SerItems(items, gap, indent, sep)[0]; !IsWs(c) && !IsStop(c)
  {
    SerStart(items[0], gap, indent);
    var sv := Ser(items[0], gap, indent);
    var tl := if |items| == 1 then "" else sep + SerItems(items[1..], gap, indent, sep);
    StartOf(sv, tl);
  }

  lemma {:induction false} MemberText(q: string, sp: string, sv: string, after: string)
    ensures "\"" + q + "\"" + ":" + sp + sv + after == "\"" + (q + ("\"" + (":" + (sp + (sv + after)))))
  {
  }

  lemma {:induction false} SerMemberShape(m: Member, gap: string, indent: string, after: string)
    ensures SerMember(m, gap, indent) + after ==
            "\"" + (Escape(m.key) + ("\"" + (":" + ((if gap == "" then "" else " ") + (Ser(m.value, gap, indent) + after)))))
  {
    MemberText(Escape(m.key), if gap == "" then "" else " ", Ser(m.value, gap, indent), after);
  }

  lemma {:induction false} SerMembersStart(ms: seq<Member>, gap: string, indent: string, sep: string)
    requires ms != []
    ensures SerMembers(ms, gap, indent, sep) != []
    ensures SerMembers(ms, gap, indent, sep)[0] == '"'
  {
    var m := ms[0];
    var sm := SerMember(m, gap, indent);
    SerMemberShape(m, gap, indent, "");
    assert sm + "" == sm;
    var tl := if |ms| == 1 then "" else sep + SerMembers(ms[1..], gap, indent, sep);
    StartOf(sm, tl);
  }

  lemma {:induction false} ShapeCompact(b: string, br: string, rest: string)
    ensures b + br + rest == "" + (b + ("" + (br + rest)))
  {
  }

  lemma {:induction false} ShapePretty(b: string, indent: string, gap: string, br: string, rest: string)
    ensures "\n" + (indent + gap) + b + "\n" + indent + br + rest ==
            ("\n" + indent + gap) + (b + (("\n" + indent) + (br + rest)))
  {
  }

  lemma {:induction false} ArrayInnerShape(items: seq<Json>, gap: string, indent: string, rest: string)
    requires items != []
    ensures ArrayInner(items, gap, indent) + rest ==
            Lead(gap, indent) + (SerItems(items, gap, InnerIndent(gap, indent), "," + Lead(gap, indent))
            + (Close(gap, indent) + ("]" + rest)))
  {
    if gap == "" {
      assert "," + "" == ",";
      ShapeCompact(SerItems(items, gap, indent, ","), "]", rest);
    } else {
      var inner := indent + gap;
      assert Lead(gap, indent) == "\n" + inner;
      assert ",\n" + inner == "," + Lead(gap, indent);
      ShapePretty(SerItems(items, gap, inner, ",\n" + inner), indent, gap, "]", rest);
    }
  }

  lemma {:induction false} ObjectInnerShape(ms: seq<Member>, gap: string, indent: string, rest: string)
    requires ms != []
    ensures ObjectInner(ms, gap, indent) + rest ==
            Lead(gap, indent) + (SerMembers(ms, gap, InnerIndent(gap, indent), "," + Lead(gap, indent))
            + (Close(gap, indent) + ("}" + rest)))
  {
    if gap == "" {
      assert "," + "" == ",";
      ShapeCompact(SerMembers(ms, gap, indent, ","), "}", rest);
    } else {
      var inner := indent + gap;
      assert Lead(gap, indent) == "\n" + inner;
      assert ",\n" + inner == "," + Lead(gap, indent);
      ShapePretty(SerMembers(ms, gap, inner, ",\n" + inner), indent, gap, "}", rest);
    }
  }

  lemma {:induction false} SerItemsOne(items: seq<Json>, gap: string, indent: string, sep: string, tail: string)
    requires |items| == 1
    ensures SerItems(items, gap, indent, sep) + tail == Ser(items[0], gap, indent) + tail
  {
    assert Ser(items[0], gap, indent) + "" == Ser(items[0], gap, indent);
  }

  lemma {:induction false} SerItemsCons(items: seq<Json>, gap: string, indent: string, w: string, tail: string)
    requires |items| > 1
    ensures SerItems(items, gap, indent, "," + w) + tail ==
            Ser(items[0], gap, indent) + ("," + (w + (SerItems(items[1..], gap, indent, "," + w) + tail)))
  {
  }

  lemma {:induction false} SerMembersOne(ms: seq<Member>, gap: string, indent: string, sep: string, tail: string)
    requires |ms| == 1
    ensures SerMembers(ms, gap, indent, sep) + tail == SerMember(ms[0], gap, indent) + tail
  {
    assert SerMember(ms[0], gap, indent) + "" == SerMember(ms[0], gap, indent);
  }

  lemma {:induction false} SerMembersCons(ms: seq<Member>, gap: string, indent: string, w: string, tail: string)
    requires |ms| > 1
    ensures SerMembers(ms, gap, indent, "," + w) + tail ==
            SerMember(ms[0], gap, indent) + ("," + (w + (SerMembers(ms[1..], gap, indent, "," + w) + tail)))
  {
  }

  // ---------------------------------------------------------------------------
  // The round trip, by mutual induction over the value

  lemma {:induction false} LiteralRoundTrip(v: Json, gap: string, indent: string, rest: string)
    requires v.JNull? || v.JBool?
    ensures ValueAt(Ser(v, gap, indent) + rest) == Some((v, rest))
  {
    if v.JNull? {
      ValueAtNull(rest);
    } else if v.b {
      ValueAtTrue(rest);
    } else {
      ValueAtFalse(rest);
    }
  }

  lemma {:induction false} NumRoundTrip(d: Decimal, gap: string, indent: string, rest: string)
    requires StopsValue(rest)
    ensures ValueAt(Ser(JNum(d), gap, indent) + rest) == Some((JNum(d), rest))
  {
    var t := NumText(d) + rest;
    SerStart(JNum(d), gap, indent);
    StartOf(NumText(d), rest);
    ValueAtNumber(t);
    NumberRoundTrip(d, rest);
  }

  lemma {:induction false} StrRoundTrip(str: string, gap: string, indent: string, rest: string)
    ensures ValueAt(Ser(JStr(str), gap, indent) + rest) == Some((JStr(str), rest))
  {
    var t := Ser(JStr(str), gap, indent) + rest;
    assert t == "\"" + (Escape(str) + ("\"" + rest));
    DropFirst('"', Escape(str) + ("\"" + rest));
    ValueAtString(t);
    EscapeRoundTrip(str, rest);
  }

  /** Every serialization, followed by a delimiter or nothing, reads back as
      the value serialized. */
  lemma {:induction false} SerRoundTrip(v: Json, gap: string, indent: string, rest: string)
    requires AllWs(gap) && AllWs(indent)
    requires StopsValue(rest)
    ensures Value(Ser(v, gap, indent) + rest) == Some((v, rest))
    decreases v, 3
  {
    if v.JArr? {
      ArrValueRoundTrip(v, gap, indent, rest);
    } else if v.JObj? {
      ObjValueRoundTrip(v, gap, indent, rest);
    } else {
      ScalarValueRoundTrip(v, gap, indent, rest);
    }
  }

  lemma {:induction false} ScalarValueRoundTrip(v: Json, gap: string, indent: string, rest: string)
    requires !v.JArr? && !v.JObj?
    requires StopsValue(rest)
    ensures Value(Ser(v, gap, indent) + rest) == Some((v, rest))
  {
    SerStart(v, gap, indent);
    StartOf(Ser(v, gap, indent), rest);
    ValueStart(Ser(v, gap, indent) + rest);
    match v
    case JNull =>
      LiteralRoundTrip(v, gap, indent, rest);
    case JBool(_) =>
      LiteralRoundTrip(v, gap, indent, rest);
    case JNum(d) =>
      NumRoundTrip(d, gap, indent, rest);
    case JStr(str) =>
      StrRoundTrip(str, gap, indent, rest);
  }

  lemma {:induction false} ArrValueRoundTrip(v: Json, gap: string, indent: string, rest: string)
    requires v.JArr?
    requires AllWs(gap) && AllWs(indent)
    requires StopsValue(rest)
    ensures Value(Ser(v, gap, indent) + rest) == Some((v, rest))
    decreases v, 2
  {
    var x := Ser(v, gap, indent) + rest;
    assert x == "[" + (ArrayInner(v.items, gap, indent) + rest);
    DropFirst('[', ArrayInner(v.items, gap, indent) + rest);
    ValueStart(x);
    ValueAtArray(x);
    ArrayRoundTrip(v.items, gap, indent, rest);
  }

  lemma {:induction false} ObjValueRoundTrip(v: Json, gap: string, indent: string, rest: string)
    requires v.JObj?
    requires AllWs(gap) && AllWs(indent)
    requires StopsValue(rest)
    ensures Value(Ser(v, gap, indent) + rest) == Some((v, rest))
    decreases v, 2
  {
    var x := Ser(v, gap, indent) + rest;
    assert x == "{" + (ObjectInner(v.members, gap, indent) + rest);
    DropFirst('{', ObjectInner(v.members, gap, indent) + rest);
    ValueStart(x);
    ValueAtObject(x);
    ObjectRoundTrip(v.members, gap, indent, rest);
  }

  lemma {:induction false} ArrayRoundTrip(items: seq<Json>, gap: string, indent: string, rest: string)
    requires AllWs(gap) && AllWs(indent)
    requires StopsValue(rest)
    ensures Array(ArrayInner(items, gap, indent) + rest) == Some((JArr(items), rest))
    decreases items, 2
  {
    if items == [] {
      assert ArrayInner(items, gap, indent) == "]";
      LeftUnit("]" + rest);
      ArrayEmptyStep("", rest);
    } else {
      var lead, inner, close := Lead(gap, indent), InnerIndent(gap, indent), Close(gap, indent);
      LayoutParts(gap, indent);
      var body := SerItems(items, gap, inner, "," + lead);
      ArrayInnerShape(items, gap, indent, rest);
      SerItemsStart(items, gap, inner, "," + lead);
      ElementsRoundTrip(items, gap, inner, "", lead, close, rest);
      LeftUnit(body + (close + ("]" + rest)));
      ArrayFromParts(lead, body, close, items, rest);
    }
  }

  lemma {:induction false} ObjectRoundTrip(ms: seq<Member>, gap: string, indent: string, rest: string)
    requires AllWs(gap) && AllWs(indent)
    requires StopsValue(rest)
    ensures Object(ObjectInner(ms, gap, indent) + rest) == Some((JObj(ms), rest))
    decreases ms, 2
  {
    if ms == [] {
      assert ObjectInner(ms, gap, indent) == "}";
      LeftUnit("}" + rest);
      ObjectEmptyStep("", rest);
    } else {
      var lead, inner, close := Lead(gap, indent), InnerIndent(gap, indent), Close(gap, indent);
      LayoutParts(gap, indent);
      var body := SerMembers(ms, gap, inner, "," + lead);
      ObjectInnerShape(ms, gap, indent, rest);
      SerMembersStart(ms, gap, inner, "," + lead);
      MembersRoundTrip(ms, gap, inner, "", lead, close, rest);
      LeftUnit(body + (close + ("}" + rest)));
      ObjectFromParts(lead, body, close, ms, rest);
    }
  }

  /** The items of a non-empty array after layout `lead`, separated by `,`
      and layout `w`, and closed by layout `close` and `]`, parse back to
      the items. */
  lemma {:induction false} ElementsRoundTrip(items: seq<Json>, gap: string, indent: string,
                                            lead: string, w: string, close: string, rest: string)
    requires items != []
    requires AllWs(gap) && AllWs(indent) && AllWs(lead) && AllWs(w) && AllWs(close)
    requires StopsValue(rest)
    ensures Elements(lead + (SerItems(items, gap, indent, "," + w) + (close + ("]" + rest)))) == Some((items, rest))
    decreases items, 1
  {
    if |items| == 1 {
      LastElementRoundTrip(items, gap, indent, lead, w, close, rest);
    } else {
      ElementsConsRoundTrip(items, gap, indent, lead, w, close, rest);
    }
  }

  lemma {:induction false} LastElementRoundTrip(items: seq<Json>, gap: string, indent: string,
                                               lead: string, w: string, close: string, rest: string)
    requires |items| == 1
    requires AllWs(gap) && AllWs(indent) && AllWs(lead) && AllWs(w) && AllWs(close)
    requires StopsValue(rest)
    ensures Elements(lead + (SerItems(items, gap, indent, "," + w) + (close + ("]" + rest)))) == Some((items, rest))
    decreases items, 0
  {
    var v := items[0];
    var sv := Ser(v, gap, indent);
    var closing := close + ("]" + rest);
    ClosingStops(close, ']', rest);
    SerStart(v, gap, indent);
    SerItemsOne(items, gap, indent, "," + w, closing);
    SerRoundTrip(v, gap, indent, closing);
    StartOf(sv, closing);
    ElementsLastParts(lead, sv + closing, v, close, rest);
    assert items == [v];
  }

  lemma {:induction false} ElementsConsRoundTrip(items: seq<Json>, gap: string, indent: string,
                                                lead: string, w: string, close: string, rest: string)
    requires |items| > 1
    requires AllWs(gap) && AllWs(indent) && AllWs(lead) && AllWs(w) && AllWs(close)
    requires StopsValue(rest)
    ensures Elements(lead + (SerItems(items, gap, indent, "," + w) + (close + ("]" + rest)))) == Some((items, rest))
    decreases items, 0
  {
    var v := items[0];
    var sv := Ser(v, gap, indent);
    var closing := close + ("]" + rest);
    SerStart(v, gap, indent);
    var more := SerItems(items[1..], gap, indent, "," + w) + closing;
    var after := "," + (w + more);
    SerItemsCons(items, gap, indent, w, closing);
    SerRoundTrip(v, gap, indent, after);
    ElementsRoundTrip(items[1..], gap, indent, w, w, close, rest);
    StartOf(sv, after);
    ElementsConsParts(lead, sv + after, v, w, more, items[1..], rest);
    ConsSplit(items);
  }

  /** The value part of a member, after the colon, reads back. */
  lemma {:induction false} MemberValueRoundTrip(m: Member, gap: string, indent: string, after: string)
    requires AllWs(gap) && AllWs(indent)
    requires StopsValue(after)
    ensures Value((if gap == "" then "" else " ") + (Ser(m.value, gap, indent) + after)) == Some((m.value, after))
    decreases m, 0
  {
    var sv := Ser(m.value, gap, indent);
    SerStart(m.value, gap, indent);
    StartOf(sv, after);
    SerRoundTrip(m.value, gap, indent, after);
    ValueSkip(if gap == "" then "" else " ", sv + after);
  }

  /** One member `"key": value` followed by `after` reads back as the member. */
  lemma {:induction false} MemberRoundTrip(m: Member, gap: string, indent: string, after: string)
    requires AllWs(gap) && AllWs(indent)
    requires StopsValue(after)
    ensures var t := SerMember(m, gap, indent) + after;
      t != [] && t[0] == '"' && MemberAt(t) == Some((m, after))
    decreases m, 1
  {
    var y := (if gap == "" then "" else " ") + (Ser(m.value, gap, indent) + after);
    var t := SerMember(m, gap, indent) + after;
    SerMemberShape(m, gap, indent, after);
    DropFirst('"', Escape(m.key) + ("\"" + (":" + y)));
    EscapeRoundTrip(m.key, ":" + y);
    MemberValueRoundTrip(m, gap, indent, after);
    MemberAtStep(t, m.key, y, m.value, after);
  }

  lemma {:induction false} MembersRoundTrip(ms: seq<Member>, gap: string, indent: string,
                                           lead: string, w: string, close: string, rest: string)
    requires ms != []
    requires AllWs(gap) && AllWs(indent) && AllWs(lead) && AllWs(w) && AllWs(close)
    requires StopsValue(rest)
    ensures Members(lead + (SerMembers(ms, gap, indent, "," + w) + (close + ("}" + rest)))) == Some((ms, rest))
    decreases ms, 1
  {
    if |ms| == 1 {
      LastMemberRoundTrip(ms, gap, indent, lead, w, close, rest);
    } else {
      MembersConsRoundTrip(ms, gap, indent, lead, w, close, rest);
    }
  }

  lemma {:induction false} LastMemberRoundTrip(ms: seq<Member>, gap: string, indent: string,
                                              lead: string, w: string, close: string, rest: string)
    requires |ms| == 1
    requires AllWs(gap) && AllWs(indent) && AllWs(lead) && AllWs(w) && AllWs(close)
    requires StopsValue(rest)
    ensures Members(lead + (SerMembers(ms, gap, indent, "," + w) + (close + ("}" + rest)))) == Some((ms, rest))
    decreases ms, 0
  {
    var m := ms[0];
    var sm := SerMember(m, gap, indent);
    var closing := close + ("}" + rest);
    ClosingStops(close, '}', rest);
    SerMembersOne(ms, gap, indent, "," + w, closing);
    MemberRoundTrip(m, gap, indent, closing);
    MembersLastParts(lead, sm + closing, m, close, rest);
    assert ms == [m];
  }

  lemma {:induction false} MembersConsRoundTrip(ms: seq<Member>, gap: string, indent: string,
                                               lead: string, w: string, close: string, rest: string)
    requires |ms| > 1
    requires AllWs(gap) && AllWs(indent) && AllWs(lead) && AllWs(w) && AllWs(close)
    requires StopsValue(rest)
    ensures Members(lead + (SerMembers(ms, gap, indent, "," + w) + (close + ("}" + rest)))) == Some((ms, rest))
    decreases ms, 0
  {
    var m := ms[0];
    var sm := SerMember(m, gap, indent);
    var closing := close + ("}" + rest);
    var more := SerMembers(ms[1..], gap, indent, "," + w) + closing;
    var after := "," + (w + more);
    SerMembersCons(ms, gap, indent, w, closing);
    MemberRoundTrip(m, gap, indent, after);
    MembersRoundTrip(ms[1..], gap, indent, w, w, close, rest);
    MembersConsParts(lead, sm + after, m, w, more, ms[1..], rest);
    ConsSplit(ms);
  }

  /** The grammar reads `JSON.stringify(v, null, gap)` back as `v`, member
      for member, for every value and every layout `gap` (the compact form
      and the indented one). */
  lemma {:induction false} ParseTextStringify(v: Json, gap: string)
    requires AllWs(gap)
    ensures ParseText(Stringify(v, gap)) == Some(v)
  {
    SerRoundTrip(v, gap, "", []);
    assert Stringify(v, gap) + [] == Stringify(v, gap);
  }

  /** `JSON.parse(JSON.stringify(v, null, gap))` is the object JavaScript
      builds from `v`'s members, and `v` itself when `v` already is such a
      value (in particular whenever `v` came from `JSON.parse`). */
  lemma {:induction false} ParseStringify(v: Json, gap: string)
    requires AllWs(gap)
    ensures Parse(Stringify(v, gap)) == Some(ToJs(v))
    ensures IsJsValue(v) ==> Parse(Stringify(v, gap)) == Some(v)
  {
    ParseTextStringify(v, gap);
    if IsJsValue(v) {
      ToJsKeepsJs(v);
    }
  }

  // ---------------------------------------------------------------------------
  // The compact form is a single line

  /** The compact serialization never contains a line break (string contents
      are escaped). */
  lemma {:induction false} CompactHasNoNewline(v: Json)
    ensures '\n' !in Ser(v, "", "")
    decreases v, 2
  {
    match v
    case JNum(d) =>
      NumTextNoNewline(d);
    case JStr(s) =>
      EscapeNoNewline(s);
    case JArr(items) =>
      if items != [] { ItemsNoNewline(items); }
    case JObj(ms) =>
      if ms != [] { MembersNoNewline(ms); }
    case _ =>
  }

  lemma {:induction false} NatTextNoNewline(n: nat)
    ensures '\n' !in NatText(n)
  {
  }

  lemma {:induction false} NumTextNoNewline(d: Decimal)
    ensures '\n' !in NumText(d)
  {
    NatTextNoNewline(if d.mantissa < 0 then -d.mantissa else d.mantissa);
    NatTextNoNewline(if d.exponent < 0 then -d.exponent else d.exponent);
  }

  lemma {:induction false} EscapeNoNewline(s: string)
    ensures '\n' !in Escape(s)
  {
    if s != [] {
      EscapeNoNewline(s[1..]);
      var c := s[0];
      if c as int < 0x20 && c != '\n' && c != '\r' && c != '\t' && c as int != 0x08 && c as int != 0x0C {
        assert EscapeChar(c) == "\\u00" + [HexDigit(c as int / 16), HexDigit(c as int % 16)];
      }
    }
  }

  lemma {:induction false} ItemsNoNewline(items: seq<Json>)
    requires items != []
    ensures '\n' !in SerItems(items, "", "", ",")
    decreases items, 1
  {
    CompactHasNoNewline(items[0]);
    if |items| > 1 { ItemsNoNewline(items[1..]); }
  }

  lemma {:induction false} MembersNoNewline(ms: seq<Member>)
    requires ms != []
    ensures '\n' !in SerMembers(ms, "", "", ",")
    decreases ms, 1
  {
    EscapeNoNewline(ms[0].key);
    CompactHasNoNewline(ms[0].value);
    if |ms| > 1 { MembersNoNewline(ms[1..]); }
  }
}
