/** JSON values as `JSON.parse` produces them and `JSON.stringify` writes them,
    with a parser for the grammar of section 2 of RFC 8259.

    Numbers are kept as decimals `mantissa * 10^exponent`. The grammar's
    reading (`ParseText`) keeps an object's members as written; `Parse` then
    builds the JavaScript object from them: one property per key holding the
    last value written for it, array-index keys first in ascending order. */
module Json {
  import opened Base

  datatype Decimal = Decimal(mantissa: int, exponent: int)

  datatype Json =
    | JNull
    | JBool(b: bool)
    | JNum(n: Decimal)
    | JStr(s: string)
    | JArr(items: seq<Json>)
    | JObj(members: seq<Member>)

  datatype Member = Member(key: string, value: Json)

  /** The value of the last member named `key`. */
  function LastValue(ms: seq<Member>, key: string): (r: Option<Json>)
    ensures r.Some? ==> Member(key, r.value) in ms
    ensures r.None? ==> forall m :: m in ms ==> m.key != key
  {
    if ms == [] then None
    else if ms[|ms| - 1].key == key then Some(ms[|ms| - 1].value)
    else LastValue(ms[..|ms| - 1], key)
  }

  /** The property read `j.key` on a parsed value that is not `null`:
      `None` stands for `undefined` (no such member, or `j` is not an object). */
  function Get(j: Json, key: string): (r: Option<Json>)
    ensures r.Some? ==> j.JObj? && Member(key, r.value) in j.members
    ensures r.None? ==> !j.JObj? || forall m :: m in j.members ==> m.key != key
  {
    if j.JObj? then LastValue(j.members, key) else None
  }

  /** JavaScript truthiness of a parsed value. */
  predicate Truthy(j: Json)
  {
    match j
    case JNull => false
    case JBool(b) => b
    case JNum(d) => d.mantissa != 0
    case JStr(s) => s != ""
    case JArr(_) => true
    case JObj(_) => true
  }

  // ---------------------------------------------------------------------------
  // JSON.stringify

  function HexDigit(n: nat): (c: char)
    requires n < 16
  {
    "0123456789abcdef"[n]
  }

  /** The escape JSON.stringify writes for one character of a string. */
  function EscapeChar(c: char): string
  {
    if c == '"' then "\\\""
    else if c == '\\' then "\\\\"
    else if c as int == 0x08 then "\\b"
    else if c as int == 0x0C then "\\f"
    else if c == '\n' then "\\n"
    else if c == '\r' then "\\r"
    else if c == '\t' then "\\t"
    else if c as int < 0x20 then "\\u00" + [HexDigit(c as int / 16), HexDigit(c as int % 16)]
    else [c]
  }

  function Escape(s: string): string
  {
    if s == [] then [] else EscapeChar(s[0]) + Escape(s[1..])
  }

  function Quote(s: string): string
  {
    "\"" + Escape(s) + "\""
  }

  /** The exponent suffix of a number's text; none for a zero exponent. */
  function ExpText(e: int): string
  {
    if e == 0 then "" else "e" + IntText(e)
  }

  function NumText(d: Decimal): string
  {
    IntText(d.mantissa) + ExpText(d.exponent)
  }

  /** `JSON.stringify(v, null, gap)` at nesting prefix `indent`
      (section 25.5.2 of ECMA-262: SerializeJSONArray / SerializeJSONObject). */
  function Ser(v: Json, gap: string, indent: string): string
    decreases v, 2
  {
    match v
    case JNull => "null"
    case JBool(b) => if b then "true" else "false"
    case JNum(d) => NumText(d)
    case JStr(s) => Quote(s)
    case JArr(items) => "[" + ArrayInner(items, gap, indent)
    case JObj(ms) => "{" + ObjectInner(ms, gap, indent)
  }

  /** What follows the `[` of an array: the items, one per line when `gap`
      is not empty, and the closing `]`. */
  function ArrayInner(items: seq<Json>, gap: string, indent: string): string
    decreases items, 1
  {
    if items == [] then "]"
    else if gap == "" then SerItems(items, gap, indent, ",") + "]"
    else
      var inner := indent + gap;
      "\n" + inner + SerItems(items, gap, inner, ",\n" + inner) + "\n" + indent + "]"
  }

  /** What follows the `{` of an object, up to and including its `}`. */
  function ObjectInner(ms: seq<Member>, gap: string, indent: string): string
    decreases ms, 1
  {
    if ms == [] then "}"
    else if gap == "" then SerMembers(ms, gap, indent, ",") + "}"
    else
      var inner := indent + gap;
      "\n" + inner + SerMembers(ms, gap, inner, ",\n" + inner) + "\n" + indent + "}"
  }

  function SerItems(items: seq<Json>, gap: string, indent: string, sep: string): string
    requires items != []
    decreases items, 0
  {
    Ser(items[0], gap, indent) +
    (if |items| == 1 then "" else sep + SerItems(items[1..], gap, indent, sep))
  }

  function SerMember(m: Member, gap: string, indent: string): string
    decreases m, 1
  {
    Quote(m.key) + ":" + (if gap == "" then "" else " ") + Ser(m.value, gap, indent)
  }

  function SerMembers(ms: seq<Member>, gap: string, indent: string, sep: string): string
    requires ms != []
    decreases ms, 0
  {
    SerMember(ms[0], gap, indent) +
    (if |ms| == 1 then "" else sep + SerMembers(ms[1..], gap, indent, sep))
  }

  /** `JSON.stringify(v)` when `gap` is empty, `JSON.stringify(v, null, n)` when
      `gap` is n spaces. */
  function Stringify(v: Json, gap: string): (r: string)
    ensures r != []
    ensures r[0] == '"' <==> v.JStr?
    ensures r[0] == '[' <==> v.JArr?
    ensures r[0] == '{' <==> v.JObj?
    ensures r == "null" <==> v == JNull
  {
    if v.JNum? then NumTextLead(v.n); Ser(v, gap, "") else Ser(v, gap, "")
  }

  lemma {:induction false} NumTextLead(d: Decimal)
    ensures NumText(d) != [] && (NumText(d)[0] == '-' || IsDigit(NumText(d)[0]))
  {
    var m := d.mantissa;
    var t := NatText(if m < 0 then -m else m);
    assert IntText(m) == (if m < 0 then "-" + t else t);
  }

  // ---------------------------------------------------------------------------
  // JSON.parse (section 2 of RFC 8259)

  predicate IsWs(c: char)
  {
    c == ' ' || c == '\t' || c == '\n' || c == '\r'
  }

  predicate AllWs(s: string)
  {
    forall i :: 0 <= i < |s| ==> IsWs(s[i])
  }

  function SkipWs(s: string): (r: string)
    ensures |r| <= |s| && r == s[|s| - |r|..]
    ensures r == [] || !IsWs(r[0])
  {
    if s != [] && IsWs(s[0]) then
      var r := SkipWs(s[1..]);
      assert s[1..][|s| - 1 - |r|..] == s[|s| - |r|..];
      r
    else s
  }

  /** The longest prefix of `s` made of digits. */
  function DigitRun(s: string): (r: string)
    ensures IsPrefix(r, s) && AllDigits(r)
    ensures |r| < |s| ==> !IsDigit(s[|r|])
  {
    if s != [] && IsDigit(s[0]) then [s[0]] + DigitRun(s[1..]) else []
  }

  function HexValue(c: char): Option<nat>
  {
    if '0' <= c <= '9' then Some(c as int - '0' as int)
    else if 'a' <= c <= 'f' then Some(c as int - 'a' as int + 10)
    else if 'A' <= c <= 'F' then Some(c as int - 'A' as int + 10)
    else None
  }

  /** Four hexadecimal digits, as after `\u`. */
  function Hex4(s: string): Option<nat>
  {
    if |s| < 4 then None
    else match (HexValue(s[0]), HexValue(s[1]), HexValue(s[2]), HexValue(s[3]))
      case (Some(a), Some(b), Some(c), Some(d)) => Some(((a * 16 + b) * 16 + c) * 16 + d)
      case _ => None
  }

  /** One escape sequence after its backslash: the character it denotes and the rest. */
  function Unescape(s: string): (r: Option<(char, string)>)
    ensures r.Some? ==> |r.value.1| < |s|
  {
    if s == [] then None
    else if s[0] == '"' then Some(('"', s[1..]))
    else if s[0] == '\\' then Some(('\\', s[1..]))
    else if s[0] == '/' then Some(('/', s[1..]))
    else if s[0] == 'b' then Some((0x08 as char, s[1..]))
    else if s[0] == 'f' then Some((0x0C as char, s[1..]))
    else if s[0] == 'n' then Some(('\n', s[1..]))
    else if s[0] == 'r' then Some(('\r', s[1..]))
    else if s[0] == 't' then Some(('\t', s[1..]))
    else if s[0] == 'u' then
      match Hex4(s[1..])
      case Some(n) =>
        if n < 0xD800 || 0xE000 <= n then Some((n as char, s[5..]))
        else if n < 0xDC00 && |s| >= 7 && s[5] == '\\' && s[6] == 'u' then
          match Hex4(s[7..])
          case Some(m) => if 0xDC00 <= m < 0xE000 then Some((Supplementary(n, m), s[11..])) else None
          case None => None
        else None
      case None => None
    else None
  }

  /** The character a UTF-16 surrogate pair `\uD8xx\uDCxx` denotes. */
  function Supplementary(high: nat, low: nat): (c: char)
    requires 0xD800 <= high < 0xDC00 && 0xDC00 <= low < 0xE000
    ensures 0x10000 <= c as int < 0x110000
  {
    var h := high - 0xD800;
    var l := low - 0xDC00;
    assert h * 0x400 <= 0x3FF * 0x400;
    (0x10000 + h * 0x400 + l) as char
  }

  /** The characters of a string literal after its opening quote, and the
      text after its closing quote. */
  function StringBody(s: string): (r: Option<(string, string)>)
    ensures r.Some? ==> |r.value.1| < |s|
  {
    if s == [] then None
    else if s[0] == '"' then Some(([], s[1..]))
    else if s[0] == '\\' then
      match Unescape(s[1..])
      case None => None
      case Some((c, rest)) =>
        match StringBody(rest)
        case None => None
        case Some((t, r)) => Some(([c] + t, r))
    else if s[0] as int < 0x20 then None
    else
      match StringBody(s[1..])
      case None => None
      case Some((t, r)) => Some(([s[0]] + t, r))
  }


  /** `0 | [1-9] *digit`: the integer digits of a number and the rest. */
  function IntegerPart(s: string): (r: Option<(string, string)>)
    ensures r.Some? ==> AllDigits(r.value.0) && |r.value.1| < |s|
  {
    if s == [] || !IsDigit(s[0]) then None
    else if s[0] == '0' then Some(("0", s[1..]))
    else
      var ds := DigitRun(s);
      Some((ds, s[|ds|..]))
  }

  /** `[ . 1*digit ]`: the fraction digits and the rest. */
  function FractionPart(s: string): (r: Option<(string, string)>)
    ensures r.Some? ==> AllDigits(r.value.0) && |r.value.1| <= |s|
  {
    if s == [] || s[0] != '.' then Some(("", s))
    else
      var ds := DigitRun(s[1..]);
      if ds == [] then None else Some((ds, s[1 + |ds|..]))
  }

  /** `[ (e|E) [+|-] 1*digit ]`: the exponent and the rest. */
  function ExponentPart(s: string): (r: Option<(int, string)>)
    ensures r.Some? ==> |r.value.1| <= |s|
  {
    if s == [] || (s[0] != 'e' && s[0] != 'E') then Some((0, s))
    else
      var neg := |s| > 1 && s[1] == '-';
      var a := if |s| > 1 && (s[1] == '-' || s[1] == '+') then s[2..] else s[1..];
      var ds := DigitRun(a);
      if ds == [] then None
      else
        var e: int := DigitsValue(ds);
        Some((if neg then -e else e, a[|ds|..]))
  }

  /** `[ - ] int [ frac ] [ exp ]` as a decimal, and the rest. */
  function Number(s: string): (r: Option<(Decimal, string)>)
    ensures r.Some? ==> |r.value.1| < |s|
  {
    var neg := s != [] && s[0] == '-';
    match IntegerPart(if neg then s[1..] else s)
    case None => None
    case Some(ib) => NumberTail(neg, ib.0, ib.1)
  }

  /** The fraction and exponent of a number whose sign and integer digits
      have been read. */
  function NumberTail(neg: bool, intDigits: string, b: string): (r: Option<(Decimal, string)>)
    requires AllDigits(intDigits)
    ensures r.Some? ==> |r.value.1| <= |b|
  {
    match FractionPart(b)
    case None => None
    case Some(fc) =>
      match ExponentPart(fc.1)
      case None => None
      case Some(er) =>
        var digits := intDigits + fc.0;
        assert AllDigits(digits);
        var m: int := DigitsValue(digits);
        Some((Decimal(if neg then -m else m, er.0 - |fc.0|), er.1))
  }

  /** A value after optional white space, and the text after it. */
  function Value(s: string): (r: Option<(Json, string)>)
    decreases |s|, 1
    ensures r.Some? ==> |r.value.1| < |s|
  {
    ValueAt(SkipWs(s))
  }

  /** A value starting at the first character of `t`. */
  function ValueAt(t: string): (r: Option<(Json, string)>)
    decreases |t|, 0
    ensures r.Some? ==> |r.value.1| < |t|
  {
    if t == [] then None
    else if t[0] == '{' then Object(t[1..])
    else if t[0] == '[' then Array(t[1..])
    else if t[0] == '"' then
      match StringBody(t[1..])
      case None => None
      case Some((str, rest)) => Some((JStr(str), rest))
    else if t[0] == '-' || IsDigit(t[0]) then
      match Number(t)
      case None => None
      case Some((d, rest)) => Some((JNum(d), rest))
    else if t[0] == 't' then
      if IsPrefix("true", t) then Some((JBool(true), t[4..])) else None
    else if t[0] == 'f' then
      if IsPrefix("false", t) then Some((JBool(false), t[5..])) else None
    else if t[0] == 'n' then
      if IsPrefix("null", t) then Some((JNull, t[4..])) else None
    else None
  }

  /** An array after its `[`. */
  function Array(s: string): (r: Option<(Json, string)>)
    decreases |s|, 4
    ensures r.Some? ==> |r.value.1| < |s|
  {
    var t := SkipWs(s);
    if t != [] && t[0] == ']' then Some((JArr([]), t[1..]))
    else
      match Elements(t)
      case None => None
      case Some((items, rest)) => Some((JArr(items), rest))
  }

  /** `value *( , value ) ]`. */
  function Elements(s: string): (r: Option<(seq<Json>, string)>)
    decreases |s|, 3
    ensures r.Some? ==> |r.value.1| < |s|
  {
    match Value(s)
    case None => None
    case Some((v, rest)) =>
      var t := SkipWs(rest);
      if t != [] && t[0] == ',' then
        match Elements(t[1..])
        case None => None
        case Some((vs, r)) => Some(([v] + vs, r))
      else if t != [] && t[0] == ']' then Some(([v], t[1..]))
      else None
  }

  /** An object after its `{`. */
  function Object(s: string): (r: Option<(Json, string)>)
    decreases |s|, 4
    ensures r.Some? ==> |r.value.1| < |s|
  {
    var t := SkipWs(s);
    if t != [] && t[0] == '}' then Some((JObj([]), t[1..]))
    else
      match Members(t)
      case None => None
      case Some((ms, rest)) => Some((JObj(ms), rest))
  }

  /** `string : value *( , string : value ) }` after optional white space. */
  function Members(s: string): (r: Option<(seq<Member>, string)>)
    decreases |s|, 3
    ensures r.Some? ==> |r.value.1| < |s|
  {
    MembersAt(SkipWs(s))
  }

  /** One member `string ws : value`, and the text after its value. */
  function MemberAt(t: string): (r: Option<(Member, string)>)
    decreases |t|, 1
    ensures r.Some? ==> |r.value.1| < |t|
  {
    if t == [] || t[0] != '"' then None
    else
      match StringBody(t[1..])
      case None => None
      case Some((k, r1)) =>
        var u := SkipWs(r1);
        if u == [] || u[0] != ':' then None
        else
          match Value(u[1..])
          case None => None
          case Some((v, r2)) => Some((Member(k, v), r2))
  }

  function MembersAt(t: string): (r: Option<(seq<Member>, string)>)
    decreases |t|, 2
    ensures r.Some? ==> |r.value.1| < |t|
  {
    match MemberAt(t)
    case None => None
    case Some((m, r2)) =>
      var w := SkipWs(r2);
      if w != [] && w[0] == ',' then
        match Members(w[1..])
        case None => None
        case Some((ms, r3)) => Some(([m] + ms, r3))
      else if w != [] && w[0] == '}' then Some(([m], w[1..]))
      else None
  }

  /** The value the text denotes under the grammar: one value, surrounded
      by optional white space only, its objects' members as written. */
  function ParseText(s: string): Option<Json>
  {
    match Value(s)
    case None => None
    case Some((v, rest)) => if SkipWs(rest) == [] then Some(v) else None
  }

  // ---------------------------------------------------------------------------
  // JavaScript objects: what `JSON.parse` builds from the members it reads
  // (section 25.5.1 of ECMA-262, InternalizeJSONProperty aside: each member
  // is a CreateDataProperty, and OrdinaryOwnPropertyKeys of section 10.1.11.1
  // gives the order in which the object's keys are later enumerated).

  /** An array index: the canonical decimal text of an integer below 2^32 - 1. */
  predicate IsIndexKey(k: string)
  {
    AllDigits(k) && DigitsValue(k) < 0xFFFF_FFFF && NatText(DigitsValue(k)) == k
  }

  predicate HasKey(ms: seq<Member>, k: string)
  {
    exists i :: 0 <= i < |ms| && ms[i].key == k
  }

  predicate UniqueKeys(ms: seq<Member>)
  {
    forall i, j :: 0 <= i < j < |ms| ==> ms[i].key != ms[j].key
  }

  /** Array-index keys come first, in ascending numeric order. */
  predicate IndexKeysFirst(ms: seq<Member>)
  {
    forall i, j :: 0 <= i < j < |ms| && IsIndexKey(ms[j].key) ==>
      IsIndexKey(ms[i].key) && DigitsValue(ms[i].key) < DigitsValue(ms[j].key)
  }

  /** The members of a JavaScript object in the order its own keys are
      enumerated: distinct keys, array indices first in ascending order, then
      the other keys in the order they were created. */
  predicate IsPropertyList(ms: seq<Member>)
  {
    UniqueKeys(ms) && IndexKeysFirst(ms)
  }

  /** Every member name `m.key` by `m`, in place. */
  function Replace(ms: seq<Member>, m: Member): (r: seq<Member>)
  {
    seq(|ms|, i requires 0 <= i < |ms| => if ms[i].key == m.key then m else ms[i])
  }

  /** `m` placed before the first member that is not an array index or has a
      larger one. */
  function InsertIndex(ms: seq<Member>, m: Member): (r: seq<Member>)
    requires IsIndexKey(m.key)
  {
    if ms == [] || !IsIndexKey(ms[0].key) || DigitsValue(m.key) < DigitsValue(ms[0].key) then [m] + ms
    else [ms[0]] + InsertIndex(ms[1..], m)
  }

  /** CreateDataProperty(O, m.key, m.value) on an object whose members are `ms`:
      an existing property keeps its place and takes the new value; a new one
      is placed by the enumeration order. */
  function Put(ms: seq<Member>, m: Member): seq<Member>
  {
    if HasKey(ms, m.key) then Replace(ms, m)
    else if IsIndexKey(m.key) then InsertIndex(ms, m)
    else ms + [m]
  }

  /** The object `JSON.parse` builds from the members of an object literal,
      read in text order. */
  function Collect(ms: seq<Member>): seq<Member>
  {
    if ms == [] then [] else Put(Collect(ms[..|ms| - 1]), ms[|ms| - 1])
  }

  /** The value `JSON.parse` returns for the grammar's value `v`. */
  function ToJs(v: Json): Json
    decreases v, 1
  {
    match v
    case JArr(items) => JArr(seq(|items|, i requires 0 <= i < |items| => ToJs(items[i])))
    case JObj(ms) => JObj(Collect(ToJsMembers(ms)))
    case _ => v
  }

  function ToJsMembers(ms: seq<Member>): (r: seq<Member>)
    ensures |r| == |ms|
    decreases ms, 0
  {
    seq(|ms|, i requires 0 <= i < |ms| => Member(ms[i].key, ToJs(ms[i].value)))
  }

  /** A value as JavaScript holds it: every object a property list. */
  predicate IsJsValue(v: Json)
  {
    match v
    case JArr(items) => forall i :: 0 <= i < |items| ==> IsJsValue(items[i])
    case JObj(ms) => IsPropertyList(ms) && forall i :: 0 <= i < |ms| ==> IsJsValue(ms[i].value)
    case _ => true
  }

  /** `JSON.parse(s)`: `None` when it throws a SyntaxError. */
  function Parse(s: string): (r: Option<Json>)
    ensures r.Some? <==> ParseText(s).Some?
    ensures r.Some? ==> IsJsValue(r.value)
  {
    match ParseText(s)
    case None => None
    case Some(v) => ToJsIsJs(v); Some(ToJs(v))
  }

  lemma {:induction false} InsertIndexSpec(ms: seq<Member>, m: Member)
    requires IsIndexKey(m.key) && IsPropertyList(ms) && !HasKey(ms, m.key)
    ensures IsPropertyList(InsertIndex(ms, m))
    ensures forall x :: x in InsertIndex(ms, m) <==> x == m || x in ms
    decreases |ms|
  {
    if ms == [] || !IsIndexKey(ms[0].key) || DigitsValue(m.key) < DigitsValue(ms[0].key) {
      InsertFront(ms, m);
    } else {
      var tail := ms[1..];
      assert !HasKey(tail, m.key) by {
        forall i | 0 <= i < |tail| ensures tail[i].key != m.key { assert tail[i] == ms[i + 1]; }
      }
      assert IsPropertyList(tail) by {
        forall i, j | 0 <= i < j < |tail| ensures tail[i] == ms[i + 1] && tail[j] == ms[j + 1] { }
      }
      InsertIndexSpec(tail, m);
      assert ms[0].key != m.key;
      InsertBehind(ms, m, InsertIndex(tail, m));
    }
  }

  /** `m` placed in front of a property list whose array indices are all larger. */
  lemma {:induction false} InsertFront(ms: seq<Member>, m: Member)
    requires IsIndexKey(m.key) && IsPropertyList(ms) && !HasKey(ms, m.key)
    requires ms == [] || !IsIndexKey(ms[0].key) || DigitsValue(m.key) < DigitsValue(ms[0].key)
    ensures IsPropertyList([m] + ms)
  {
    var r := [m] + ms;
    forall i, j | 0 <= i < j < |r| && IsIndexKey(r[j].key)
      ensures IsIndexKey(r[i].key) && DigitsValue(r[i].key) < DigitsValue(r[j].key)
    {
      if i > 0 {
        assert r[i] == ms[i - 1] && r[j] == ms[j - 1];
      } else if j > 1 {
        assert r[j] == ms[j - 1];
        assert IsIndexKey(ms[0].key) && DigitsValue(ms[0].key) < DigitsValue(ms[j - 1].key);
      }
    }
    forall i, j | 0 <= i < j < |r| ensures r[i].key != r[j].key {
      if i > 0 {
        assert r[i] == ms[i - 1] && r[j] == ms[j - 1];
      } else {
        assert r[j] == ms[j - 1];
      }
    }
  }

  /** The first member kept in front of the tail with `m` inserted. */
  lemma {:induction false} InsertBehind(ms: seq<Member>, m: Member, rt: seq<Member>)
    requires ms != [] && IsIndexKey(m.key) && IsPropertyList(ms)
    requires IsIndexKey(ms[0].key) && DigitsValue(ms[0].key) <= DigitsValue(m.key) && ms[0].key != m.key
    requires IsPropertyList(rt)
    requires forall x :: x in rt <==> x == m || x in ms[1..]
    ensures IsPropertyList([ms[0]] + rt)
    ensures forall x :: x in [ms[0]] + rt <==> x == m || x in ms
  {
    var r := [ms[0]] + rt;
    assert DigitsValue(ms[0].key) < DigitsValue(m.key);
    forall x | x in rt ensures x.key != ms[0].key && (IsIndexKey(x.key) ==> DigitsValue(ms[0].key) < DigitsValue(x.key)) {
      if x != m {
        var j :| 0 <= j < |ms[1..]| && ms[1..][j] == x;
        assert x == ms[j + 1];
      }
    }
    forall i, j | 0 <= i < j < |r|
      ensures r[i].key != r[j].key
      ensures IsIndexKey(r[j].key) ==> IsIndexKey(r[i].key) && DigitsValue(r[i].key) < DigitsValue(r[j].key)
    {
      assert r[j] == rt[j - 1] && r[j] in rt;
      if i > 0 { assert r[i] == rt[i - 1]; }
    }
    ConsSplitMembers(ms);
  }

  lemma {:induction false} ConsSplitMembers(ms: seq<Member>)
    requires ms != []
    ensures ms == [ms[0]] + ms[1..]
  {
  }

  /** CreateDataProperty keeps a property list a property list; afterwards
      the object holds `m` and every member of another name it held before. */
  lemma {:induction false} PutSpec(ms: seq<Member>, m: Member)
    requires IsPropertyList(ms)
    ensures IsPropertyList(Put(ms, m))
    ensures forall x :: x in Put(ms, m) <==> x == m || (x in ms && x.key != m.key)
    ensures HasKey(ms, m.key) ==> |Put(ms, m)| == |ms| && forall i :: 0 <= i < |ms| ==> Put(ms, m)[i].key == ms[i].key
  {
    if HasKey(ms, m.key) {
      ReplaceSpec(ms, m);
    } else {
      forall x | x in ms ensures x.key != m.key {
        var i :| 0 <= i < |ms| && ms[i] == x;
      }
      if IsIndexKey(m.key) {
        InsertIndexSpec(ms, m);
      } else {
        AppendSpec(ms, m);
      }
    }
  }

  lemma {:induction false} ReplaceSpec(ms: seq<Member>, m: Member)
    requires IsPropertyList(ms) && HasKey(ms, m.key)
    ensures IsPropertyList(Replace(ms, m))
    ensures forall x :: x in Replace(ms, m) <==> x == m || (x in ms && x.key != m.key)
  {
    var r := Replace(ms, m);
    var k :| 0 <= k < |ms| && ms[k].key == m.key;
    assert r[k] == m;
    forall x | x in ms && x.key != m.key ensures x in r {
      var i :| 0 <= i < |ms| && ms[i] == x;
      assert r[i] == x;
    }
    assert forall i :: 0 <= i < |ms| ==> r[i].key == ms[i].key;
  }

  lemma {:induction false} AppendSpec(ms: seq<Member>, m: Member)
    requires IsPropertyList(ms) && !IsIndexKey(m.key)
    requires forall x :: x in ms ==> x.key != m.key
    ensures IsPropertyList(ms + [m])
  {
    var r := ms + [m];
    forall i, j | 0 <= i < j < |r| ensures r[i].key != r[j].key {
      if j == |ms| { assert r[i] == ms[i] && r[i] in ms; }
    }
  }

  /** The object `JSON.parse` builds is a property list holding, for each
      key, the value of the last member of that name in the text. */
  lemma {:induction false} CollectSpec(ms: seq<Member>)
    ensures IsPropertyList(Collect(ms))
    ensures forall k, v :: Member(k, v) in Collect(ms) <==> LastValue(ms, k) == Some(v)
  {
    if ms != [] {
      var front := ms[..|ms| - 1];
      var last := ms[|ms| - 1];
      CollectSpec(front);
      PutSpec(Collect(front), last);
    }
  }

  lemma {:induction false} LastIsOnly(ms: seq<Member>, k: string, v: Json)
    requires UniqueKeys(ms) && Member(k, v) in ms
    ensures LastValue(ms, k) == Some(v)
  {
    var j :| 0 <= j < |ms| && ms[j] == Member(k, v);
    var w := LastValue(ms, k).value;
    var i :| 0 <= i < |ms| && ms[i] == Member(k, w);
    assert i == j;
  }

  /** A property list is read back unchanged. */
  lemma {:induction false} CollectKeeps(ms: seq<Member>)
    requires IsPropertyList(ms)
    ensures Collect(ms) == ms
  {
    if ms != [] {
      var front := ms[..|ms| - 1];
      var last := ms[|ms| - 1];
      assert IsPropertyList(front);
      CollectKeeps(front);
      assert !HasKey(front, last.key);
      if IsIndexKey(last.key) {
        InsertAtEnd(front, last);
      }
      assert front + [last] == ms;
    }
  }

  lemma {:induction false} InsertAtEnd(ms: seq<Member>, m: Member)
    requires IsIndexKey(m.key)
    requires forall i :: 0 <= i < |ms| ==> IsIndexKey(ms[i].key) && DigitsValue(ms[i].key) < DigitsValue(m.key)
    ensures InsertIndex(ms, m) == ms + [m]
    decreases |ms|
  {
    if ms != [] {
      assert forall i :: 0 <= i < |ms[1..]| ==> ms[1..][i] == ms[i + 1];
      InsertAtEnd(ms[1..], m);
      ConsSplitMembers(ms);
    }
  }

  /** Every value `JSON.parse` returns is a value as JavaScript holds it. */
  lemma {:induction false} ToJsIsJs(v: Json)
    ensures IsJsValue(ToJs(v))
    decreases v
  {
    match v
    case JArr(items) =>
      forall i | 0 <= i < |items| ensures IsJsValue(ToJs(items[i])) { ToJsIsJs(items[i]); }
    case JObj(ms) =>
      var tm := ToJsMembers(ms);
      var c := Collect(tm);
      CollectSpec(tm);
      forall i | 0 <= i < |c| ensures IsJsValue(c[i].value) {
        assert Member(c[i].key, c[i].value) in c;
        var j :| 0 <= j < |tm| && tm[j] == c[i];
        ToJsIsJs(ms[j].value);
      }
    case _ =>
  }

  /** On a value as JavaScript holds it, `JSON.parse` has nothing to change. */
  lemma {:induction false} ToJsKeepsJs(v: Json)
    requires IsJsValue(v)
    ensures ToJs(v) == v
    decreases v
  {
    match v
    case JArr(items) =>
      forall i | 0 <= i < |items| ensures ToJs(items[i]) == items[i] { ToJsKeepsJs(items[i]); }
    case JObj(ms) =>
      forall i | 0 <= i < |ms| ensures ToJs(ms[i].value) == ms[i].value { ToJsKeepsJs(ms[i].value); }
      assert ToJsMembers(ms) == ms;
      CollectKeeps(ms);
    case _ =>
  }

  lemma {:induction false} LastValueToJs(ms: seq<Member>, k: string)
    ensures LastValue(ToJsMembers(ms), k) ==
            (match LastValue(ms, k) case Some(x) => Some(ToJs(x)) case None => None)
  {
    if ms != [] {
      assert ToJsMembers(ms)[..|ms| - 1] == ToJsMembers(ms[..|ms| - 1]);
      LastValueToJs(ms[..|ms| - 1], k);
    }
  }

  /** A property read on what `JSON.parse` returns sees the last member of
      that name in the text. */
  lemma {:induction false} GetToJs(v: Json, k: string)
    ensures Get(ToJs(v), k) == (match Get(v, k) case Some(x) => Some(ToJs(x)) case None => None)
  {
    if v.JObj? {
      var tm := ToJsMembers(v.members);
      var c := Collect(tm);
      CollectSpec(tm);
      LastValueToJs(v.members, k);
      match LastValue(tm, k)
      case Some(w) =>
        LastIsOnly(c, k, w);
      case None =>
    }
  }
}
