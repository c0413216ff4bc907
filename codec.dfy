/** The record encoding the service writes into the cache. It stands in for
    `encoding/json`: JSON text with the field names of the Go struct tags,
    string escapes as Go writes them, and integer timestamps; the decoder
    accepts the layout the encoder writes, with any JSON string escape (plus
    `null` for a list, as Go decodes it into a nil slice), and rejects
    everything else. */
module Codec {
  import opened Wrappers
  import opened Entities

  // ----- string literals -----

  /** The characters Go's encoder writes as a `\u` escape: the control
      characters without a short form, `<`, `>` and `&` (escaped for HTML
      safety), and the line and paragraph separators U+2028 and U+2029. */
  predicate NeedsUnicodeEscape(c: char) {
    c as int < 0x20 || c == '<' || c == '>' || c == '&' || c == '\U{2028}' || c == '\U{2029}'
  }

  predicate IsHexDigit(c: char) {
    '0' <= c <= '9' || 'a' <= c <= 'f' || 'A' <= c <= 'F'
  }

  /** A hexadecimal digit in lower case, as Go writes it. */
  function HexDigit(d: nat): (c: char)
    requires d < 16
    ensures IsHexDigit(c)
  {
    if d < 10 then (48 + d) as char else (87 + d) as char
  }

  function HexValue(c: char): (d: nat)
    requires IsHexDigit(c)
    ensures d < 16
  {
    if '0' <= c <= '9' then c as int - 48
    else if 'a' <= c <= 'f' then c as int - 87
    else c as int - 55
  }

  /** `\u` followed by the four hexadecimal digits of `n`. */
  function UnicodeEscape(n: nat): (r: string)
    requires n < 0x1_0000
    ensures |r| == 6
  {
    var q1 := n / 16;
    var q2 := q1 / 16;
    var q3 := q2 / 16;
    "\\u" + [HexDigit(q3), HexDigit(q2 % 16), HexDigit(q1 % 16), HexDigit(n % 16)]
  }

  /** How Go's encoder writes one character inside a string literal (older Go
      versions: `\b` and `\f` are written as `\u` escapes). */
  function EscapeChar(c: char): string {
    if c == '"' || c == '\\' then ['\\', c]
    else if c == '\n' then "\\n"
    else if c == '\r' then "\\r"
    else if c == '\t' then "\\t"
    else if NeedsUnicodeEscape(c) then UnicodeEscape(c as int)
    else [c]
  }

  function Escape(s: string): string {
    if s == [] then [] else EscapeChar(s[0]) + Escape(s[1..])
  }

  function Quote(s: string): string {
    "\"" + Escape(s) + "\""
  }

  /** Reads the escape sequence at the front of `s`, which starts with a
      backslash: the eight JSON short forms, or `\u` and four hexadecimal
      digits naming a character other than a surrogate. */
  function ParseEscape(s: string): (r: Option<(char, string)>)
    ensures r.Some? ==> |r.value.1| < |s|
  {
    if |s| < 2 then None
    else if s[1] == '"' || s[1] == '\\' || s[1] == '/' then Some((s[1], s[2..]))
    else if s[1] == 'n' then Some(('\n', s[2..]))
    else if s[1] == 'r' then Some(('\r', s[2..]))
    else if s[1] == 't' then Some(('\t', s[2..]))
    else if s[1] == 'b' then Some(('\U{8}', s[2..]))
    else if s[1] == 'f' then Some(('\U{C}', s[2..]))
    else if s[1] == 'u' && |s| >= 6 && IsHexDigit(s[2]) && IsHexDigit(s[3]) && IsHexDigit(s[4]) && IsHexDigit(s[5]) then
      var n := ((HexValue(s[2]) * 16 + HexValue(s[3])) * 16 + HexValue(s[4])) * 16 + HexValue(s[5]);
      if 0xD800 <= n < 0xE000 then None else Some((n as char, s[6..]))
    else None
  }

  /** Reads the body of a string literal up to and including its closing
      quote, returning the unescaped text and what follows. A bare control
      character is refused, as JSON requires. */
  function ParseStringBody(s: string): (r: Option<(string, string)>)
    ensures r.Some? ==> |r.value.1| < |s|
    decreases |s|
  {
    if s == [] then None
    else if s[0] == '"' then Some(([], s[1..]))
    else if s[0] == '\\' then
      match ParseEscape(s)
      case None => None
      case Some(e) =>
        match ParseStringBody(e.1)
        case None => None
        case Some(p) => Some(([e.0] + p.0, p.1))
    else if s[0] as int < 0x20 then None
    else
      match ParseStringBody(s[1..])
      case None => None
      case Some(p) => Some(([s[0]] + p.0, p.1))
  }

  function ParseString(s: string): (r: Option<(string, string)>)
    ensures r.Some? ==> |r.value.1| < |s|
  {
    if |s| > 0 && s[0] == '"' then ParseStringBody(s[1..]) else None
  }

  lemma HexDigitValue(d: nat)
    requires d < 16
    ensures HexValue(HexDigit(d)) == d
  {
  }

  /** The four digits of `UnicodeEscape(n)` denote `n`. */
  lemma UnicodeEscapeValue(n: nat)
    requires n < 0x1_0000
    ensures var e := UnicodeEscape(n);
            && e[0] == '\\' && e[1] == 'u'
            && IsHexDigit(e[2]) && IsHexDigit(e[3]) && IsHexDigit(e[4]) && IsHexDigit(e[5])
            && ((HexValue(e[2]) * 16 + HexValue(e[3])) * 16 + HexValue(e[4])) * 16 + HexValue(e[5]) == n
  {
    var q1 := n / 16;
    var q2 := q1 / 16;
    var q3 := q2 / 16;
    HexDigitValue(q3);
    HexDigitValue(q2 % 16);
    HexDigitValue(q1 % 16);
    HexDigitValue(n % 16);
    assert q3 * 16 + q2 % 16 == q2;
    assert q2 * 16 + q1 % 16 == q1;
    assert q1 * 16 + n % 16 == n;
  }

  lemma UnicodeEscapeParses(c: char, rest: string)
    requires c as int < 0x1_0000
    ensures ParseEscape(UnicodeEscape(c as int) + rest) == Some((c, rest))
  {
    var e := UnicodeEscape(c as int);
    UnicodeEscapeValue(c as int);
    var s := e + rest;
    assert s[..6] == e && s[6..] == rest;
    assert s[1] == 'u' && s[2] == e[2] && s[3] == e[3] && s[4] == e[4] && s[5] == e[5];
  }

  /** Each escaped character reads back as itself; a character written bare
      is one the string body takes as it is. */
  lemma EscapeCharParses(c: char, rest: string)
    ensures |EscapeChar(c)| > 0
    ensures EscapeChar(c)[0] == '\\' ==> ParseEscape(EscapeChar(c) + rest) == Some((c, rest))
    ensures EscapeChar(c)[0] != '\\' ==> EscapeChar(c) == [c] && c != '"' && c != '\\' && c as int >= 0x20
  {
    if !(c == '"' || c == '\\' || c == '\n' || c == '\r' || c == '\t') && NeedsUnicodeEscape(c) {
      UnicodeEscapeParses(c, rest);
    }
  }

  lemma {:induction false} ParseEscaped(s: string, rest: string)
    ensures ParseStringBody(Escape(s) + "\"" + rest) == Some((s, rest))
  {
    if s == [] {
      assert Escape(s) + "\"" + rest == "\"" + rest;
    } else {
      var tail := Escape(s[1..]) + "\"" + rest;
      Assoc(EscapeChar(s[0]) + Escape(s[1..]), "\"", rest);
      Assoc(EscapeChar(s[0]), Escape(s[1..]), "\"" + rest);
      Assoc(Escape(s[1..]), "\"", rest);
      assert Escape(s) + "\"" + rest == EscapeChar(s[0]) + tail;
      EscapeCharParses(s[0], tail);
      ParseEscaped(s[1..], rest);
      if EscapeChar(s[0])[0] != '\\' {
        assert ([s[0]] + tail)[1..] == tail;
      }
      assert [s[0]] + s[1..] == s;
    }
  }

  lemma ParseQuoted(s: string, rest: string)
    ensures ParseString(Quote(s) + rest) == Some((s, rest))
  {
    assert Quote(s) + rest == "\"" + (Escape(s) + "\"" + rest);
    ParseEscaped(s, rest);
  }

  // ----- integers -----

  predicate IsDigit(c: char) {
    '0' <= c <= '9'
  }

  predicate AllDigits(s: string) {
    forall i :: 0 <= i < |s| ==> IsDigit(s[i])
  }

  function DigitChar(d: nat): (c: char)
    requires d < 10
    ensures IsDigit(c)
  {
    (48 + d) as char
  }

  function DigitValue(c: char): (d: nat)
    requires IsDigit(c)
    ensures d < 10
  {
    c as int - 48
  }

  /** Decimal text of a natural number, most significant digit first. */
  function NatText(n: nat): (r: string)
    ensures |r| > 0 && AllDigits(r)
    decreases n
  {
    if n < 10 then [DigitChar(n)] else NatText(n / 10) + [DigitChar(n % 10)]
  }

  /** The number a run of decimal digits denotes. */
  function DigitsValue(ds: string): nat
    requires AllDigits(ds)
    decreases |ds|
  {
    if ds == [] then 0 else DigitsValue(ds[..|ds| - 1]) * 10 + DigitValue(ds[|ds| - 1])
  }

  lemma {:induction false} DigitsValueOfNatText(n: nat)
    ensures DigitsValue(NatText(n)) == n
    decreases n
  {
    if n >= 10 {
      var s := NatText(n);
      assert s[..|s| - 1] == NatText(n / 10);
      DigitsValueOfNatText(n / 10);
    }
  }

  /** Splits off the longest run of digits at the front. */
  function SpanDigits(s: string): (r: (string, string))
    ensures r.0 + r.1 == s && AllDigits(r.0)
    ensures r.1 == [] || !IsDigit(r.1[0])
    decreases |s|
  {
    if s != [] && IsDigit(s[0]) then
      var p := SpanDigits(s[1..]);
      ([s[0]] + p.0, p.1)
    else ([], s)
  }

  lemma {:induction false} SpanDigitsOf(ds: string, rest: string)
    requires AllDigits(ds)
    requires rest == [] || !IsDigit(rest[0])
    ensures SpanDigits(ds + rest) == (ds, rest)
    decreases |ds|
  {
    if ds == [] {
      assert ds + rest == rest;
    } else {
      assert (ds + rest)[0] == ds[0];
      assert (ds + rest)[1..] == ds[1..] + rest;
      SpanDigitsOf(ds[1..], rest);
      assert [ds[0]] + ds[1..] == ds;
    }
  }

  function IntText(i: int): string {
    if i < 0 then "-" + NatText(-i) else NatText(i)
  }

  /** A run of decimal digits at the front of `s`, at least one. */
  function ParseNat(s: string): (r: Option<(nat, string)>)
    ensures r.Some? ==> |r.value.1| < |s|
  {
    var p := SpanDigits(s);
    if p.0 == [] then None else Some((DigitsValue(p.0), p.1))
  }

  /** An optionally negative decimal integer at the front of `s`. */
  function ParseInt(s: string): (r: Option<(int, string)>)
    ensures r.Some? ==> |r.value.1| < |s|
  {
    if |s| > 0 && s[0] == '-' then
      match ParseNat(s[1..])
      case None => None
      case Some((n, rest)) => Some((-(n as int), rest))
    else
      match ParseNat(s)
      case None => None
      case Some((n, rest)) => Some((n, rest))
  }

  lemma {:induction false} ParseNatDigits(ds: string, rest: string)
    requires |ds| > 0 && AllDigits(ds)
    requires rest == [] || !IsDigit(rest[0])
    ensures ParseNat(ds + rest) == Some((DigitsValue(ds), rest))
  {
    SpanDigitsOf(ds, rest);
  }

  lemma {:induction false} ParseIntMinus(ds: string, rest: string)
    requires |ds| > 0 && AllDigits(ds)
    requires rest == [] || !IsDigit(rest[0])
    ensures ParseInt(['-'] + (ds + rest)) == Some((-(DigitsValue(ds) as int), rest))
  {
    var t := ds + rest;
    assert (['-'] + t)[1..] == t;
    ParseNatDigits(ds, rest);
    ParseIntNegative(['-'] + t, DigitsValue(ds), rest);
  }

  lemma ParseIntNegative(s: string, n: nat, rest: string)
    requires |s| > 0 && s[0] == '-' && ParseNat(s[1..]) == Some((n, rest))
    ensures ParseInt(s) == Some((-(n as int), rest))
  {
  }

  lemma {:induction false} ParseIntPlain(ds: string, rest: string)
    requires |ds| > 0 && AllDigits(ds)
    requires rest == [] || !IsDigit(rest[0])
    ensures ParseInt(ds + rest) == Some((DigitsValue(ds), rest))
  {
    assert (ds + rest)[0] == ds[0];
    ParseNatDigits(ds, rest);
  }

  lemma {:induction false} ParseIntText(i: int, rest: string)
    requires rest == [] || !IsDigit(rest[0])
    ensures ParseInt(IntText(i) + rest) == Some((i, rest))
  {
    if i < 0 {
      Assoc("-", NatText(-i), rest);
      ParseIntMinus(NatText(-i), rest);
      DigitsValueOfNatText(-i);
    } else {
      ParseIntPlain(NatText(i), rest);
      DigitsValueOfNatText(i);
    }
  }

  // ----- fixed text -----

  /** Consumes the literal text `lit` at the front of `s`. */
  function Literal(lit: string, s: string): (r: Option<string>)
    ensures r.Some? ==> |r.value| == |s| - |lit|
  {
    if |lit| <= |s| && s[..|lit|] == lit then Some(s[|lit|..]) else None
  }

  lemma LiteralOf(lit: string, rest: string)
    ensures Literal(lit, lit + rest) == Some(rest)
  {
    assert (lit + rest)[..|lit|] == lit;
  }

  // ----- one record -----

  const IdField := "{\"id\":"
  const DescriptionField := ",\"description\":"
  const CreatedAtField := ",\"created_at\":"
  const UpdatedAtField := ",\"updated_at\":"

  /** 0000-01-01T00:00:00Z and 9999-12-31T23:59:59Z in Unix seconds: Go's
      `time.Time.MarshalJSON` fails for a year outside 0..9999. */
  const MinMarshalableTime: int := -62167219200
  const MaxMarshalableTime: int := 253402300799

  predicate Marshalable(e: Example) {
    && MinMarshalableTime <= e.createdAt <= MaxMarshalableTime
    && MinMarshalableTime <= e.updatedAt <= MaxMarshalableTime
  }

  function EncodeExample(e: Example): string {
    IdField + Quote(e.id) + DescriptionField + Quote(e.description)
    + CreatedAtField + IntText(e.createdAt) + UpdatedAtField + IntText(e.updatedAt) + "}"
  }

  /** Reads one record. As Go's `time.Time.UnmarshalJSON`, which needs a
      four-digit year, it refuses a timestamp outside the years 0000 to 9999. */
  function ParseExample(s: string): (r: Option<(Example, string)>)
    ensures r.Some? ==> |r.value.1| < |s|
    ensures r.Some? ==> Marshalable(r.value.0)
  {
    var a :- Literal(IdField, s);
    var id :- ParseString(a);
    var b :- Literal(DescriptionField, id.1);
    var description :- ParseString(b);
    var c :- Literal(CreatedAtField, description.1);
    var createdAt :- ParseInt(c);
    var d :- Literal(UpdatedAtField, createdAt.1);
    var updatedAt :- ParseInt(d);
    var rest :- Literal("}", updatedAt.1);
    var e := Example(id.0, description.0, createdAt.0, updatedAt.0);
    if Marshalable(e) then Some((e, rest)) else None
  }

  /** The encoding of a record followed by `rest`, nested to the right. */
  function EncodeExampleThen(e: Example, rest: string): string {
    IdField + (Quote(e.id) + (DescriptionField + (Quote(e.description)
    + (CreatedAtField + (IntText(e.createdAt) + (UpdatedAtField + (IntText(e.updatedAt) + ("}" + rest))))))))
  }

  lemma Assoc(a: string, b: string, c: string)
    ensures a + b + c == a + (b + c)
  {
  }

  lemma EncodeExampleThenIs(e: Example, rest: string)
    ensures EncodeExample(e) + rest == EncodeExampleThen(e, rest)
  {
    var p1, p2, p3, p4 := IdField, Quote(e.id), DescriptionField, Quote(e.description);
    var p5, p6, p7, p8 := CreatedAtField, IntText(e.createdAt), UpdatedAtField, IntText(e.updatedAt);
    var p9 := "}";
    Assoc(p1 + p2 + p3 + p4 + p5 + p6 + p7 + p8, p9, rest);
    Assoc(p1 + p2 + p3 + p4 + p5 + p6 + p7, p8, p9 + rest);
    Assoc(p1 + p2 + p3 + p4 + p5 + p6, p7, p8 + (p9 + rest));
    Assoc(p1 + p2 + p3 + p4 + p5, p6, p7 + (p8 + (p9 + rest)));
    Assoc(p1 + p2 + p3 + p4, p5, p6 + (p7 + (p8 + (p9 + rest))));
    Assoc(p1 + p2 + p3, p4, p5 + (p6 + (p7 + (p8 + (p9 + rest)))));
    Assoc(p1 + p2, p3, p4 + (p5 + (p6 + (p7 + (p8 + (p9 + rest))))));
    Assoc(p1, p2, p3 + (p4 + (p5 + (p6 + (p7 + (p8 + (p9 + rest)))))));
  }

  lemma ParseEncodedExample(e: Example, rest: string)
    requires Marshalable(e)
    ensures ParseExample(EncodeExample(e) + rest) == Some((e, rest))
  {
    var t5 := "}" + rest;
    var t4 := IntText(e.updatedAt) + t5;
    var t3 := UpdatedAtField + t4;
    var t2 := IntText(e.createdAt) + t3;
    var t1 := CreatedAtField + t2;
    var d0 := Quote(e.description) + t1;
    var d1 := DescriptionField + d0;
    var i0 := Quote(e.id) + d1;
    EncodeExampleThenIs(e, rest);
    assert EncodeExample(e) + rest == IdField + i0;
    LiteralOf(IdField, i0);
    ParseQuoted(e.id, d1);
    LiteralOf(DescriptionField, d0);
    ParseQuoted(e.description, t1);
    LiteralOf(CreatedAtField, t2);
    ParseIntText(e.createdAt, t3);
    LiteralOf(UpdatedAtField, t4);
    ParseIntText(e.updatedAt, t5);
    LiteralOf("}", rest);
  }

  /** `json.Marshal` of one record: fails only on an out-of-range timestamp. */
  function Marshal(e: Example): (r: Option<string>)
    ensures r.Some? <==>
              && MinMarshalableTime <= e.createdAt <= MaxMarshalableTime
              && MinMarshalableTime <= e.updatedAt <= MaxMarshalableTime
    ensures r.Some? ==> |r.value| > 0 && r.value[0] == '{' && r.value[|r.value| - 1] == '}'
  {
    if Marshalable(e) then Some(EncodeExample(e)) else None
  }

  /** `json.Unmarshal` into a record: the whole payload must be one record. */
  function Unmarshal(payload: string): (r: Option<Example>)
    ensures r.Some? ==> |payload| > 0 && payload[0] == '{'
    ensures r.Some? ==> Marshal(r.value).Some?
    ensures payload == "null" ==> r.None?
  {
    match ParseExample(payload)
    case Some(p) => if p.1 == [] then Some(p.0) else None
    case None => None
  }

  /** What the service writes is what it reads back. */
  lemma UnmarshalMarshal(e: Example)
    ensures Marshal(e).Some? ==> Unmarshal(Marshal(e).value) == Some(e)
  {
    if Marshalable(e) {
      ParseEncodedExample(e, []);
      assert EncodeExample(e) + [] == EncodeExample(e);
    }
  }

  // ----- a list of records -----

  function EncodeItems(es: seq<Example>): (r: string)
    ensures es != [] ==> |r| > 0 && r[0] == '{'
  {
    if es == [] then []
    else if |es| == 1 then EncodeExample(es[0])
    else EncodeExample(es[0]) + "," + EncodeItems(es[1..])
  }

  function EncodeExamples(es: seq<Example>): string {
    "[" + EncodeItems(es) + "]"
  }

  /** Reads one or more records separated by commas, and the closing bracket. */
  function ParseItems(s: string): (r: Option<(seq<Example>, string)>)
    ensures r.Some? ==> forall i :: 0 <= i < |r.value.0| ==> Marshalable(r.value.0[i])
    decreases |s|
  {
    match ParseExample(s)
    case None => None
    case Some(p) =>
      if |p.1| > 0 && p.1[0] == ']' then Some(([p.0], p.1[1..]))
      else if |p.1| > 0 && p.1[0] == ',' then
        match ParseItems(p.1[1..])
        case None => None
        case Some(q) => Some(([p.0] + q.0, q.1))
      else None
  }

  /** One unfolding of `ParseItems` once the first record has been read. */
  lemma ParseItemsStep(s: string, e: Example, after: string)
    requires ParseExample(s) == Some((e, after))
    ensures |after| > 0 && after[0] == ']' ==> ParseItems(s) == Some(([e], after[1..]))
    ensures |after| > 0 && after[0] == ',' && ParseItems(after[1..]).Some? ==>
              ParseItems(s) == Some(([e] + ParseItems(after[1..]).value.0, ParseItems(after[1..]).value.1))
  {
  }

  lemma ParseEncodedItem(e: Example, rest: string)
    requires Marshalable(e)
    ensures ParseItems(EncodeExample(e) + "]" + rest) == Some(([e], rest))
  {
    Assoc(EncodeExample(e), "]", rest);
    ParseEncodedExample(e, "]" + rest);
    ParseItemsStep(EncodeExample(e) + "]" + rest, e, "]" + rest);
  }

  /** Splits the list text into its first record and the remainder. */
  lemma EncodeItemsSplit(es: seq<Example>, rest: string)
    requires |es| > 1
    ensures EncodeItems(es) + "]" + rest == EncodeExample(es[0]) + ("," + (EncodeItems(es[1..]) + "]" + rest))
  {
    var first, others := EncodeExample(es[0]), EncodeItems(es[1..]);
    assert EncodeItems(es) == first + "," + others;
    Assoc(first + "," + others, "]", rest);
    Assoc(first + ",", others, "]" + rest);
    Assoc(first, ",", others + ("]" + rest));
    Assoc(others, "]", rest);
  }

  /** A record and a comma in front of a parsable list extend it by that record. */
  lemma ParseItemsCons(e: Example, tail: string, more: seq<Example>, rest: string)
    requires Marshalable(e)
    requires ParseItems(tail) == Some((more, rest))
    ensures ParseItems(EncodeExample(e) + ("," + tail)) == Some(([e] + more, rest))
  {
    ParseEncodedExample(e, "," + tail);
    assert ("," + tail)[1..] == tail;
    ParseItemsStep(EncodeExample(e) + ("," + tail), e, "," + tail);
  }

  lemma {:induction false} ParseEncodedItems(es: seq<Example>, rest: string)
    requires es != [] && forall i :: 0 <= i < |es| ==> Marshalable(es[i])
    ensures ParseItems(EncodeItems(es) + "]" + rest) == Some((es, rest))
    decreases |es|
  {
    if |es| == 1 {
      ParseEncodedItem(es[0], rest);
      assert [es[0]] == es;
    } else {
      EncodeItemsSplit(es, rest);
      ParseEncodedItems(es[1..], rest);
      ParseItemsCons(es[0], EncodeItems(es[1..]) + "]" + rest, es[1..], rest);
      assert [es[0]] + es[1..] == es;
    }
  }

  /** `json.Marshal` of a slice of records. */
  function MarshalList(es: seq<Example>): (r: Option<string>)
    ensures r.Some? <==> forall i :: 0 <= i < |es| ==> Marshal(es[i]).Some?
    ensures r.Some? ==> |r.value| >= 2 && r.value[0] == '[' && r.value[|r.value| - 1] == ']'
    ensures es == [] ==> r == Some("[]")
  {
    assert es == [] ==> EncodeItems(es) == [] && EncodeExamples(es) == "[" + [] + "]" == "[]";
    if forall i :: 0 <= i < |es| ==> Marshalable(es[i]) then Some(EncodeExamples(es)) else None
  }

  /** `json.Unmarshal` into a slice of records; `null` is a nil, that is empty, slice. */
  function UnmarshalList(payload: string): (r: Option<seq<Example>>)
    ensures payload == "null" ==> r == Some([])
    ensures payload == "[]" ==> r == Some([])
    ensures r.Some? ==> payload == "null" || (|payload| >= 2 && payload[0] == '[')
    ensures r.Some? ==> MarshalList(r.value).Some?
  {
    if payload == "null" then Some([])
    else if |payload| >= 2 && payload[0] == '[' then
      if payload[1] == ']' then
        if |payload| == 2 then Some([]) else None
      else
        match ParseItems(payload[1..])
        case Some(p) => if p.1 == [] then Some(p.0) else None
        case None => None
    else None
  }

  /** What the service writes for a collection is what it reads back, in order. */
  lemma UnmarshalMarshalList(es: seq<Example>)
    ensures MarshalList(es).Some? ==> UnmarshalList(MarshalList(es).value) == Some(es)
  {
    if MarshalList(es).Some? && es != [] {
      var items := EncodeItems(es);
      var payload := EncodeExamples(es);
      Assoc("[", items, "]");
      assert payload[1..] == items + "]";
      assert payload[1] == items[0];
      assert items + "]" + [] == items + "]";
      ParseEncodedItems(es, []);
      UnmarshalListItems(payload, es);
    }
  }

  lemma UnmarshalListItems(payload: string, es: seq<Example>)
    requires |payload| >= 2 && payload[0] == '[' && payload[1] != ']'
    requires ParseItems(payload[1..]) == Some((es, []))
    ensures UnmarshalList(payload) == Some(es)
  {
  }

  /** The undecodable payload the service tests plant in the cache decodes
      neither as a record nor as a list. */
  lemma GarbageIsUndecodable()
    ensures Unmarshal("abczd{>") == None
    ensures UnmarshalList("abczd{>") == None
  {
    assert "abczd{>"[..|IdField|] != IdField by {
      assert "abczd{>"[0] != IdField[0];
    }
  }
}
