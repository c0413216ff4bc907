/** Type-prefixed identifiers (pkg/constants/id.go): a fixed prefix naming the
    entity type followed by a 26-character ULID token. A Go `string` is a
    sequence of bytes holding UTF-8 text; here it is the sequence of Unicode
    scalar values it encodes, and `len` is its UTF-8 byte count. */
module Constants {

  /** `ulid.EncodedSize`: a ULID is written as 26 Crockford base-32 characters. */
  const UlidEncodedSize: nat := 26

  /** The alphabet `ulid.ULID.String()` writes a ULID in. */
  const CrockfordBase32 := "0123456789ABCDEFGHJKMNPQRSTVWXYZ"

  /** The text `ulid.Make().String()` yields. */
  predicate IsUlidText(token: string) {
    |token| == UlidEncodedSize && forall i :: 0 <= i < |token| ==> token[i] in CrockfordBase32
  }

  /** The number of bytes UTF-8 uses for one scalar value. */
  function Utf8Width(c: char): (n: nat)
    ensures 1 <= n <= 4
    ensures n == 1 <==> c as int < 0x80
  {
    if c as int < 0x80 then 1
    else if c as int < 0x800 then 2
    else if c as int < 0x1_0000 then 3
    else 4
  }

  /** Go's `len` of a string: its length in UTF-8 bytes. */
  function Utf8Len(s: string): (n: nat)
    ensures |s| <= n <= 4 * |s|
  {
    if s == [] then 0 else Utf8Width(s[0]) + Utf8Len(s[1..])
  }

  lemma {:induction false} Utf8LenAppend(a: string, b: string)
    ensures Utf8Len(a + b) == Utf8Len(a) + Utf8Len(b)
  {
    if a == [] {
      assert a + b == b;
    } else {
      assert (a + b)[0] == a[0];
      assert (a + b)[1..] == a[1..] + b;
      Utf8LenAppend(a[1..], b);
    }
  }

  /** A string is never shorter in bytes than in scalar values, and an ASCII
      string, a ULID among them, has as many bytes as characters. */
  lemma {:induction false} Utf8LenBounds(s: string)
    ensures |s| <= Utf8Len(s)
    ensures (forall i :: 0 <= i < |s| ==> s[i] as int < 0x80) ==> Utf8Len(s) == |s|
  {
    if s != [] {
      Utf8LenBounds(s[1..]);
      assert forall i :: 0 <= i < |s| - 1 ==> s[1..][i] == s[i + 1];
    }
  }

  lemma UlidTextLength(token: string)
    requires IsUlidText(token)
    ensures Utf8Len(token) == UlidEncodedSize
  {
    assert forall i :: 0 <= i < |token| ==> token[i] as int < 0x80;
    Utf8LenBounds(token);
  }

  /** `strings.HasPrefix`. Compared by scalar values: on UTF-8 text a byte
      prefix that is itself valid UTF-8 is exactly a prefix of scalar values. */
  predicate HasPrefix(s: string, prefix: string) {
    |prefix| <= |s| && s[..|prefix|] == prefix
  }

  /** `HasPrefix` holds exactly when the string is the prefix followed by something. */
  lemma HasPrefixIff(s: string, prefix: string)
    ensures HasPrefix(s, prefix) <==> exists tail :: s == prefix + tail
  {
    if HasPrefix(s, prefix) {
      assert s == prefix + s[|prefix|..];
    }
    if exists tail :: s == prefix + tail {
      var tail :| s == prefix + tail;
      assert s[..|prefix|] == prefix;
    }
  }

  /** `DataPrefix`, a string type naming an entity type. */
  datatype DataPrefix = DataPrefix(text: string) {

    function String(): (s: string)
      ensures DataPrefix(s) == this
    {
      text
    }

    /** A candidate is an identifier of this type when it starts with the
        prefix and its byte length is that of the prefix plus one ULID. */
    predicate IsValid(s: string)
      ensures IsValid(s) ==> |text| <= |s| && Utf8Len(s) >= UlidEncodedSize
    {
      HasPrefix(s, text) && Utf8Len(s) == Utf8Len(text) + UlidEncodedSize
    }
  }

  /** The prefix of `Example` identifiers. */
  const Example: DataPrefix := DataPrefix("exmp_")

  /** `GenerateDataPrefixWithULID`; the output of `ulid.Make().String()`, which
      depends on the clock and on randomness, is the parameter `token`. */
  function GenerateDataPrefixWithUlid(prefix: DataPrefix, token: string): (id: string)
    ensures HasPrefix(id, prefix.text)
    ensures Utf8Len(id) == Utf8Len(prefix.text) + Utf8Len(token)
  {
    Utf8LenAppend(prefix.text, token);
    prefix.text + token
  }

  /** `String()` gives back the prefix text, and the text gives back the prefix. */
  lemma StringRoundTrip(p: DataPrefix)
    ensures p.String() == p.text
    ensures DataPrefix(p.String()) == p
  {
  }

  /** `IsValid` is exactly a character-wise prefix comparison plus a byte-length check. */
  lemma IsValidIff(p: DataPrefix, s: string)
    ensures p.IsValid(s) <==>
              && Utf8Len(s) == Utf8Len(p.text) + UlidEncodedSize
              && |p.text| <= |s|
              && forall i :: 0 <= i < |p.text| ==> s[i] == p.text[i]
  {
    if |p.text| <= |s| && forall i :: 0 <= i < |p.text| ==> s[i] == p.text[i] {
      assert s[..|p.text|] == p.text;
    }
  }

  /** The valid identifiers of a type are exactly the prefix followed by a
      26-byte token. */
  lemma IsValidIffGenerated(p: DataPrefix, s: string)
    ensures p.IsValid(s) <==>
              exists token :: Utf8Len(token) == UlidEncodedSize && s == GenerateDataPrefixWithUlid(p, token)
  {
    if p.IsValid(s) {
      var token := s[|p.text|..];
      assert s == s[..|p.text|] + token;
      Utf8LenAppend(p.text, token);
      assert Utf8Len(token) == UlidEncodedSize && s == GenerateDataPrefixWithUlid(p, token);
    }
    if exists token :: Utf8Len(token) == UlidEncodedSize && s == GenerateDataPrefixWithUlid(p, token) {
      var token :| Utf8Len(token) == UlidEncodedSize && s == GenerateDataPrefixWithUlid(p, token);
      GeneratedIsValid(p, token);
    }
  }

  /** A generated identifier is valid and its token can be read back. */
  lemma GeneratedIsValid(p: DataPrefix, token: string)
    requires Utf8Len(token) == UlidEncodedSize
    ensures p.IsValid(GenerateDataPrefixWithUlid(p, token))
    ensures GenerateDataPrefixWithUlid(p, token)[|p.text|..] == token
  {
    var s := GenerateDataPrefixWithUlid(p, token);
    assert s[..|p.text|] == p.text;
    Utf8LenAppend(p.text, token);
  }

  /** Distinct tokens give distinct identifiers. */
  lemma GenerateInjective(p: DataPrefix, t1: string, t2: string)
    requires GenerateDataPrefixWithUlid(p, t1) == GenerateDataPrefixWithUlid(p, t2)
    ensures t1 == t2
  {
    assert t1 == GenerateDataPrefixWithUlid(p, t1)[|p.text|..];
    assert t2 == GenerateDataPrefixWithUlid(p, t2)[|p.text|..];
  }

  /** Every generated `Example` identifier is `exmp_` followed by the ULID,
      31 characters and 31 bytes in all. */
  lemma ExampleIdShape(token: string)
    requires IsUlidText(token)
    ensures var id := GenerateDataPrefixWithUlid(Example, token);
            |id| == 31 && Utf8Len(id) == 31 && id[..5] == "exmp_" && Example.IsValid(id)
  {
    UlidTextLength(token);
    GeneratedIsValid(Example, token);
    Utf8LenAppend(Example.text, token);
  }

  /** A candidate of the wrong byte length is rejected, the bare prefix included. */
  lemma IsValidRejectsWrongLength(p: DataPrefix, s: string)
    requires Utf8Len(s) != Utf8Len(p.text) + UlidEncodedSize
    ensures !p.IsValid(s)
    ensures !p.IsValid(p.text)
  {
  }

  /** A candidate that differs from the prefix at some position inside it is
      rejected, whatever its length. */
  lemma IsValidRejectsWrongPrefix(p: DataPrefix, s: string, i: nat)
    requires i < |p.text| && i < |s| && s[i] != p.text[i]
    ensures !p.IsValid(s)
  {
    IsValidIff(p, s);
  }

  /** Length is counted in bytes: after `exmp_`, one two-byte `é` and 24
      letters `A` make a valid identifier of 30 characters, while with 25
      letters (31 characters, 32 bytes) the candidate is too long. */
  lemma IsValidCountsBytes()
    ensures Example.IsValid("exmp_" + ("\U{E9}" + seq(24, _ => 'A')))
    ensures !Example.IsValid("exmp_" + ("\U{E9}" + seq(25, _ => 'A')))
  {
    var short, long := seq(24, _ => 'A'), seq(25, _ => 'A');
    Utf8LenBounds(short);
    Utf8LenBounds(long);
    assert Utf8Len("\U{E9}") == 2;
    Utf8LenAppend("\U{E9}", short);
    Utf8LenAppend("\U{E9}", long);
    GeneratedIsValid(Example, "\U{E9}" + short);
    Utf8LenAppend("exmp_", "\U{E9}" + long);
    IsValidRejectsWrongLength(Example, "exmp_" + ("\U{E9}" + long));
  }
}
