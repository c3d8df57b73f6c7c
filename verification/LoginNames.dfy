/** The names of the runtime logins the kit makes. */
module LoginNames {
  import opened Text

  const MAX_IDENTIFIER_BYTES := 63

  /** A character's length in UTF-8. */
  function Utf8Length(c: char): nat {
    if c < '\U{80}' then 1 else if c < '\U{800}' then 2 else if c < '\U{10000}' then 3 else 4
  }

  function ByteLength(s: string): nat { if s == "" then 0 else Utf8Length(s[0]) + ByteLength(s[1..]) }

  predicate FitsIdentifier(name: string) { ByteLength(name) <= MAX_IDENTIFIER_BYTES }

  function DefaultLoginName(schema: string): string { schema + "_app" }

  function Stem(schema: string): string { schema + "_app_" }

  predicate LowerOrDigit(c: char) { 'a' <= c <= 'z' || IsDigit(c) }

  predicate IsKitLoginName(schema: string, name: string) {
    && Stem(schema) <= name
    && var suffix := name[|Stem(schema)|..];
    1 <= |suffix| <= 24 && (forall c | c in suffix :: LowerOrDigit(c)) && FitsIdentifier(name)
  }

  /** A kit login with a twelve-digit timestamp. */
  predicate IsRotatedLoginName(schema: string, name: string) {
    && Stem(schema) <= name
    && var suffix := name[|Stem(schema)|..];
    |suffix| == 12 && (forall c | c in suffix :: IsDigit(c)) && FitsIdentifier(name)
  }

  /** A rotated login is a kit login, and never the default one. */
  lemma RotatedIsKit(schema: string, name: string)
    requires IsRotatedLoginName(schema, name)
    ensures IsKitLoginName(schema, name) && name != DefaultLoginName(schema)
  {
  }

  // ---------------------------------------------------------------------------
  //  The names, spelled out.
  // ---------------------------------------------------------------------------

  lemma SuffixOf(stem: string, suffix: string)
    ensures stem <= stem + suffix && (stem + suffix)[|stem|..] == suffix
  {
  }

  /** A kit login is the schema, `_app_` and one to 24 lower-case letters or digits; a rotated one, twelve digits. */
  lemma {:induction false} NamesAre(schema: string, name: string)
    ensures IsKitLoginName(schema, name)
       <==> exists suffix: string ::
              && name == schema + "_app_" + suffix && 1 <= |suffix| <= 24
              && (forall c | c in suffix :: 'a' <= c <= 'z' || '0' <= c <= '9') && |Utf8(name)| <= 63
    ensures IsRotatedLoginName(schema, name)
       <==> exists suffix: string ::
              && name == schema + "_app_" + suffix && |suffix| == 12
              && (forall c | c in suffix :: '0' <= c <= '9') && |Utf8(name)| <= 63
    ensures DefaultLoginName(schema) == schema + "_app"
  {
    hide ByteLength, Utf8;
    BytesAre(name);
    forall suffix: string | name == schema + "_app_" + suffix
      ensures Stem(schema) <= name && name[|Stem(schema)|..] == suffix
    {
      SuffixOf(Stem(schema), suffix);
    }
    if Stem(schema) <= name {
      var suffix := name[|Stem(schema)|..];
      assert name == schema + "_app_" + suffix;
    }
  }

  /** A character's bytes in UTF-8 (RFC 3629, section 3). */
  function Utf8Of(c: char): seq<int> {
    var n := c as int;
    if n <= 0x7F then [n]
    else if n <= 0x7FF then [0xC0 + n / 64, 0x80 + n % 64]
    else if n <= 0xFFFF then [0xE0 + n / 4096, 0x80 + n / 64 % 64, 0x80 + n % 64]
    else [0xF0 + n / 262144, 0x80 + n / 4096 % 64, 0x80 + n / 64 % 64, 0x80 + n % 64]
  }

  function Utf8(s: string): seq<int> { if s == "" then [] else Utf8Of(s[0]) + Utf8(s[1..]) }

  lemma {:induction false} BytesAre(s: string)
    ensures ByteLength(s) == |Utf8(s)|
  {
    hide Utf8Of;
    if s != "" {
      CharBytes(s[0]);
      BytesAre(s[1..]);
    }
  }

  lemma CharBytes(c: char)
    ensures Utf8Length(c) == |Utf8Of(c)|
  {
  }

  /** The code point the bytes of one character spell. */
  function CodePoint(b: seq<int>): int {
    if |b| == 1 then b[0]
    else if |b| == 2 then (b[0] - 0xC0) * 64 + (b[1] - 0x80)
    else if |b| == 3 then (b[0] - 0xE0) * 4096 + (b[1] - 0x80) * 64 + (b[2] - 0x80)
    else if |b| == 4 then (b[0] - 0xF0) * 262144 + (b[1] - 0x80) * 4096 + (b[2] - 0x80) * 64 + (b[3] - 0x80)
    else -1
  }

  /** The bytes of a character spell it, and a first byte tells how many there are. */
  lemma {:induction false} Utf8Reads(c: char)
    ensures CodePoint(Utf8Of(c)) == c as int
    ensures var b := Utf8Of(c)[0];
            |Utf8Of(c)| == if b < 0x80 then 1 else if b < 0xE0 then 2 else if b < 0xF0 then 3 else 4
  {
    Places(c as int);
  }

  lemma Places(n: nat)
    ensures n / 64 * 64 + n % 64 == n
    ensures n / 4096 * 4096 + n / 64 % 64 * 64 + n % 64 == n
    ensures n / 262144 * 262144 + n / 4096 % 64 * 4096 + n / 64 % 64 * 64 + n % 64 == n
  {
    assert n / 64 / 64 == n / 4096 && n / 64 / 64 / 64 == n / 262144;
    assert n / 64 == n / 64 / 64 * 64 + n / 64 % 64;
    assert n / 4096 == n / 4096 / 64 * 64 + n / 4096 % 64;
  }
}
