/** The store's native identifier (a 12-byte BSON ObjectId) and its
    24-character hexadecimal string form. */
module ObjectIds {

  import opened Wrappers
  import opened Ascii

  /** Number of hex digits of an identifier's string form. */
  const IdLength: nat := 24

  function Pow16(k: nat): (r: nat)
    ensures r >= 1
  {
    if k == 0 then 1 else 16 * Pow16(k - 1)
  }

  /** 16^24 = 2^96. */
  const IdBound: nat := 0x1_0000_0000_0000_0000_0000_0000

  lemma {:induction false} Pow16Add(a: nat, b: nat)
    ensures Pow16(a + b) == Pow16(a) * Pow16(b)
  {
    if a > 0 {
      Pow16Add(a - 1, b);
    }
  }

  lemma IdBoundDigits()
    ensures Pow16(IdLength) == IdBound
  {
    assert Pow16(3) == 0x1000;
    Pow16Add(3, 3);
    Pow16Add(6, 6);
    Pow16Add(12, 12);
  }

  /** A 96-bit number: the twelve bytes of an ObjectId, big-endian. */
  type ObjectId = n: nat | n < IdBound

  predicate IsHexChar(c: char) {
    '0' <= c <= '9' || 'a' <= c <= 'f' || 'A' <= c <= 'F'
  }

  predicate IsHex(s: string) {
    forall i :: 0 <= i < |s| ==> IsHexChar(s[i])
  }

  /** The strings `ObjectId(s)` accepts: exactly 24 hex digits, either case. */
  predicate IsIdString(s: string) {
    |s| == IdLength && IsHex(s)
  }

  function DigitValue(c: char): (d: nat)
    requires IsHexChar(c)
    ensures d < 16
  {
    if '0' <= c <= '9' then c as int - '0' as int
    else if 'a' <= c <= 'f' then c as int - 'a' as int + 10
    else c as int - 'A' as int + 10
  }

  function HexDigit(d: nat): (c: char)
    requires d < 16
    ensures IsHexChar(c) && !IsUpper(c)
    ensures DigitValue(c) == d
  {
    if d < 10 then (d + '0' as int) as char else (d - 10 + 'a' as int) as char
  }

  /** The last `k` hex digits of `n`, most significant first, lowercase. */
  function Format(n: nat, k: nat): (s: string)
    ensures |s| == k && IsHex(s) && IsLower(s)
  {
    if k == 0 then "" else Format(n / 16, k - 1) + [HexDigit(n % 16)]
  }

  /** The number a string of hex digits denotes, most significant first. */
  function ParseHex(s: string): (n: nat)
    requires IsHex(s)
    ensures n < Pow16(|s|)
  {
    if s == [] then 0
    else
      var init := s[..|s| - 1];
      assert IsHex(init);
      16 * ParseHex(init) + DigitValue(s[|s| - 1])
  }

  /** `str(oid)`: the identifier's 24 lowercase hex digits. */
  function IdString(id: ObjectId): (s: string)
    ensures IsIdString(s) && IsLower(s)
  {
    Format(id, IdLength)
  }

  /** `ObjectId(s)`: `None` where the constructor raises `InvalidId`. */
  function ParseId(s: string): (r: Option<ObjectId>)
    ensures r.Some? <==> IsIdString(s)
  {
    IdBoundDigits();
    if IsIdString(s) then Some(ParseHex(s) as ObjectId) else None
  }

  lemma {:induction false} ParseFormat(n: nat, k: nat)
    requires n < Pow16(k)
    ensures ParseHex(Format(n, k)) == n
  {
    if k > 0 {
      var s := Format(n, k);
      assert s[..|s| - 1] == Format(n / 16, k - 1);
      assert n / 16 < Pow16(k - 1);
      ParseFormat(n / 16, k - 1);
    }
  }

  lemma HexDigitOfValue(c: char)
    requires IsHexChar(c)
    ensures HexDigit(DigitValue(c)) == LowerChar(c)
  {
  }

  lemma {:induction false} FormatParse(s: string)
    requires IsHex(s)
    ensures Format(ParseHex(s), |s|) == Lower(s)
  {
    if s != [] {
      var init := s[..|s| - 1];
      var c := s[|s| - 1];
      assert IsHex(init);
      var n := ParseHex(s);
      assert n == 16 * ParseHex(init) + DigitValue(c);
      assert n / 16 == ParseHex(init) && n % 16 == DigitValue(c);
      FormatParse(init);
      HexDigitOfValue(c);
      assert Lower(s) == Lower(init) + [LowerChar(c)];
    }
  }

  /** Rendering an identifier and parsing it back gives the identifier. */
  lemma IdRoundTrip(id: ObjectId)
    ensures ParseId(IdString(id)) == Some(id)
  {
    IdBoundDigits();
    ParseFormat(id, IdLength);
  }

  /** A parsed identifier renders as the lowercased input: two strings that
      differ only in the case of their hex letters name the same record. */
  lemma ParsedIdString(s: string)
    requires IsIdString(s)
    ensures ParseId(s).Some? && IdString(ParseId(s).value) == Lower(s)
  {
    FormatParse(s);
  }
}
