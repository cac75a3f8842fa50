/** The COPYUID response code (RFC 2359, section 4.3 of RFC 6851):
    "COPYUID" SP uidvalidity SP source-uids SP target-uids.

    The UIDVALIDITY is rendered as Java renders a `long` in a string
    concatenation: decimal digits, with a leading '-' for a negative value.
    The two UID lists are rendered by the id-range encoder, which is not part
    of this model; it is passed in as `rangeString`. */
module CopyUid {

  const SP := " "
  const CopyUidTag := "COPYUID"

  predicate IsDigit(c: char)
  {
    '0' <= c <= '9'
  }

  predicate AllDigits(s: string)
  {
    forall i :: 0 <= i < |s| ==> IsDigit(s[i])
  }

  function DigitChar(d: nat): (c: char)
    requires d < 10
    ensures IsDigit(c) && c as int - '0' as int == d
  {
    ('0' as int + d) as char
  }

  /** Decimal digits of `n`, most significant first, without leading zeros. */
  function NatDigits(n: nat): (s: string)
    ensures |s| >= 1
    ensures AllDigits(s)
    ensures s[0] == '0' ==> n == 0
  {
    if n < 10 then [DigitChar(n)] else NatDigits(n / 10) + [DigitChar(n % 10)]
  }

  /** The value of a string of decimal digits. */
  function ParseNat(s: string): nat
    requires AllDigits(s)
  {
    if s == [] then 0
    else ParseNat(s[..|s| - 1]) * 10 + (s[|s| - 1] as int - '0' as int)
  }

  /** How a Java `long` appears when concatenated into a string. */
  function Decimal(v: int): (s: string)
    ensures |s| >= 1 && ' ' !in s
  {
    if v < 0 then "-" + NatDigits(-v) else NatDigits(v)
  }

  /** The number a `Decimal` rendering denotes (0 for text that is not one). */
  function ParseDecimal(s: string): int
  {
    if |s| >= 1 && s[0] == '-' && AllDigits(s[1..]) then -(ParseNat(s[1..]) as int)
    else if AllDigits(s) then ParseNat(s)
    else 0
  }

  /** Reading back the digits of a natural number gives the number. */
  lemma {:induction false} NatDigitsRoundTrip(n: nat)
    ensures ParseNat(NatDigits(n)) == n
  {
    if n >= 10 {
      NatDigitsRoundTrip(n / 10);
      var s := NatDigits(n);
      assert s[..|s| - 1] == NatDigits(n / 10);
    }
  }

  /** The UIDVALIDITY rendering can be read back. */
  lemma DecimalRoundTrip(v: int)
    ensures ParseDecimal(Decimal(v)) == v
  {
    if v < 0 {
      NatDigitsRoundTrip(-v);
      assert Decimal(v)[1..] == NatDigits(-v);
    } else {
      NatDigitsRoundTrip(v);
      assert IsDigit(Decimal(v)[0]);
    }
  }

  /** The fields of `s` between single spaces, the way an IMAP client reads a
      response code's arguments (two spaces in a row give an empty field). */
  function Fields(s: string): (r: seq<string>)
    ensures |r| >= 1
    ensures forall f :: f in r ==> ' ' !in f
  {
    if s == [] then [""]
    else if s[0] == ' ' then [""] + Fields(s[1..])
    else
      var rest := Fields(s[1..]);
      [[s[0]] + rest[0]] + rest[1..]
  }

  /** A string without spaces is one field. */
  lemma {:induction false} FieldsOfWord(a: string)
    requires ' ' !in a
    ensures Fields(a) == [a]
  {
    if a != [] {
      FieldsOfWord(a[1..]);
      assert [a[0]] + a[1..] == a;
    }
  }

  /** A field followed by a space and more text splits off as the first field. */
  lemma {:induction false} FieldsOfJoin(a: string, b: string)
    requires ' ' !in a
    ensures Fields(a + SP + b) == [a] + Fields(b)
  {
    if a == [] {
      assert a + SP + b == [' '] + b;
      assert ([' '] + b)[1..] == b;
    } else {
      FieldsOfJoin(a[1..], b);
      assert (a + SP + b)[1..] == a[1..] + SP + b;
      assert [a[0]] + a[1..] == a;
    }
  }

  /** The response code text the command sends in UID mode: the tag, then
      the UIDVALIDITY and the two encoded lists, each after one space, and
      nothing else (`CopyUidCodeFields` reads the parts back). */
  function CopyUidCode(uidValidity: int, sourceUids: seq<int>, targetUids: seq<int>,
                       rangeString: seq<int> -> string): (code: string)
    ensures CopyUidTag + SP <= code
    ensures |code| == |CopyUidTag| + |Decimal(uidValidity)| + |rangeString(sourceUids)|
                      + |rangeString(targetUids)| + 3 * |SP|
  {
    CopyUidTag + SP + Decimal(uidValidity) + SP + rangeString(sourceUids) + SP + rangeString(targetUids)
  }

  /** A client that splits the code at its spaces reads back the tag, the
      destination's UIDVALIDITY, and the two encoded lists in the order
      old, new -- provided the range encoding itself writes no space. */
  lemma CopyUidCodeFields(uidValidity: int, sourceUids: seq<int>, targetUids: seq<int>,
                          rangeString: seq<int> -> string)
    requires ' ' !in rangeString(sourceUids) && ' ' !in rangeString(targetUids)
    ensures var f := Fields(CopyUidCode(uidValidity, sourceUids, targetUids, rangeString));
            |f| == 4 && f[0] == CopyUidTag && ParseDecimal(f[1]) == uidValidity &&
            f[2] == rangeString(sourceUids) && f[3] == rangeString(targetUids)
  {
    var v, src, dst := Decimal(uidValidity), rangeString(sourceUids), rangeString(targetUids);
    FieldsOfWord(dst);
    FieldsOfJoin(src, dst);
    FieldsOfJoin(v, src + SP + dst);
    FieldsOfJoin(CopyUidTag, v + SP + (src + SP + dst));
    assert CopyUidCode(uidValidity, sourceUids, targetUids, rangeString)
        == CopyUidTag + SP + (v + SP + (src + SP + dst));
    DecimalRoundTrip(uidValidity);
  }
}
