/** SQL Server log sequence numbers: ten big-endian bytes, and their text as a position. */
module Lsn {
  import opened Bytes
  import opened Options
  import opened Text

  type Lsn = seq<byte>

  const LSN_LEN: nat := 10

  /** compareLSN: byte by byte, a prefix first. */
  function Compare(a: Lsn, b: Lsn): int {
    if a == [] then (if b == [] then 0 else -1)
    else if b == [] then 1
    else if a[0] < b[0] then -1
    else if a[0] > b[0] then 1
    else Compare(a[1..], b[1..])
  }

  /** A total order in which only equal numbers compare equal. */
  lemma {:induction false} CompareIsAntisymmetric(a: Lsn, b: Lsn)
    ensures Compare(a, b) == 0 <==> a == b
    ensures Compare(a, b) == -Compare(b, a)
  {
    if a != [] && b != [] {
      CompareIsAntisymmetric(a[1..], b[1..]);
      assert a == [a[0]] + a[1..] && b == [b[0]] + b[1..];
    }
  }

  lemma {:induction false} CompareIsTransitive(a: Lsn, b: Lsn, c: Lsn)
    requires Compare(a, b) <= 0 && Compare(b, c) <= 0
    ensures Compare(a, c) <= 0
    ensures Compare(a, b) < 0 || Compare(b, c) < 0 ==> Compare(a, c) < 0
  {
    if a != [] && b != [] && c != [] && a[0] == b[0] == c[0] {
      CompareIsTransitive(a[1..], b[1..], c[1..]);
    }
  }

  // ---- as numbers -------------------------------------------------------------------

  function Power(n: nat): nat { if n == 0 then 1 else 256 * Power(n - 1) }

  function Value(a: Lsn): nat {
    if a == [] then 0 else (a[0] as nat) * Power(|a| - 1) + Value(a[1..])
  }

  lemma {:induction false} ValueIsBounded(a: Lsn)
    ensures Value(a) < Power(|a|)
  {
    if a != [] {
      ValueIsBounded(a[1..]);
      DigitFits(a[0] as nat, 255, Power(|a| - 1));
    }
  }

  lemma DigitFits(d: nat, e: nat, p: nat)
    requires d <= e
    ensures d * p + p <= e * p + p
  {
  }

  /** Comparing the bytes of two numbers of one width is comparing the numbers. */
  lemma {:induction false} CompareIsNumeric(a: Lsn, b: Lsn)
    requires |a| == |b|
    ensures Compare(a, b) < 0 <==> Value(a) < Value(b)
    ensures Compare(a, b) == 0 <==> Value(a) == Value(b)
  {
    if a != [] {
      CompareIsNumeric(a[1..], b[1..]);
      ValueIsBounded(a[1..]);
      ValueIsBounded(b[1..]);
      var p := Power(|a| - 1);
      if a[0] < b[0] {
        DigitBelow(a[0] as nat, b[0] as nat, p);
      } else if b[0] < a[0] {
        DigitBelow(b[0] as nat, a[0] as nat, p);
      }
    }
  }

  lemma DigitBelow(d: nat, e: nat, p: nat)
    requires d < e
    ensures d * p + p <= e * p
  {
    assert (d + 1) * p <= e * p by {
      DigitFits(d + 1, e, p);
    }
  }

  // ---- as text ----------------------------------------------------------------------

  function Digit(n: nat): char
    requires n < 16
  {
    if n < 10 then '0' + n as char else 'A' + (n - 10) as char
  }

  function EncodeHex(a: Lsn): string {
    if a == [] then "" else [Digit(a[0] as nat / 16), Digit(a[0] as nat % 16)] + EncodeHex(a[1..])
  }

  function Position(a: Lsn): string { "0x" + EncodeHex(a) }

  function Nibble(c: char): Option<nat> {
    if '0' <= c <= '9' then Some((c - '0') as nat)
    else if 'a' <= c <= 'f' then Some((c - 'a') as nat + 10)
    else if 'A' <= c <= 'F' then Some((c - 'A') as nat + 10)
    else None
  }

  /** hex.DecodeString: two digits a byte, nothing left over. */
  function DecodeHex(s: string): Option<Lsn> {
    if s == [] then Some([])
    else if |s| == 1 then None
    else
      match (Nibble(s[0]), Nibble(s[1]), DecodeHex(s[2..]))
      case (Some(high), Some(low), Some(rest)) =>
        if high < 16 && low < 16 then Some([(high * 16 + low) as byte] + rest) else None
      case _ => None
  }

  function ParsePosition(p: string): Option<Lsn> {
    var text := Lowered(p);
    if |text| < 2 || text[..2] != "0x" then None
    else
      match DecodeHex(text[2..])
      case Some(lsn) => if |lsn| == LSN_LEN then Some(lsn) else None
      case None => None
  }

  /** One byte of the text, and its two digits back. */
  lemma ByteAgrees(c: char, d: char, rest: Lsn)
    requires Nibble(ToLower(c)).Some? && Nibble(ToLower(d)).Some?
    ensures var high, low := Nibble(ToLower(c)).value, Nibble(ToLower(d)).value;
      && high < 16 && low < 16
      && EncodeHex([(high * 16 + low) as byte] + rest) == [ToUpper(c), ToUpper(d)] + EncodeHex(rest)
  {
    DigitsAgree(c);
    DigitsAgree(d);
    var high, low := Nibble(ToLower(c)).value, Nibble(ToLower(d)).value;
    var all := [(high * 16 + low) as byte] + rest;
    assert all[1..] == rest;
    assert (high * 16 + low) / 16 == high && (high * 16 + low) % 16 == low;
  }

  lemma TwoLowered(s: string)
    requires |s| >= 2
    ensures Lowered(s) == [ToLower(s[0]), ToLower(s[1])] + Lowered(s[2..])
  {
    var r := [ToLower(s[0]), ToLower(s[1])] + Lowered(s[2..]);
    forall i | 0 <= i < |s| ensures Lowered(s)[i] == r[i] {
      assert i >= 2 ==> s[2..][i - 2] == s[i];
    }
  }

  lemma TwoRaised(s: string)
    requires |s| >= 2
    ensures Raised(s) == [ToUpper(s[0]), ToUpper(s[1])] + Raised(s[2..])
  {
    var r := [ToUpper(s[0]), ToUpper(s[1])] + Raised(s[2..]);
    forall i | 0 <= i < |s| ensures Raised(s)[i] == r[i] {
      assert i >= 2 ==> s[2..][i - 2] == s[i];
    }
  }

  lemma ByteDecodes(b: byte, rest: string)
    requires DecodeHex(rest).Some?
    ensures var high, low := ToLower(Digit(b as nat / 16)), ToLower(Digit(b as nat % 16));
      DecodeHex([high, low] + rest) == Some([b] + DecodeHex(rest).value)
  {
    var high, low := ToLower(Digit(b as nat / 16)), ToLower(Digit(b as nat % 16));
    assert ([high, low] + rest)[2..] == rest;
    assert Nibble(high) == Some(b as nat / 16) && Nibble(low) == Some(b as nat % 16);
  }

  lemma {:induction false} LoweredHexDecodes(a: Lsn)
    ensures DecodeHex(Lowered(EncodeHex(a))) == Some(a)
  {
    if a != [] {
      var text, rest := EncodeHex(a), EncodeHex(a[1..]);
      LoweredHexDecodes(a[1..]);
      assert text[2..] == rest;
      TwoLowered(text);
      ByteDecodes(a[0], Lowered(rest));
      assert a == [a[0]] + a[1..];
    }
  }

  lemma {:induction false} DecodedHexEncodes(s: string)
    requires DecodeHex(Lowered(s)).Some?
    ensures EncodeHex(DecodeHex(Lowered(s)).value) == Raised(s)
  {
    if |s| >= 2 {
      TwoLowered(s);
      TwoRaised(s);
      var low := [ToLower(s[0]), ToLower(s[1])] + Lowered(s[2..]);
      assert low[2..] == Lowered(s[2..]);
      DecodedHexEncodes(s[2..]);
      ByteAgrees(s[0], s[1], DecodeHex(low[2..]).value);
    }
  }

  lemma DigitsAgree(c: char)
    requires Nibble(ToLower(c)).Some?
    ensures Nibble(ToLower(c)).value < 16 && Digit(Nibble(ToLower(c)).value) == ToUpper(c)
  {
  }

  /** A position of a ten-byte number parses back to it. */
  lemma PositionRoundTrip(a: Lsn)
    requires |a| == 10
    ensures ParsePosition(Position(a)) == Some(a)
  {
    var text := Position(a);
    assert text[2..] == EncodeHex(a);
    assert Lowered(text)[2..] == Lowered(EncodeHex(a));
    assert Lowered(text)[..2] == "0x";
    LoweredHexDecodes(a);
  }

  lemma ParsedIsPosition(p: string)
    requires ParsePosition(p).Some?
    ensures var lsn := ParsePosition(p).value;
      |lsn| == 10 && |p| >= 2 && Position(lsn) == "0x" + Raised(p[2..])
  {
    assert Lowered(p)[2..] == Lowered(p[2..]);
    DecodedHexEncodes(p[2..]);
  }

  lemma LoweredRaised(s: string)
    ensures Lowered(Raised(s)) == Lowered(s)
  {
  }

  lemma DecodesExactly(s: string, a: Lsn)
    ensures DecodeHex(Lowered(s)) == Some(a) <==> Raised(s) == EncodeHex(a)
  {
    if Raised(s) == EncodeHex(a) {
      LoweredRaised(s);
      LoweredHexDecodes(a);
    }
    if DecodeHex(Lowered(s)) == Some(a) {
      DecodedHexEncodes(s);
    }
  }

  lemma PrefixLowered(p: string)
    requires |p| >= 2
    ensures Lowered(p)[2..] == Lowered(p[2..])
    ensures Lowered(p)[..2] == "0x" <==> p[0] == '0' && (p[1] == 'x' || p[1] == 'X')
  {
    var low := Lowered(p);
    assert low[..2] == [ToLower(p[0]), ToLower(p[1])];
    forall i | 0 <= i < |p| - 2 ensures low[2..][i] == Lowered(p[2..])[i] {
      assert p[2..][i] == p[i + 2];
    }
  }

  /** What is accepted is 0x and the digits of a ten-byte number, in either case, and
      nothing else. */
  lemma ParsesExactly(p: string, a: Lsn)
    ensures ParsePosition(p) == Some(a) <==>
      |a| == 10 && |p| >= 2 && p[0] == '0' && (p[1] == 'x' || p[1] == 'X') && Raised(p[2..]) == EncodeHex(a)
  {
    if |p| >= 2 {
      PrefixLowered(p);
      DecodesExactly(p[2..], a);
    }
  }

  /** Text order, character by character. */
  function CompareText(a: string, b: string): int {
    if a == [] then (if b == [] then 0 else -1)
    else if b == [] then 1
    else if a[0] < b[0] then -1
    else if a[0] > b[0] then 1
    else CompareText(a[1..], b[1..])
  }

  /** Recorded positions sort as text the way the numbers sort. */
  lemma {:induction false} HexKeepsOrder(a: Lsn, b: Lsn)
    ensures CompareText(EncodeHex(a), EncodeHex(b)) == Compare(a, b)
  {
    if a != [] && b != [] {
      HexKeepsOrder(a[1..], b[1..]);
      var x, y := EncodeHex(a), EncodeHex(b);
      assert x[1..][1..] == EncodeHex(a[1..]) && y[1..][1..] == EncodeHex(b[1..]);
      assert CompareText(x, y) == if x[0] < y[0] then -1 else if x[0] > y[0] then 1 else CompareText(x[1..], y[1..]);
    }
  }

  lemma PositionKeepsOrder(a: Lsn, b: Lsn)
    ensures CompareText(Position(a), Position(b)) == Compare(a, b)
  {
    HexKeepsOrder(a, b);
    assert Position(a)[1..][1..] == EncodeHex(a) && Position(b)[1..][1..] == EncodeHex(b);
    assert CompareText(Position(a), Position(b)) == CompareText(Position(a)[1..], Position(b)[1..]);
  }
}
