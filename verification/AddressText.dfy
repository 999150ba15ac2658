/**
 Address texts read back: dotted decimal text denotes its four bytes in order, so that no two
 addresses share a text in the name tables.
 */
module AddressText {
  import opened Statistics
  import opened Text
  import opened Flows
  import opened Packet

  /** The value of a decimal digit by its place in the character code. */
  function DigitValue(c: char): int {
    (c as int) - ('0' as int)
  }

  /** The number a string of decimal digits denotes. */
  function Decimal(s: string): int {
    if s == "" then 0 else 10 * Decimal(s[..|s| - 1]) + DigitValue(s[|s| - 1])
  }

  /** The parts of a text between its dots. */
  function Fields(s: string): seq<string>
    decreases |s|
  {
    var i := FirstOf(s, '.');
    if i == |s| then [s] else [s[..i]] + Fields(s[i + 1..])
  }

  lemma DigitDenotes(d: nat)
    requires d < 10
    ensures DigitValue(Digit(d)) == d
  {
    if d < 5 {
      assert d == 0 || d == 1 || d == 2 || d == 3 || d == 4;
    } else {
      assert d == 5 || d == 6 || d == 7 || d == 8 || d == 9;
    }
  }

  lemma DecimalAppend(s: string, c: char)
    ensures Decimal(s + [c]) == 10 * Decimal(s) + DigitValue(c)
  {
    assert (s + [c])[..|s|] == s;
  }

  /** An octet is written in decimal, without leading zeros. */
  lemma OctetTextDenotes(b: uint8)
    ensures Decimal(OctetText(b)) == b
    ensures |OctetText(b)| > 1 ==> OctetText(b)[0] != '0'
  {
    hide Digit, DigitValue;
    DecimalAppend("", Digit(b % 10));
    assert Decimal("") == 0;
    assert "" + [Digit(b % 10)] == [Digit(b % 10)];
    DigitDenotes(b % 10);
    if b >= 10 {
      DigitDenotes(b / 10 % 10);
      if b < 100 {
        TwoDigits(Digit(b / 10), Digit(b % 10));
        LeadingDigit(b / 10);
      } else {
        DigitDenotes(b / 100);
        ThreeDigits(Digit(b / 100), Digit(b / 10 % 10), Digit(b % 10));
        LeadingDigit(b / 100);
      }
    }
  }

  lemma LeadingDigit(d: nat)
    requires 0 < d < 10
    ensures Digit(d) != '0'
  {
    DigitDenotes(d);
  }

  lemma TwoDigits(a: char, b: char)
    ensures Decimal([a, b]) == 10 * DigitValue(a) + DigitValue(b)
  {
    DecimalAppend("", a);
    DecimalAppend([a], b);
    assert "" + [a] == [a] && [a] + [b] == [a, b];
  }

  lemma ThreeDigits(a: char, b: char, c: char)
    ensures Decimal([a, b, c]) == 100 * DigitValue(a) + 10 * DigitValue(b) + DigitValue(c)
  {
    TwoDigits(a, b);
    DecimalAppend([a, b], c);
    assert [a, b] + [c] == [a, b, c];
  }

  lemma FieldsAfter(a: string, b: string)
    requires '.' !in a
    ensures Fields(a + "." + b) == [a] + Fields(b)
  {
    FirstOfAfter(a, '.', b);
    var s := a + "." + b;
    assert s[..|a|] == a && s[|a| + 1..] == b;
  }

  lemma DotFree(b: uint8)
    ensures '.' !in OctetText(b)
  {
    hide OctetText;
    assert !IsDigit('.');
  }

  lemma FourFields(a: string, b: string, c: string, d: string)
    requires '.' !in a && '.' !in b && '.' !in c && '.' !in d
    ensures Fields(a + "." + b + "." + c + "." + d) == [a, b, c, d]
  {
    hide Fields;
    Associate(a, b, c, d);
    FieldsAfter(a, b + "." + (c + "." + d));
    FieldsAfter(b, c + "." + d);
    FieldsAfter(c, d);
    OneField(d);
  }

  lemma OneField(s: string)
    requires '.' !in s
    ensures Fields(s) == [s]
  {
    FirstOfNone(s, '.');
  }

  lemma Associate(a: string, b: string, c: string, d: string)
    ensures a + "." + b + "." + c + "." + d == a + "." + (b + "." + (c + "." + d))
  {}

  /** An address text reads back as the four bytes of the address, in order. */
  lemma IpTextReadsBack(ip: uint32)
    ensures var fields := Fields(IpText(ip));
            |fields| == 4 && forall i :: 0 <= i < 4 ==> Decimal(fields[i]) == Octets(ip)[i]
  {
    hide OctetText, Octets, Decimal, Fields;
    var b := Octets(ip);
    DotFree(b[0]);
    DotFree(b[1]);
    DotFree(b[2]);
    DotFree(b[3]);
    FourFields(OctetText(b[0]), OctetText(b[1]), OctetText(b[2]), OctetText(b[3]));
    OctetTextDenotes(b[0]);
    OctetTextDenotes(b[1]);
    OctetTextDenotes(b[2]);
    OctetTextDenotes(b[3]);
  }

  /** From the wire: the accessor's text of a stored address reads back as the packet's bytes in order. */
  lemma WireAddressReadsBack(data: seq<uint8>, at: nat)
    requires at + 4 <= |data|
    ensures var fields := Fields(IpText(Word(data, at)));
            |fields| == 4 && forall i :: 0 <= i < 4 ==> Decimal(fields[i]) == data[at + i]
  {
    hide Octets, Word, IpText, Decimal;
    IpTextReadsBack(Word(data, at));
    OctetsOfWord(data, at);
    forall i | 0 <= i < 4 ensures Decimal(Fields(IpText(Word(data, at)))[i]) == data[at + i] {
      assert data[at..at + 4][i] == data[at + i];
    }
  }

  /** So different addresses have different texts. */
  lemma IpTextIsInjective(a: uint32, b: uint32)
    ensures IpText(a) == IpText(b) <==> a == b
  {
    hide Octets, IpText;
    IpTextReadsBack(a);
    IpTextReadsBack(b);
    if IpText(a) == IpText(b) {
      assert Octets(a)[0] == Octets(b)[0] && Octets(a)[1] == Octets(b)[1];
      assert Octets(a)[2] == Octets(b)[2] && Octets(a)[3] == Octets(b)[3];
    }
  }
}
