/** Dotted text read as an address the way `ipaddress` does, and its agreement with the printer. */
module AddressText {
  import opened Common
  import opened Addresses
  import opened PowerShellText
  import opened TimeSpans

  /** Digits, no leading zero, at most 255. */
  predicate IsOctet(s: string) {
    IsDigits(s) && (|s| > 1 ==> s[0] != '0') && DigitsValue(s) <= 255
  }

  /** `IPv4Address(text)` */
  function AddressOf(text: string): Option<Ip> {
    var parts := Split(text, '.');
    if |parts| == 4 && forall i :: 0 <= i < |parts| ==> IsOctet(parts[i])
    then Some(((DigitsValue(parts[0]) * 256 + DigitsValue(parts[1])) * 256 + DigitsValue(parts[2])) * 256
              + DigitsValue(parts[3]))
    else None
  }

  function AddressesOf(texts: seq<string>): Option<seq<Ip>> {
    if texts == [] then Some([])
    else match (AddressOf(texts[0]), AddressesOf(texts[1..]))
         case (Some(x), Some(xs)) => Some([x] + xs)
         case _ => None
  }

  lemma {:induction false} NoLeadingZero(n: nat)
    requires n > 0
    ensures Decimal(n) != "" && Decimal(n)[0] != '0'
  {
    if n >= 10 {
      NoLeadingZero(n / 10);
    }
  }

  lemma DecimalIsOctet(n: nat)
    requires n <= 255
    ensures IsOctet(Decimal(n)) && DigitsValue(Decimal(n)) == n && '.' !in Decimal(n)
  {
    DecimalValue(n);
    DecimalHasNoDot(n);
    if n > 0 {
      NoLeadingZero(n);
    }
  }

  lemma SplitsQuad(a: string, b: string, c: string, d: string)
    requires '.' !in a && '.' !in b && '.' !in c && '.' !in d
    ensures Split(a + "." + (b + "." + (c + "." + d)), '.') == [a, b, c, d]
  {
    hide Split;
    SplitsOff(a, '.', b + "." + (c + "." + d));
    SplitsOff(b, '.', c + "." + d);
    SplitsOff(c, '.', d);
    SplitsNothing(d, '.');
    assert ['.'] == ".";
  }

  lemma QuadIsAddress(ip: Ip)
    ensures AddressOf(DottedQuad(ip)) == Some(ip) && DottedQuad(ip) != ""
  {
    hide Split, IsOctet, Decimal;
    var d3, d2, d1, d0 := ip / 0x100_0000, ip / 0x1_0000 % 0x100, ip / 0x100 % 0x100, ip % 0x100;
    DecimalIsOctet(d3);
    DecimalIsOctet(d2);
    DecimalIsOctet(d1);
    DecimalIsOctet(d0);
    SplitsQuad(Decimal(d3), Decimal(d2), Decimal(d1), Decimal(d0));
    OctetsMakeUp(ip);
  }

  lemma {:induction false} QuadsAreAddresses(texts: seq<string>, ips: seq<Ip>)
    requires |texts| == |ips| && forall i :: 0 <= i < |ips| ==> texts[i] == DottedQuad(ips[i])
    ensures AddressesOf(texts) == Some(ips)
  {
    if ips != [] {
      QuadIsAddress(ips[0]);
      QuadsAreAddresses(texts[1..], ips[1..]);
      assert [ips[0]] + ips[1..] == ips;
    }
  }

  lemma {:induction false} DigitsAreDecimal(s: string)
    requires IsDigits(s) && (|s| > 1 ==> s[0] != '0')
    ensures Decimal(DigitsValue(s)) == s
    ensures s[0] != '0' ==> DigitsValue(s) > 0
    decreases |s|
  {
    var n := |s| - 1;
    var front, digit := s[..n], s[n] as int - '0' as int;
    assert s == front + [s[n]];
    if n == 0 {
      assert DigitsValue(s) == digit;
    } else {
      DigitsAreDecimal(front);
      var rest := DigitsValue(front);
      assert DigitsValue(s) == 10 * rest + digit;
      assert (10 * rest + digit) / 10 == rest && (10 * rest + digit) % 10 == digit;
    }
  }

  lemma OctetsSplit(a: nat, b: nat, c: nat, d: nat)
    requires a <= 255 && b <= 255 && c <= 255 && d <= 255
    ensures var ip := ((a * 256 + b) * 256 + c) * 256 + d;
            ip / 0x100_0000 == a && ip / 0x1_0000 % 0x100 == b && ip / 0x100 % 0x100 == c && ip % 0x100 == d
  {
  }

  /** Reading and printing are inverse: a text reads as an address exactly if it is how the address
      is printed. */
  lemma AddressIffQuad(text: string, ip: Ip)
    ensures AddressOf(text) == Some(ip) <==> text == DottedQuad(ip)
  {
    QuadIsAddress(ip);
    if AddressOf(text) == Some(ip) {
      AddressIsQuad(text);
    }
  }

  lemma AddressIsQuad(text: string)
    requires AddressOf(text).Some?
    ensures text == DottedQuad(AddressOf(text).value)
  {
    hide Split, SplitOnce, Decimal, DigitsValue;
    var parts := Split(text, '.');
    SplitStep(text, '.');
    var rest := SplitOnce(text, '.').value.1;
    assert Split(rest, '.') == parts[1..];
    SplitStep(rest, '.');
    var rest' := SplitOnce(rest, '.').value.1;
    assert Split(rest', '.') == parts[2..];
    SplitStep(rest', '.');
    var rest'' := SplitOnce(rest', '.').value.1;
    assert Split(rest'', '.') == parts[3..];
    SplitStep(rest'', '.');
    OctetsPrint(parts[0], parts[1], parts[2], parts[3]);
  }

  lemma OctetsPrint(a: string, b: string, c: string, d: string)
    requires IsOctet(a) && IsOctet(b) && IsOctet(c) && IsOctet(d)
    ensures DottedQuad(((DigitsValue(a) * 256 + DigitsValue(b)) * 256 + DigitsValue(c)) * 256 + DigitsValue(d)) ==
              a + "." + (b + "." + (c + "." + d))
  {
    hide Decimal, DigitsValue, DottedQuad;
    DigitsAreDecimal(a);
    DigitsAreDecimal(b);
    DigitsAreDecimal(c);
    DigitsAreDecimal(d);
    QuadOf(DigitsValue(a), DigitsValue(b), DigitsValue(c), DigitsValue(d));
  }

  lemma QuadOf(a: nat, b: nat, c: nat, d: nat)
    requires a <= 255 && b <= 255 && c <= 255 && d <= 255
    ensures DottedQuad(((a * 256 + b) * 256 + c) * 256 + d) ==
              Decimal(a) + "." + (Decimal(b) + "." + (Decimal(c) + "." + Decimal(d)))
  {
    hide Decimal;
    OctetsSplit(a, b, c, d);
  }
}
