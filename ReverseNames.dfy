/** Reverse-lookup names. An IPv4 address becomes its bytes in decimal,
    last byte first, under "in-addr.arpa." (section 3.5 of RFC 1035); an
    IPv6 address becomes its nibbles in hexadecimal, last nibble first, under
    "ip6.arpa." (section 2.5 of RFC 3596); an E.164 number becomes its
    digits, last digit first, under "e164.arpa." (section 2.4 of RFC 6116).
    Each builder puts every new piece in front of what it has built. */
module ReverseNames {
  import opened Basics

  datatype AddressFamily = InterNetwork | InterNetworkV6 | OtherFamily

  /** An address: its family and its bytes in network order. */
  datatype IPAddress = IPAddress(family: AddressFamily, bytes: seq<byte>)

  const V4Suffix := "in-addr.arpa."
  const V6Suffix := "ip6.arpa."
  const EnumSuffix := "e164.arpa."

  /** Each byte in decimal followed by a dot, last byte first. */
  function DecimalLabels(bs: seq<byte>): string {
    if bs == [] then "" else Decimal(bs[|bs| - 1] as nat) + "." + DecimalLabels(bs[..|bs| - 1])
  }

  /** For each byte, last first: its low nibble, a dot, its high nibble, a
      dot. */
  function NibbleLabels(bs: seq<byte>): (s: string)
    ensures |s| == 4 * |bs|
  {
    if bs == [] then ""
    else
      NibbleGroup(bs[|bs| - 1]) + NibbleLabels(bs[..|bs| - 1])
  }

  /** The two labels of a byte in an IPv6 name: its low nibble and then its
      high nibble, each a hexadecimal digit followed by a dot. */
  function NibbleGroup(b: byte): (g: string)
    ensures |g| == 4
  {
    [HexDigit(b as nat % 16), '.', HexDigit(b as nat / 16), '.']
  }

  /** Each character followed by a dot, last character first. */
  function DigitLabels(ds: string): (s: string)
    ensures |s| == 2 * |ds|
  {
    if ds == [] then "" else [ds[|ds| - 1], '.'] + DigitLabels(ds[..|ds| - 1])
  }

  /** The reverse-lookup name of an address; "?" for a family that has none. */
  function ArpaName(ip: IPAddress): string {
    match ip.family
    case InterNetwork => DecimalLabels(ip.bytes) + V4Suffix
    case InterNetworkV6 => NibbleLabels(ip.bytes) + V6Suffix
    case OtherFamily => "?"
  }

  /** The reverse-lookup name of a telephone number: its digits, every other
      character dropped. */
  function EnumName(number: string): string {
    DigitLabels(Digits(number)) + EnumSuffix
  }

  method GetArpaFromIp(ip: IPAddress) returns (s: string)
    ensures s == ArpaName(ip)
  {
    if ip.family == InterNetwork {
      s := PrependDecimal(ip.bytes);
      return;
    }
    if ip.family == InterNetworkV6 {
      s := PrependNibbles(ip.bytes);
      return;
    }
    s := "?";
  }

  /** The IPv4 loop: each byte in decimal and a dot, put in front. */
  method PrependDecimal(bs: seq<byte>) returns (s: string)
    ensures s == DecimalLabels(bs) + V4Suffix
  {
    s := V4Suffix;
    for i := 0 to |bs|
      invariant s == DecimalLabels(bs[..i]) + V4Suffix
    {
      DecimalStep(bs, i, V4Suffix);
      s := Decimal(bs[i] as nat) + "." + s;
    }
    assert bs[..|bs|] == bs;
  }

  /** The IPv6 loop: for each byte, its high nibble and then its low nibble
      in hexadecimal, each with a dot, put in front. */
  method PrependNibbles(bs: seq<byte>) returns (s: string)
    ensures s == NibbleLabels(bs) + V6Suffix
  {
    s := V6Suffix;
    for i := 0 to |bs|
      invariant s == NibbleLabels(bs[..i]) + V6Suffix
    {
      NibbleStep(bs, i, V6Suffix);
      s := [HexDigit(Nibble(bs[i], 4)), '.'] + s;
      s := [HexDigit(Nibble(bs[i], 0)), '.'] + s;
    }
    assert bs[..|bs|] == bs;
  }

  /** One more byte or digit taken from the front of the input goes in
      front of the name built from the ones before it. */
  lemma DecimalStep(bs: seq<byte>, i: nat, suffix: string)
    requires i < |bs|
    ensures DecimalLabels(bs[..i + 1]) + suffix == Decimal(bs[i] as nat) + "." + (DecimalLabels(bs[..i]) + suffix)
  {
    assert bs[..i + 1][..i] == bs[..i];
    var t := Decimal(bs[i] as nat) + ".";
    assert DecimalLabels(bs[..i + 1]) == t + DecimalLabels(bs[..i]);
    assert (t + DecimalLabels(bs[..i])) + suffix == t + (DecimalLabels(bs[..i]) + suffix);
  }

  lemma NibbleStep(bs: seq<byte>, i: nat, suffix: string)
    requires i < |bs|
    ensures NibbleLabels(bs[..i + 1]) + suffix
         == [HexDigit(bs[i] as nat % 16), '.'] + ([HexDigit(bs[i] as nat / 16), '.'] + (NibbleLabels(bs[..i]) + suffix))
  {
    assert bs[..i + 1][..i] == bs[..i];
    var lo, hi := [HexDigit(bs[i] as nat % 16), '.'], [HexDigit(bs[i] as nat / 16), '.'];
    assert NibbleLabels(bs[..i + 1]) == lo + hi + NibbleLabels(bs[..i]);
    assert (lo + hi + NibbleLabels(bs[..i])) + suffix == lo + (hi + (NibbleLabels(bs[..i]) + suffix));
  }

  lemma DigitStep(ds: string, i: nat, suffix: string)
    requires i < |ds|
    ensures DigitLabels(ds[..i + 1]) + suffix == [ds[i], '.'] + (DigitLabels(ds[..i]) + suffix)
  {
    assert ds[..i + 1][..i] == ds[..i];
  }

  /** `(b >> shift) & 0xf` of a byte, for a shift of 4 or 0: shifting a
      non-negative value right divides it by a power of two, and masking
      with 0xf keeps its remainder by 16. */
  function Nibble(b: byte, shift: nat): (n: nat)
    requires shift == 0 || shift == 4
    ensures n < 16
    ensures shift == 4 ==> n == b as nat / 16
    ensures shift == 0 ==> n == b as nat % 16
  {
    var shifted := if shift == 4 then b as nat / 16 else b as nat;
    shifted % 16
  }

  method GetArpaFromEnum(number: string) returns (s: string)
    ensures s == EnumName(number)
  {
    var ds := Digits(number);
    s := EnumSuffix;
    for i := 0 to |ds|
      invariant s == DigitLabels(ds[..i]) + EnumSuffix
    {
      DigitStep(ds, i, EnumSuffix);
      s := [ds[i], '.'] + s;
    }
    assert ds[..|ds|] == ds;
  }

  /** An IPv4 address a.b.c.d has the name "d.c.b.a.in-addr.arpa.". */
  lemma V4Name(a: byte, b: byte, c: byte, d: byte)
    ensures ArpaName(IPAddress(InterNetwork, [a, b, c, d]))
         == Decimal(d as nat) + "." + Decimal(c as nat) + "." + Decimal(b as nat) + "." + Decimal(a as nat) + "." + V4Suffix
  {
    var bs: seq<byte> := [a, b, c, d];
    assert bs[..3] == [a, b, c];
    assert [a, b, c][..2] == [a, b];
    assert [a, b][..1] == [a];
    assert [a][..0] == [];
    assert DecimalLabels([a]) == Decimal(a as nat) + ".";
    assert DecimalLabels([a, b]) == Decimal(b as nat) + "." + (Decimal(a as nat) + ".");
    assert DecimalLabels([a, b, c]) == Decimal(c as nat) + "." + DecimalLabels([a, b]);
    assert DecimalLabels(bs) == Decimal(d as nat) + "." + DecimalLabels([a, b, c]);
  }

  /** The reverse-lookup name of 192.0.2.1. */
  lemma V4Example()
    ensures ArpaName(IPAddress(InterNetwork, [192, 0, 2, 1])) == "1.2.0.192.in-addr.arpa."
  {
    V4Name(192, 0, 2, 1);
    ExampleDigits();
    ExampleText();
  }

  lemma ExampleText()
    ensures "1" + "." + "2" + "." + "0" + "." + "192" + "." + V4Suffix == "1.2.0.192.in-addr.arpa."
  {
  }

  lemma ExampleDigits()
    ensures Decimal(0) == "0" && Decimal(1) == "1" && Decimal(2) == "2" && Decimal(192) == "192"
  {
    assert Decimal(19) == "19";
  }

  /** In the IPv6 name, the k-th group of four characters from the front
      holds the low and then the high nibble of the k-th byte from the back. */
  lemma {:induction false} V6Nibbles(bs: seq<byte>, k: nat)
    requires k < |bs|
    ensures NibbleLabels(bs)[4 * k..4 * k + 4] == NibbleGroup(bs[|bs| - 1 - k])
    decreases |bs|
  {
    var front := bs[..|bs| - 1];
    var g := NibbleGroup(bs[|bs| - 1]);
    if k == 0 {
      assert NibbleLabels(bs)[..4] == g;
    } else {
      V6Nibbles(front, k - 1);
      assert front[|front| - 1 - (k - 1)] == bs[|bs| - 1 - k];
      SliceAfter(g, NibbleLabels(front), 4 * k, 4 * k + 4);
    }
  }

  lemma SliceAfter(a: string, b: string, i: nat, j: nat)
    requires |a| <= i <= j <= |a| + |b|
    ensures (a + b)[i..j] == b[i - |a|..j - |a|]
  {
  }

  lemma V6Layout(ip: IPAddress)
    requires ip.family == InterNetworkV6
    ensures |ArpaName(ip)| == 4 * |ip.bytes| + |V6Suffix|
    ensures ArpaName(ip)[4 * |ip.bytes|..] == V6Suffix
  {
  }

  /** In the E.164 name, the k-th character from the front is the k-th digit
      from the back, each followed by a dot, and the suffix comes last. */
  lemma {:induction false} EnumDigits(ds: string, k: nat)
    requires k < |ds|
    ensures DigitLabels(ds)[2 * k] == ds[|ds| - 1 - k] && DigitLabels(ds)[2 * k + 1] == '.'
    decreases |ds|
  {
    if k > 0 {
      var front := ds[..|ds| - 1];
      EnumDigits(front, k - 1);
      assert front[|front| - 1 - (k - 1)] == ds[|ds| - 1 - k];
    }
  }

  /** Only the digits of a number take part in its name, in reverse order. */
  lemma EnumLayout(number: string)
    ensures var ds := Digits(number); var s := EnumName(number);
      |s| == 2 * |ds| + |EnumSuffix| && s[2 * |ds|..] == EnumSuffix
      && forall k :: 0 <= k < |ds| ==> s[2 * k] == ds[|ds| - 1 - k] && IsDigit(s[2 * k]) && s[2 * k + 1] == '.'
  {
    var ds := Digits(number);
    var s := EnumName(number);
    forall k | 0 <= k < |ds|
      ensures s[2 * k] == ds[|ds| - 1 - k] && IsDigit(s[2 * k]) && s[2 * k + 1] == '.'
    {
      EnumDigits(ds, k);
    }
  }

  /** Separators are dropped: "+1-2" has the name "2.1.e164.arpa.". */
  lemma EnumExample()
    ensures EnumName("+1-2") == "2.1.e164.arpa."
  {
    ExampleFilter();
    assert DigitLabels("12") == "2.1.";
  }

  lemma ExampleFilter()
    ensures Digits("+1-2") == "12"
  {
    DigitsOfOne('+');
    DigitsOfOne('-');
    DigitsAppend("+1", "-2");
    DigitsAppend("+", "1");
    DigitsAppend("-", "2");
    assert "+1" == "+" + "1" && "-2" == "-" + "2" && "+1-2" == "+1" + "-2";
  }

  /** A number already written in digits only keeps all of them. */
  lemma EnumOfDigits(number: string)
    requires AllDigits(number)
    ensures EnumName(number) == DigitLabels(number) + EnumSuffix
  {
  }
}
