// IPv4 addresses and the names derived from them (pkg/util/util.go).
module Address {
  import opened Text

  type Byte = n: int | 0 <= n < 256

  datatype IPv4 = IPv4(a: Byte, b: Byte, c: Byte, d: Byte)

  function Dotted(ip: IPv4): string {
    Join([ItoaNat(ip.a), ItoaNat(ip.b), ItoaNat(ip.c), ItoaNat(ip.d)], '.')
  }

  predicate IsOctet(s: string) {
    Canonical(s) && Value(s) < 256
  }

  /** net.ParseIP followed by To4, for canonical dotted addresses */
  function ParseIP(s: string): Option<IPv4> {
    var p := Split(s, '.');
    if |p| == 4 && IsOctet(p[0]) && IsOctet(p[1]) && IsOctet(p[2]) && IsOctet(p[3])
    then Some(IPv4(Value(p[0]), Value(p[1]), Value(p[2]), Value(p[3])))
    else None
  }

  /** Parsing and printing are inverse: an address has exactly one accepted spelling. */
  lemma ParsePrint(ip: IPv4, s: string)
    ensures ParseIP(s) == Some(ip) <==> s == Dotted(ip)
  {
    SplitOfJoin([ItoaNat(ip.a), ItoaNat(ip.b), ItoaNat(ip.c), ItoaNat(ip.d)], '.');
    ValueOfItoa(ip.a); ValueOfItoa(ip.b); ValueOfItoa(ip.c); ValueOfItoa(ip.d);
    if ParseIP(s) == Some(ip) {
      var p := Split(s, '.');
      JoinOfSplit(s, '.');
      ItoaOfValue(p[0]); ItoaOfValue(p[1]); ItoaOfValue(p[2]); ItoaOfValue(p[3]);
      assert p == [ItoaNat(ip.a), ItoaNat(ip.b), ItoaNat(ip.c), ItoaNat(ip.d)];
    }
  }

  lemma {:induction false} JoinHasNo(parts: seq<string>, sep: char, c: char)
    requires c != sep && forall p :: p in parts ==> c !in p
    ensures c !in Join(parts, sep)
  {
    if |parts| > 1 {
      JoinHasNo(parts[1..], sep, c);
    }
  }

  lemma ValidAddressHasNoColon(s: string)
    requires ParseIP(s).Some?
    ensures ':' !in s
  {
    var ip := ParseIP(s).value;
    ParsePrint(ip, s);
    JoinHasNo([ItoaNat(ip.a), ItoaNat(ip.b), ItoaNat(ip.c), ItoaNat(ip.d)], '.', ':');
  }

  const HEX: string := "0123456789abcdef"

  function Hex2(b: Byte): string {
    [HEX[b / 16], HEX[b % 16]]
  }

  function GetHexIP(ip: string): Option<string> {
    match ParseIP(ip)
    case None => None
    case Some(v) => Some(Hex2(v.a) + Hex2(v.b) + Hex2(v.c) + Hex2(v.d))
  }

  function GetRuleName(ip: string): Option<string> {
    match GetHexIP(ip)
    case None => None
    case Some(h) => Some("gwrule" + h)
  }

  lemma Hex2Injective(x: Byte, y: Byte)
    ensures Hex2(x) == Hex2(y) ==> x == y
  {
    if Hex2(x) == Hex2(y) {
      assert Hex2(x)[0] == Hex2(y)[0] && Hex2(x)[1] == Hex2(y)[1];
      assert forall i, j :: 0 <= i < j < 16 ==> HEX[i] != HEX[j];
    }
  }

  /** Distinct addresses get distinct hexadecimal names, each eight characters long. */
  lemma HexIPInjective(s: string, t: string)
    requires GetHexIP(s).Some? && GetHexIP(t).Some?
    ensures |GetHexIP(s).value| == 8
    ensures GetHexIP(s) == GetHexIP(t) <==> s == t
  {
    var x, y := ParseIP(s).value, ParseIP(t).value;
    var h, k := GetHexIP(s).value, GetHexIP(t).value;
    assert h[0..2] == Hex2(x.a) && h[2..4] == Hex2(x.b) && h[4..6] == Hex2(x.c) && h[6..8] == Hex2(x.d);
    assert k[0..2] == Hex2(y.a) && k[2..4] == Hex2(y.b) && k[4..6] == Hex2(y.c) && k[6..8] == Hex2(y.d);
    Hex2Injective(x.a, y.a); Hex2Injective(x.b, y.b); Hex2Injective(x.c, y.c); Hex2Injective(x.d, y.d);
    ParsePrint(x, s);
    ParsePrint(y, t);
  }

  /** The gateway object's name identifies the gateway address. */
  lemma RuleNameInjective(s: string, t: string)
    requires GetRuleName(s).Some? && GetRuleName(t).Some?
    ensures GetRuleName(s) == GetRuleName(t) <==> s == t
  {
    HexIPInjective(s, t);
    var h, k := GetHexIP(s).value, GetHexIP(t).value;
    if "gwrule" + h == "gwrule" + k {
      assert h == ("gwrule" + h)[6..] && k == ("gwrule" + k)[6..];
    }
  }

  /** The value of a hexadecimal digit, by the order of the characters */
  function DigitValue(c: char): int {
    if '0' <= c <= '9' then c as int - '0' as int else c as int - 'a' as int + 10
  }

  predicate IsHexDigit(c: char) {
    '0' <= c <= '9' || 'a' <= c <= 'f'
  }

  lemma Hex2Decodes(b: Byte)
    ensures |Hex2(b)| == 2 && IsHexDigit(Hex2(b)[0]) && IsHexDigit(Hex2(b)[1])
    ensures 16 * DigitValue(Hex2(b)[0]) + DigitValue(Hex2(b)[1]) == b
  {
    assert forall i :: 0 <= i < 16 ==> IsHexDigit(HEX[i]) && DigitValue(HEX[i]) == i;
  }

  /** The name of the object of a gateway is "gwrule" and eight hexadecimal digits that spell its four bytes in order. */
  lemma RuleNameDecodes(ip: IPv4)
    ensures GetRuleName(Dotted(ip)).Some?
    ensures var name := GetRuleName(Dotted(ip)).value;
            && |name| == 14 && name[..6] == "gwrule" && (forall i :: 6 <= i < 14 ==> IsHexDigit(name[i]))
            && ip == IPv4(16 * DigitValue(name[6]) + DigitValue(name[7]), 16 * DigitValue(name[8]) + DigitValue(name[9]),
                          16 * DigitValue(name[10]) + DigitValue(name[11]), 16 * DigitValue(name[12]) + DigitValue(name[13]))
  {
    ParsePrint(ip, Dotted(ip));
    hide Dotted, ParseIP, Hex2, DigitValue, IsHexDigit;
    Hex2Decodes(ip.a); Hex2Decodes(ip.b); Hex2Decodes(ip.c); Hex2Decodes(ip.d);
  }

  /** Names are exactly given to addresses: whatever has one is a dotted address in its only spelling. */
  lemma RuleNameIff(s: string)
    ensures GetRuleName(s).Some? <==> exists ip :: s == Dotted(ip)
    ensures GetHexIP(s).Some? ==> GetRuleName(s) == Some("gwrule" + GetHexIP(s).value)
  {
    hide Dotted;
    if GetRuleName(s).Some? {
      ParsePrint(ParseIP(s).value, s);
    }
    if ip :| s == Dotted(ip) {
      ParsePrint(ip, s);
    }
  }
}
