/** The key under which the calibration index files a route: percent-encoded fields joined with a bar. */
module RouteKeys {
  import opened Common

  datatype RouteIdentity = RouteIdentity(modelId: string, effort: string, speedId: string, topology: string,
                                         proofTier: string, taskKind: string, riskTier: string, scopeTier: string)

  // ----- encodeURIComponent -----

  predicate Unreserved(c: char) {
    'A' <= c <= 'Z' || 'a' <= c <= 'z' || '0' <= c <= '9' || c in "-_.!~*'()"
  }

  type Octet = n: int | 0 <= n < 256

  const HEX := "0123456789ABCDEF"

  function HexDigit(d: nat): char
    requires d < 16
  {
    HEX[d]
  }

  function HexValue(c: char): int {
    if '0' <= c <= '9' then c as int - '0' as int else c as int - 'A' as int + 10
  }

  lemma HexRoundTrip(d: nat)
    requires d < 16
    ensures HexValue(HexDigit(d)) == d && HexDigit(d) != '|' && HexDigit(d) != '%'
  {
  }

  function Percent(byte: Octet): (text: string)
    ensures |text| == 3
  {
    ['%', HexDigit(byte / 16), HexDigit(byte % 16)]
  }

  function PercentValue(text: string, i: nat): int
    requires i + 3 <= |text|
  {
    16 * HexValue(text[i + 1]) + HexValue(text[i + 2])
  }

  lemma PercentRoundTrip(before: string, byte: Octet, after: string)
    ensures PercentValue(before + Percent(byte) + after, |before|) == byte
    ensures (before + Percent(byte) + after)[|before|] == '%'
    ensures '|' !in Percent(byte)
  {
    HexRoundTrip(byte / 16);
    HexRoundTrip(byte % 16);
    var text := before + Percent(byte) + after;
    assert text[|before| + 1] == Percent(byte)[1] && text[|before| + 2] == Percent(byte)[2];
  }

  /** The bytes of a character in UTF-8. */
  function Utf8(c: char): (bytes: seq<Octet>)
    ensures 1 <= |bytes| <= 4
  {
    var n := c as int;
    if n < 0x80 then [n]
    else if n < 0x800 then [0xC0 + n / 64, 0x80 + n % 64]
    else if n < 0x10000 then [0xE0 + n / 4096, 0x80 + n / 64 % 64, 0x80 + n % 64]
    else [0xF0 + n / 262144, 0x80 + n / 4096 % 64, 0x80 + n / 64 % 64, 0x80 + n % 64]
  }

  /** How many bytes a character takes, by its first byte. */
  function Width(lead: int): nat {
    if lead < 0x80 then 1 else if lead < 0xE0 then 2 else if lead < 0xF0 then 3 else 4
  }

  function PercentAll(bytes: seq<Octet>): (text: string)
    ensures |text| == 3 * |bytes|
  {
    if bytes == [] then "" else Percent(bytes[0]) + PercentAll(bytes[1..])
  }

  function EncodeChar(c: char): string {
    if Unreserved(c) then [c] else PercentAll(Utf8(c))
  }

  function EncodeURIComponent(text: string): string {
    if text == "" then "" else EncodeChar(text[0]) + EncodeURIComponent(text[1..])
  }

  lemma {:induction false} PercentAllAt(bytes: seq<Octet>, k: nat, after: string)
    requires k < |bytes|
    ensures PercentValue(PercentAll(bytes) + after, 3 * k) == bytes[k] && (PercentAll(bytes) + after)[3 * k] == '%'
  {
    var head, rest := Percent(bytes[0]), PercentAll(bytes[1..]) + after;
    assert PercentAll(bytes) + after == head + rest;
    if k == 0 {
      PercentRoundTrip("", bytes[0], rest);
      assert "" + head + rest == head + rest;
    } else {
      PercentAllAt(bytes[1..], k - 1, after);
    }
  }

  lemma {:induction false} PercentAllBarFree(bytes: seq<Octet>)
    ensures '|' !in PercentAll(bytes)
  {
    if bytes != [] {
      PercentRoundTrip("", bytes[0], "");
      PercentAllBarFree(bytes[1..]);
    }
  }

  lemma UnreservedCharacters(c: char)
    ensures Unreserved(c) <==>
              || c in "ABCDEFGHIJKLMNOPQRSTUVWXYZ" || c in "abcdefghijklmnopqrstuvwxyz"
              || c in "0123456789" || c in "-_.!~*'()"
  {
    Run("ABCDEFGHIJKLMNOPQRSTUVWXYZ", 'A', c);
    Run("abcdefghijklmnopqrstuvwxyz", 'a', c);
    Run("0123456789", '0', c);
  }

  /** A run of consecutive characters is a range. */
  lemma Run(run: string, first: char, c: char)
    requires run != "" && forall i | 0 <= i < |run| :: run[i] as int == first as int + i
    ensures c in run <==> first as int <= c as int < first as int + |run|
  {
    if first as int <= c as int < first as int + |run| {
      assert run[c as int - first as int] == c;
    }
  }

  /** Kept as they are: letters, digits and nine marks (ECMA-262, section 19.2.6.4); all else is percent-encoded. */
  lemma KeptCharacters(c: char)
    ensures EncodeURIComponent([c]) == [c] <==>
              || c in "ABCDEFGHIJKLMNOPQRSTUVWXYZ" || c in "abcdefghijklmnopqrstuvwxyz"
              || c in "0123456789" || c in "-_.!~*'()"
    ensures EncodeURIComponent([c]) == [c] || EncodeURIComponent([c]) == PercentAll(Utf8(c))
  {
    hide Unreserved, PercentAll, Utf8;
    UnreservedCharacters(c);
    assert EncodeURIComponent([c]) == EncodeChar(c) + "";
    assert EncodeChar(c) + "" == EncodeChar(c);
    assert |PercentAll(Utf8(c))| >= 3;
  }

  lemma {:induction false} EncodedBarFree(text: string)
    ensures '|' !in EncodeURIComponent(text)
  {
    if text != "" {
      PercentAllBarFree(Utf8(text[0]));
      EncodedBarFree(text[1..]);
    }
  }

  /** The code point that the bytes of a character spell. */
  function CodePoint(width: nat, b0: int, b1: int, b2: int, b3: int): int {
    if width == 1 then b0
    else if width == 2 then 64 * (b0 - 0xC0) + (b1 - 0x80)
    else if width == 3 then 4096 * (b0 - 0xE0) + 64 * (b1 - 0x80) + (b2 - 0x80)
    else 262144 * (b0 - 0xF0) + 4096 * (b1 - 0x80) + 64 * (b2 - 0x80) + (b3 - 0x80)
  }

  function ByteAt(bytes: seq<Octet>, k: nat): int {
    if k < |bytes| then bytes[k] else 0
  }

  lemma BytesSpell(c: char)
    ensures var bytes := Utf8(c);
            CodePoint(|bytes|, ByteAt(bytes, 0), ByteAt(bytes, 1), ByteAt(bytes, 2), ByteAt(bytes, 3)) == c as int
  {
    var n := c as int;
    assert n / 4096 == n / 64 / 64;
    assert n / 262144 == n / 4096 / 64;
  }

  lemma Utf8Injective(c: char, d: char)
    requires Utf8(c) == Utf8(d)
    ensures c == d
  {
    BytesSpell(c);
    BytesSpell(d);
  }

  lemma WidthOfLead(c: char)
    ensures Width(Utf8(c)[0]) == |Utf8(c)|
  {
  }

  /** The first character of an encoded text, and where the next one starts, can be read off. */
  lemma EncodeCharPrefixFree(c: char, x: string, d: char, y: string)
    requires EncodeChar(c) + x == EncodeChar(d) + y
    ensures c == d && x == y
  {
    var text := EncodeChar(c) + x;
    if !Unreserved(c) {
      PercentAllAt(Utf8(c), 0, x);
      WidthOfLead(c);
    }
    if !Unreserved(d) {
      PercentAllAt(Utf8(d), 0, y);
      WidthOfLead(d);
    }
    assert Unreserved(c) ==> text[0] == c;
    assert Unreserved(d) ==> text[0] == d;
    if !Unreserved(c) {
      SameBytes(c, x, d, y);
      Utf8Injective(c, d);
    }
    assert x == text[|EncodeChar(c)|..] && y == text[|EncodeChar(d)|..];
  }

  lemma SameBytes(c: char, x: string, d: char, y: string)
    requires PercentAll(Utf8(c)) + x == PercentAll(Utf8(d)) + y
    requires |Utf8(c)| == |Utf8(d)|
    ensures Utf8(c) == Utf8(d)
  {
    forall k | 0 <= k < |Utf8(c)| ensures Utf8(c)[k] == Utf8(d)[k] {
      PercentAllAt(Utf8(c), k, x);
      PercentAllAt(Utf8(d), k, y);
    }
  }

  lemma {:induction false} EncodeInjective(s: string, t: string)
    requires EncodeURIComponent(s) == EncodeURIComponent(t)
    ensures s == t
  {
    if s != "" {
      EncodeCharPrefixFree(s[0], EncodeURIComponent(s[1..]), t[0], EncodeURIComponent(t[1..]));
      EncodeInjective(s[1..], t[1..]);
      assert s == [s[0]] + s[1..] && t == [t[0]] + t[1..];
    }
  }

  // ----- the key -----

  function JoinEncoded(parts: seq<string>): string {
    if parts == [] then ""
    else if |parts| == 1 then EncodeURIComponent(parts[0])
    else EncodeURIComponent(parts[0]) + "|" + JoinEncoded(parts[1..])
  }

  lemma {:induction false} JoinEncodedInjective(left: seq<string>, right: seq<string>)
    requires |left| == |right| && JoinEncoded(left) == JoinEncoded(right)
    ensures left == right
  {
    if |left| == 1 {
      EncodeInjective(left[0], right[0]);
    } else if |left| > 1 {
      var a, b := EncodeURIComponent(left[0]), EncodeURIComponent(right[0]);
      EncodedBarFree(left[0]);
      EncodedBarFree(right[0]);
      SplitAt('|', a, JoinEncoded(left[1..]), b, JoinEncoded(right[1..]));
      EncodeInjective(left[0], right[0]);
      JoinEncodedInjective(left[1..], right[1..]);
      assert left == [left[0]] + left[1..] && right == [right[0]] + right[1..];
    }
  }

  function Fields(identity: RouteIdentity): seq<string> {
    [identity.modelId, identity.effort, identity.speedId, identity.topology, identity.proofTier,
     identity.taskKind, identity.riskTier, identity.scopeTier]
  }

  function RouteCalibrationKey(identity: RouteIdentity): string {
    JoinEncoded(Fields(identity))
  }

  lemma JoinEncodedStep(part: string, parts: seq<string>)
    requires parts != []
    ensures JoinEncoded([part] + parts) == EncodeURIComponent(part) + "|" + JoinEncoded(parts)
  {
    assert ([part] + parts)[1..] == parts;
  }

  /** The eight fields, in this order. */
  lemma KeySpelled(identity: RouteIdentity)
    ensures var RouteIdentity(m, e, s, t, p, k, r, c) := identity;
            RouteCalibrationKey(identity) ==
            EncodeURIComponent(m) + "|" + (EncodeURIComponent(e) + "|" + (EncodeURIComponent(s) + "|" +
            (EncodeURIComponent(t) + "|" + (EncodeURIComponent(p) + "|" + (EncodeURIComponent(k) + "|" +
            (EncodeURIComponent(r) + "|" + EncodeURIComponent(c)))))))
  {
    hide EncodeURIComponent;
    var RouteIdentity(m, e, s, t, p, k, r, c) := identity;
    assert JoinEncoded([c]) == EncodeURIComponent(c);
    JoinEncodedStep(r, [c]);
    assert [r] + [c] == [r, c];
    JoinEncodedStep(k, [r, c]);
    assert [k] + [r, c] == [k, r, c];
    JoinEncodedStep(p, [k, r, c]);
    assert [p] + [k, r, c] == [p, k, r, c];
    JoinEncodedStep(t, [p, k, r, c]);
    assert [t] + [p, k, r, c] == [t, p, k, r, c];
    JoinEncodedStep(s, [t, p, k, r, c]);
    assert [s] + [t, p, k, r, c] == [s, t, p, k, r, c];
    JoinEncodedStep(e, [s, t, p, k, r, c]);
    assert [e] + [s, t, p, k, r, c] == [e, s, t, p, k, r, c];
    JoinEncodedStep(m, [e, s, t, p, k, r, c]);
    assert [m] + [e, s, t, p, k, r, c] == [m, e, s, t, p, k, r, c];
  }

  /** Routes that differ in any of the eight fields are filed apart. */
  lemma KeyInjective(left: RouteIdentity, right: RouteIdentity)
    requires RouteCalibrationKey(left) == RouteCalibrationKey(right)
    ensures left == right
  {
    JoinEncodedInjective(Fields(left), Fields(right));
    var l, r := Fields(left), Fields(right);
    assert l[0] == r[0] && l[1] == r[1] && l[2] == r[2] && l[3] == r[3] && l[4] == r[4] && l[5] == r[5] &&
           l[6] == r[6] && l[7] == r[7];
  }
}
