/** 5G subscriber identities and the simplified key agreement: identities as strings, keys and
    challenges as hex text. */
module Aka5G {
  import opened Common
  import opened Http

  // ---------------------------------------------------------------- hex text

  predicate IsHex(c: char)
  {
    IsDigit(c) || 'a' <= c <= 'f'
  }

  function HexChar(v: nat): (c: char)
    requires v < 16
    ensures IsHex(c) && HexValue(c) == v
  {
    if v < 10 then '0' + v as char else 'a' + (v - 10) as char
  }

  function HexValue(c: char): (v: nat)
    requires IsHex(c)
    ensures v < 16
  {
    if IsDigit(c) then (c - '0') as nat else 10 + (c - 'a') as nat
  }

  predicate AllHex(s: string)
  {
    forall c :: c in s ==> IsHex(c)
  }


  function HexByte(hi: char, lo: char): bv8
    requires IsHex(hi) && IsHex(lo)
  {
    (16 * HexValue(hi) + HexValue(lo)) as bv8
  }

  /** Two digits to a byte; an odd digit at the end is dropped. */
  function FromHex(s: string): (b: Bytes)
    requires AllHex(s)
    ensures |b| == |s| / 2
  {
    if |s| < 2 then []
    else
      assert s[0] in s && s[1] in s && AllHex(s[2..]);
      [HexByte(s[0], s[1])] + FromHex(s[2..])
  }

  function ToHex(b: Bytes): (s: string)
    ensures |s| == 2 * |b| && AllHex(s)
  {
    if b == [] then "" else [HexChar(b[0] as nat / 16), HexChar(b[0] as nat % 16)] + ToHex(b[1..])
  }

  lemma ByteOfDigits(x: bv8)
    ensures HexByte(HexChar(x as nat / 16), HexChar(x as nat % 16)) == x
  {
    assert 16 * (x as nat / 16) + x as nat % 16 == x as nat;
    hide HexChar, HexValue;
  }

  lemma {:induction false} HexRoundTrip(b: Bytes)
    ensures FromHex(ToHex(b)) == b
  {
    if b != [] {
      HexRoundTrip(b[1..]);
      ByteOfDigits(b[0]);
      var s := ToHex(b);
      assert s[2..] == ToHex(b[1..]);
      hide HexChar, HexByte;
    }
  }

  /** The bytes are the pairs of digits, in order. */
  lemma {:induction false} FromHexAt(s: string, i: nat)
    requires AllHex(s) && 2 * i + 1 < |s|
    ensures IsHex(s[2 * i]) && IsHex(s[2 * i + 1]) && FromHex(s)[i] == HexByte(s[2 * i], s[2 * i + 1])
    decreases i
  {
    hide HexByte, IsHex;
    assert s[2 * i] in s && s[2 * i + 1] in s;
    if i == 0 {
    } else {
      var rest := s[2..];
      assert AllHex(rest);
      FromHexAt(rest, i - 1);
      assert rest[2 * (i - 1)] == s[2 * i] && rest[2 * (i - 1) + 1] == s[2 * i + 1];
      FromHexStep(s, 0);
      assert s[0..] == s && s[0 + 2..] == rest;
    }
  }

  /** Byte-wise XOR, the second operand repeating. */
  function XorBytes(a: Bytes, b: Bytes): (r: Bytes)
    requires |b| > 0
    ensures |r| == |a|
  {
    seq(|a|, i requires 0 <= i < |a| => a[i] ^ b[i % |b|])
  }

  function ByteXor(a: string, b: string): (r: string)
    requires AllHex(a) && AllHex(b) && |b| >= 2
    ensures AllHex(r)
  {
    ToHex(XorBytes(FromHex(a), FromHex(b)))
  }

  lemma FromHexStep(s: string, i: nat)
    requires AllHex(s) && i + 1 < |s|
    ensures AllHex(s[i..]) && AllHex(s[i + 2..]) && IsHex(s[i]) && IsHex(s[i + 1])
    ensures FromHex(s[i..]) == [HexByte(s[i], s[i + 1])] + FromHex(s[i + 2..])
  {
    assert s[i] in s && s[i + 1] in s && s[i..][2..] == s[i + 2..];
    hide HexByte;
  }

  method FromHexLoop(s: string) returns (b: Bytes)
    requires AllHex(s)
    ensures b == FromHex(s)
  {
    hide FromHex, HexByte;
    b := [];
    var i := 0;
    assert s[0..] == s;
    while i + 1 < |s|
      invariant 0 <= i <= |s| && AllHex(s[i..])
      invariant b + FromHex(s[i..]) == FromHex(s)
    {
      FromHexStep(s, i);
      b := b + [HexByte(s[i], s[i + 1])];
      i := i + 2;
    }
    assert FromHex(s[i..]) == [];
  }

  method XorLoop(a: Bytes, b: Bytes) returns (r: Bytes)
    requires |b| > 0
    ensures r == XorBytes(a, b)
  {
    r := [];
    for i := 0 to |a|
      invariant |r| == i && forall j :: 0 <= j < i ==> r[j] == a[j] ^ b[j % |b|]
    {
      r := r + [a[i] ^ b[i % |b|]];
    }
  }

  /** XOR with the same bytes twice gives the challenge back. */
  lemma XorTwice(a: Bytes, b: Bytes)
    requires |b| > 0
    ensures XorBytes(XorBytes(a, b), b) == a
  {
    forall i | 0 <= i < |a| ensures XorBytes(XorBytes(a, b), b)[i] == a[i] {
      XorCancels(a[i], b[i % |b|]);
    }
  }

  lemma XorCancels(x: bv8, y: bv8)
    ensures (x ^ y) ^ y == x && x ^ (x ^ y) == y
  {
  }

  lemma XorAt(a: Bytes, b: Bytes, i: nat)
    requires |b| > 0 && i < |a|
    ensures XorBytes(a, b)[i] == a[i] ^ b[i % |b|]
  {
  }

  /** Operands of one length: the second does not come round. */
  lemma XorSameLength(a: Bytes, b: Bytes, i: nat)
    requires i < |a| == |b|
    ensures XorBytes(a, b)[i] == a[i] ^ b[i]
  {
    hide XorBytes;
    XorAt(a, b, i);
    assert i % |b| == i;
  }

  /** Challenge and answer give the key away: the answer holds all of it. */
  lemma XorRecovers(a: Bytes, b: Bytes)
    requires |a| == |b| > 0
    ensures XorBytes(a, XorBytes(a, b)) == b
  {
    var r := XorBytes(a, b);
    hide XorBytes;
    forall i: nat | i < |a| ensures XorBytes(a, r)[i] == b[i] {
      XorSameLength(a, b, i);
      XorSameLength(a, r, i);
      XorCancels(a[i], b[i]);
    }
  }

  /** Two keys agree in every byte that an answer to a challenge of this length uses. */
  predicate SameUsed(n: nat, k1: Bytes, k2: Bytes)
    requires |k1| > 0 && |k2| > 0
  {
    forall i :: 0 <= i < n ==> k1[i % |k1|] == k2[i % |k2|]
  }

  /** Two keys, of whatever lengths, give the same answer to a challenge exactly if they agree in
      every byte used. */
  lemma KeyDecides(a: Bytes, k1: Bytes, k2: Bytes)
    requires |k1| > 0 && |k2| > 0
    ensures XorBytes(a, k1) == XorBytes(a, k2) <==> SameUsed(|a|, k1, k2)
  {
    if XorBytes(a, k1) == XorBytes(a, k2) {
      forall i | 0 <= i < |a| ensures k1[i % |k1|] == k2[i % |k2|] {
        assert XorBytes(a, k1)[i] == XorBytes(a, k2)[i];
        XorCancels(a[i], k1[i % |k1|]);
        XorCancels(a[i], k2[i % |k2|]);
      }
    }
  }

  /** The same for answers as texts. */
  lemma AnswerDecides(rand: Bytes, k1: string, k2: string)
    requires AllHex(k1) && AllHex(k2) && |k1| >= 2 && |k2| >= 2
    ensures ByteXor(ToHex(rand), k1) == ByteXor(ToHex(rand), k2) <==> SameUsed(|rand|, FromHex(k1), FromHex(k2))
  {
    HexRoundTrip(rand);
    var x1, x2 := XorBytes(rand, FromHex(k1)), XorBytes(rand, FromHex(k2));
    HexRoundTrip(x1);
    HexRoundTrip(x2);
    KeyDecides(rand, FromHex(k1), FromHex(k2));
    hide ToHex, FromHex, SameUsed;
  }

  /** Lower-case digits, high one first. */
  lemma HexDigits()
    ensures ToHex([0x0F, 0xA3]) == "0fa3"
  {
    assert [0x0F, 0xA3][1..] == [0xA3] && [0xA3][1..] == [];
  }

  // ---------------------------------------------------------------- the long-term key

  const KEY_BASE := "00112233445566778899aabbccddee"

  /** Least significant four bits of a character difference. */
  function LowNibble(d: int): (v: nat)
    ensures v < 16
  {
    d % 16
  }

  /** 31 hex digits, the last one from the MSIN's last character. */
  function KeyFor(msin: string): (k: string)
    ensures |k| == 31
  {
    var last := if msin == "" then 0 else msin[|msin| - 1] as int - '0' as int;
    KEY_BASE + [HexChar(LowNibble(last))]
  }

  lemma KeyBaseHex()
    ensures AllHex(KEY_BASE) && |KEY_BASE| == 30
  {
  }

  lemma KeyHex(msin: string)
    ensures AllHex(KeyFor(msin))
  {
    KeyBaseHex();
  }

  lemma {:induction false} OddDigitDropped(s: string, c: char)
    requires AllHex(s) && IsHex(c) && |s| % 2 == 0
    ensures AllHex(s + [c]) && FromHex(s + [c]) == FromHex(s)
    decreases |s|
  {
    if |s| >= 2 {
      assert s[0] in s && s[1] in s;
      assert (s + [c])[2..] == s[2..] + [c];
      OddDigitDropped(s[2..], c);
    }
  }

  /** The digit that depends on the subscriber is the one that the hex decoder drops: 15 key
      bytes are used, and they are the same for everybody. */
  lemma KeyIsShared(m1: string, m2: string)
    ensures AllHex(KeyFor(m1)) && AllHex(KeyFor(m2))
    ensures FromHex(KeyFor(m1)) == FromHex(KeyFor(m2))
    ensures FromHex(KeyFor(m1)) ==
            [0x00, 0x11, 0x22, 0x33, 0x44, 0x55, 0x66, 0x77, 0x88, 0x99, 0xAA, 0xBB, 0xCC, 0xDD, 0xEE]
  {
    KeyHex(m1);
    KeyHex(m2);
    KeyBaseHex();
    OddDigitDropped(KEY_BASE, KeyFor(m1)[30]);
    OddDigitDropped(KEY_BASE, KeyFor(m2)[30]);
    assert KeyFor(m1) == KEY_BASE + [KeyFor(m1)[30]] && KeyFor(m2) == KEY_BASE + [KeyFor(m2)[30]];
    KeyBytes();
  }

  lemma KeyBytes()
    ensures AllHex(KEY_BASE) && FromHex(KEY_BASE) ==
            [0x00, 0x11, 0x22, 0x33, 0x44, 0x55, 0x66, 0x77, 0x88, 0x99, 0xAA, 0xBB, 0xCC, 0xDD, 0xEE]
  {
    KeyBaseHex();
    KeyDigits();
    hide FromHex, HexByte, KEY_BASE;
    forall i | 0 <= i < 15 ensures FromHex(KEY_BASE)[i] == HexByte(KEY_BASE[2 * i], KEY_BASE[2 * i + 1]) {
      FromHexAt(KEY_BASE, i);
    }
    Doubled();
    DoubledHigh();
  }

  lemma KeyDigits()
    ensures |KEY_BASE| == 30
    ensures forall i :: 0 <= i < 15 ==> KEY_BASE[2 * i] == KEY_BASE[2 * i + 1] == "0123456789abcde"[i]
  {
  }

  /** The value of a digit written twice. */
  lemma Doubled()
    ensures HexByte('0', '0') == 0x00 && HexByte('1', '1') == 0x11 && HexByte('2', '2') == 0x22
    ensures HexByte('3', '3') == 0x33 && HexByte('4', '4') == 0x44 && HexByte('5', '5') == 0x55
    ensures HexByte('6', '6') == 0x66 && HexByte('7', '7') == 0x77
  {
  }

  lemma DoubledHigh()
    ensures HexByte('8', '8') == 0x88 && HexByte('9', '9') == 0x99 && HexByte('a', 'a') == 0xAA
    ensures HexByte('b', 'b') == 0xBB && HexByte('c', 'c') == 0xCC && HexByte('d', 'd') == 0xDD
    ensures HexByte('e', 'e') == 0xEE
  {
  }

  // ---------------------------------------------------------------- identities

  datatype Plmn = Plmn(mcc: string, mnc: string)

  predicate AllDigits(s: string)
  {
    forall c :: c in s ==> IsDigit(c)
  }

  predicate PlmnOk(p: Plmn)
  {
    AllDigits(p.mcc) && AllDigits(p.mnc)
  }

  /** Left-padded with zeros to the given width. */
  function Padded(s: string, width: nat): (r: string)
    ensures |r| >= width && |r| >= |s| && (AllDigits(s) ==> AllDigits(r))
    ensures |s| >= width ==> r == s
    decreases width - |s|
  {
    if |s| >= width then s else Padded(['0'] + s, width)
  }

  function Msin(ueId: nat): string
  {
    Padded(Decimal(ueId), 10)
  }

  function Suci(p: Plmn, ueId: nat): string
  {
    "suci-0-" + p.mcc + "-" + p.mnc + "-0000-0-0-" + Msin(ueId)
  }

  function SupiOf(p: Plmn, msin: string): string
  {
    "imsi-" + p.mcc + p.mnc + msin
  }

  /** What follows the last hyphen; the whole SUCI's MSIN in the null scheme. */
  function AfterLastHyphen(s: string): string
  {
    if s == "" then ""
    else if s[|s| - 1] == '-' then ""
    else AfterLastHyphen(s[..|s| - 1]) + [s[|s| - 1]]
  }

  function MsinFromSuci(suci: string): string
  {
    if '-' in suci then AfterLastHyphen(suci) else ""
  }

  lemma {:induction false} AfterHyphen(a: string, b: string)
    requires '-' !in b
    ensures AfterLastHyphen(a + ['-'] + b) == b
    decreases |b|
  {
    if b != "" {
      var init := b[..|b| - 1];
      assert (a + ['-'] + b)[..|a + ['-'] + b| - 1] == a + ['-'] + init;
      assert b[|b| - 1] in b;
      AfterHyphen(a, init);
      assert init + [b[|b| - 1]] == b;
    }
  }

  lemma {:induction false} DecimalLength(n: nat, k: nat, top: nat)
    requires n < top && top == Power10(k) && k >= 1
    ensures |Decimal(n)| <= k
    decreases k
  {
    if n >= 10 {
      assert k >= 2;
      DecimalLength(n / 10, k - 1, Power10(k - 1));
    }
  }

  function Power10(k: nat): nat
  {
    if k == 0 then 1 else 10 * Power10(k - 1)
  }

  lemma {:induction false} PaddedLength(s: string, width: nat)
    requires |s| <= width
    ensures |Padded(s, width)| == width
    decreases width - |s|
  {
    if |s| < width {
      PaddedLength(['0'] + s, width);
    }
  }

  lemma {:induction false} PaddedValue(s: string, width: nat)
    requires s != "" && IsDigit(s[0])
    ensures LeadingValue(Padded(s, width), 0) == LeadingValue(s, 0)
    decreases width - |s|
  {
    if |s| < width {
      assert (['0'] + s)[1..] == s;
      PaddedValue(['0'] + s, width);
    }
  }

  /** An MSIN is ten digits that read as the UE's number. */
  lemma MsinReads(ueId: nat)
    ensures AllDigits(Msin(ueId)) && LeadingValue(Msin(ueId), 0) == ueId
    ensures ueId < 10_000_000_000 ==> |Msin(ueId)| == 10
  {
    hide Padded;
    DecimalPlain(ueId);
    DecimalValue(ueId, "");
    var d := Decimal(ueId);
    assert d + "" == d && d[0] in d;
    PaddedValue(d, 10);
    if ueId < 10_000_000_000 {
      assert Power10(10) == 10_000_000_000 by { assert Power10(5) == 100000; }
      DecimalLength(ueId, 10, Power10(10));
      PaddedLength(d, 10);
    }
  }

  /** A SUPI's parts: prefix and MCC, then MNC, then MSIN. */
  lemma SupiParts(p: Plmn, msin: string)
    ensures SupiOf(p, msin) == "imsi-" + p.mcc + (p.mnc + msin)
  {
  }

  /** The UDM recovers from a SUCI the MSIN it was made from, hence the SUPI. */
  lemma SuciResolves(p: Plmn, ueId: nat)
    ensures MsinFromSuci(Suci(p, ueId)) == Msin(ueId)
    ensures SupiOf(p, MsinFromSuci(Suci(p, ueId))) == SupiOf(p, Msin(ueId))
  {
    DecimalPlain(ueId);
    var front := "suci-0-" + p.mcc + "-" + p.mnc + "-0000-0-0";
    assert Suci(p, ueId) == front + ['-'] + Msin(ueId);
    assert AllDigits(Msin(ueId));
    AfterHyphen(front, Msin(ueId));
    assert Suci(p, ueId)[|front|] == '-';
  }
}
