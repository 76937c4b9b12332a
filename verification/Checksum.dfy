/** The IPv4 header checksum: the 16-bit one's complement of the one's complement sum. */
module Checksum {
  import opened Common
  import opened Bits


  const WORD_MOD: nat := 0x1_0000
  const ONES: nat := 0xFFFF

  function Word(buf: seq<Byte>, i: nat): (w: nat)
    requires i + 1 < |buf|
    ensures w <= ONES
  {
    256 * (buf[i] as nat) + buf[i + 1] as nat
  }

  /** Exact sum of the big-endian words among the first n bytes. */
  function WordSum(buf: seq<Byte>, n: nat): (s: nat)
    requires n <= |buf| && n % 2 == 0
    ensures s <= n / 2 * ONES
  {
    if n == 0 then 0 else WordSum(buf, n - 2) + Word(buf, n - 2)
  }

  /** Carries added back until 16 bits are left. */
  function Fold(x: nat): (f: nat)
    ensures f <= ONES
  {
    if x < WORD_MOD then x else Fold(x % WORD_MOD + x / WORD_MOD)
  }

  /** Adding the carries back takes away a multiple of 65535. */
  lemma CarryResidue(x: nat)
    ensures (x % WORD_MOD + x / WORD_MOD) % ONES == x % ONES
  {
    var q, r := x / WORD_MOD, x % WORD_MOD;
    assert x == (q + r) + q * ONES;
    ModPeriod(q + r, q, ONES);
  }

  /** Folding keeps the value modulo 65535, and only zero folds to zero. */
  lemma {:induction false} FoldMeaning(x: nat)
    ensures Fold(x) % ONES == x % ONES
    ensures Fold(x) == 0 <==> x == 0
  {
    if x >= WORD_MOD {
      CarryResidue(x);
      FoldMeaning(x % WORD_MOD + x / WORD_MOD);
    }
  }

  function ChecksumOf(buf: seq<Byte>): (c: nat)
    requires |buf| % 2 == 0
    ensures c <= ONES
  {
    ONES - Fold(WordSum(buf, |buf|))
  }

  // The longest header whose words are sure to fit a 32-bit sum.
  const MAX_LEN: nat := 131070

  /** Both loops, with the sum kept in 32 bits; within 131070 bytes it never wraps. */
  method IpChecksum(buf: seq<Byte>) returns (c: nat)
    requires |buf| % 2 == 0 && |buf| <= MAX_LEN
    ensures c == ChecksumOf(buf)
  {
    var sum := 0;
    var i := 0;
    while i < |buf|
      invariant 0 <= i <= |buf| && i % 2 == 0 && sum == WordSum(buf, i)
    {
      sum := (sum + Word(buf, i)) % U32_MOD;
      i := i + 2;
    }
    while sum / WORD_MOD != 0
      invariant 0 <= sum && Fold(sum) == Fold(WordSum(buf, |buf|))
      decreases sum
    {
      sum := sum % WORD_MOD + sum / WORD_MOD;
    }
    c := ONES - sum;
  }

  /** The checksum of one header, of a UDP datagram from 192.168.0.1 to 192.168.0.199. */
  lemma KnownHeader()
    ensures ChecksumOf([0x45, 0x00, 0x00, 0x73, 0x00, 0x00, 0x40, 0x00, 0x40, 0x11,
                        0x00, 0x00, 0xC0, 0xA8, 0x00, 0x01, 0xC0, 0xA8, 0x00, 0xC7]) == 0xB861
  {
    var h: seq<Byte> := [0x45, 0x00, 0x00, 0x73, 0x00, 0x00, 0x40, 0x00, 0x40, 0x11,
                         0x00, 0x00, 0xC0, 0xA8, 0x00, 0x01, 0xC0, 0xA8, 0x00, 0xC7];
    assert WordSum(h, 4) == 0x4573 by { assert WordSum(h, 2) == 0x4500; }
    assert WordSum(h, 8) == 0x8573 by { assert WordSum(h, 6) == 0x4573; }
    assert WordSum(h, 12) == 0xC584 by { assert WordSum(h, 10) == 0xC584; }
    assert WordSum(h, 16) == 0x1_862D by { assert WordSum(h, 14) == 0x1_862C; }
    assert WordSum(h, 20) == 0x2_479C by { assert WordSum(h, 18) == 0x2_46D5; }
    assert Fold(0x2_479C) == 0x479E;
  }

  /** A receiver's check passes exactly on headers whose words sum to a non-zero multiple of
      65535. */
  lemma ChecksOut(buf: seq<Byte>)
    requires |buf| % 2 == 0
    ensures ChecksumOf(buf) == 0 <==> WordSum(buf, |buf|) % ONES == 0 && WordSum(buf, |buf|) > 0
  {
    FoldMeaning(WordSum(buf, |buf|));
  }

  function WithWord(buf: seq<Byte>, k: nat, w: nat): (b: seq<Byte>)
    requires k + 1 < |buf| && w <= ONES
    ensures |b| == |buf|
  {
    buf[k := w / 256][k + 1 := w % 256]
  }

  lemma WordWith(buf: seq<Byte>, k: nat, w: nat, i: nat)
    requires k + 1 < |buf| && i + 1 < |buf| && k % 2 == 0 && i % 2 == 0 && w <= ONES
    ensures Word(WithWord(buf, k, w), i) == if i == k then w else Word(buf, i)
  {
  }

  /** Replacing one word changes the sum by the difference. */
  lemma {:induction false} SumWithWord(buf: seq<Byte>, k: nat, w: nat, n: nat)
    requires k + 1 < |buf| && k % 2 == 0 && w <= ONES && n <= |buf| && n % 2 == 0
    ensures WordSum(WithWord(buf, k, w), n) + (if k < n then Word(buf, k) else 0)
         == WordSum(buf, n) + (if k < n then w else 0)
  {
    if n == 0 {
      assert WordSum(WithWord(buf, k, w), 0) == WordSum(buf, 0) == 0;
    } else {
      hide Word, WithWord, WordSum;
      SumWithWord(buf, k, w, n - 2);
      WordWith(buf, k, w, n - 2);
      WordSumStep(buf, n);
      WordSumStep(WithWord(buf, k, w), n);
      assert k < n <==> k < n - 2 || k == n - 2;
    }
  }

  lemma WordSumStep(buf: seq<Byte>, n: nat)
    requires 0 < n <= |buf| && n % 2 == 0
    ensures WordSum(buf, n) == WordSum(buf, n - 2) + Word(buf, n - 2)
  {
  }

  /** Written into a zeroed field of any even-length header, the checksum makes the header check
      out. */
  lemma InsertedChecksOut(buf: seq<Byte>, k: nat)
    requires |buf| % 2 == 0 && k + 1 < |buf| && k % 2 == 0 && Word(buf, k) == 0
    ensures ChecksumOf(WithWord(buf, k, ChecksumOf(buf))) == 0
  {
    var c, s := ChecksumOf(buf), WordSum(buf, |buf|);
    SumWithWord(buf, k, c, |buf|);
    FoldMeaning(s);
    Complement(s, Fold(s));
    FoldMeaning(s + c);
    hide WordSum, Fold;
    ChecksOut(WithWord(buf, k, c));
  }

  lemma Complement(s: nat, f: nat)
    requires f <= ONES && f % ONES == s % ONES && (f == 0 <==> s == 0)
    ensures (s + (ONES - f)) % ONES == 0 && s + (ONES - f) > 0
  {
    var q := s / ONES;
    assert s == q * ONES + s % ONES;
    if f == ONES {
      assert s % ONES == 0;
    } else {
      assert s + (ONES - f) == (q + 1) * ONES;
    }
  }

  /** Changing one word of a header that checks out is noticed unless the two words differ by a
      multiple of 65535, that is, unless 0x0000 became 0xFFFF or the reverse. */
  lemma OneWordDetected(buf: seq<Byte>, k: nat, w: nat)
    requires |buf| % 2 == 0 && k + 1 < |buf| && k % 2 == 0 && w <= ONES && ChecksumOf(buf) == 0
    requires WordSum(WithWord(buf, k, w), |buf|) > 0
    ensures ChecksumOf(WithWord(buf, k, w)) == 0 <==>
            w == Word(buf, k) || (w == 0 && Word(buf, k) == ONES) || (w == ONES && Word(buf, k) == 0)
  {
    SumWithWord(buf, k, w, |buf|);
    ChecksOut(buf);
    ChecksOut(WithWord(buf, k, w));
    SameResidue(WordSum(buf, |buf|), WordSum(WithWord(buf, k, w), |buf|), Word(buf, k), w);
  }

  lemma SameResidue(s: nat, t: nat, v: nat, w: nat)
    requires t + v == s + w && s % ONES == 0 && v <= ONES && w <= ONES
    ensures t % ONES == 0 <==> v == w || (v == ONES && w == 0) || (v == 0 && w == ONES)
  {
    var q := s / ONES;
    assert s == q * ONES;
    var d := w - v;
    assert t == q * ONES + d;
    if d == ONES {
      assert t == (q + 1) * ONES;
    } else if d == -(ONES as int) {
      assert t == (q - 1) * ONES;
    }
  }

  // ---------------------------------------------------------------- the header

  /** Most significant byte first. */
  function U16(x: nat): (b: seq<Byte>)
    ensures |b| == 2 && Word(b, 0) == x % WORD_MOD
  {
    [x / 256 % 256, x % 256]
  }

  function U32(x: nat): (b: seq<Byte>)
    ensures |b| == 4 && (x < U32_MOD ==> WORD_MOD * Word(b, 0) + Word(b, 2) == x)
  {
    U16(x / WORD_MOD) + U16(x % WORD_MOD)
  }

  /** The 20 bytes that every frame builder puts first; total and id are cut to 16 bits. */
  method BuildIpHeader(total: nat, id: nat, protocol: Byte, src: nat, dst: nat) returns (ip: seq<Byte>)
    ensures |ip| == 20 && ChecksumOf(ip) == 0
    ensures ip[..10] == [0x45, 0x00] + U16(total) + U16(id) + U16(0x4000) + [64, protocol]
    ensures ip[12..] == U32(src) + U32(dst)
  {
    ip := [0x45, 0x00];
    ip := ip + U16(total) + U16(id) + U16(0x4000);
    ip := ip + [64, protocol];
    ip := ip + U16(0);
    ip := ip + U32(src) + U32(dst);
    assert Word(ip, 10) == 0;
    var c := IpChecksum(ip);
    InsertedChecksOut(ip, 10);
    ip := WithWord(ip, 10, c);
  }
}
