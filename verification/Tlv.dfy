/** The TLV wire format: little-endian integers, the writer, the reader, and the peek / switch /
    skip loop that every 4G node parses its messages with. */
module Tlv {
  import opened Common


  // ---------------------------------------------------------------- little-endian integers

  function Pow256(n: nat): (p: nat)
    ensures p >= 1
  {
    if n == 0 then 1 else 256 * Pow256(n - 1)
  }

  function ToLe(v: nat, n: nat): (b: seq<Byte>)
    ensures |b| == n
  {
    if n == 0 then [] else [v % 256] + ToLe(v / 256, n - 1)
  }

  function FromLe(b: seq<Byte>): (v: nat)
    ensures v < Pow256(|b|)
  {
    if b == [] then 0 else b[0] + 256 * FromLe(b[1..])
  }

  lemma {:induction false} LeRoundTrip(v: nat, n: nat)
    requires v < Pow256(n)
    ensures FromLe(ToLe(v, n)) == v
  {
    if n > 0 {
      LeRoundTrip(v / 256, n - 1);
      assert ToLe(v, n)[1..] == ToLe(v / 256, n - 1);
    }
  }

  lemma {:induction false} LeUnique(b: seq<Byte>)
    ensures ToLe(FromLe(b), |b|) == b
  {
    if b != [] {
      LeUnique(b[1..]);
      assert FromLe(b) / 256 == FromLe(b[1..]) && FromLe(b) % 256 == b[0];
    }
  }

  lemma {:induction false} FromLeConcat(a: seq<Byte>, b: seq<Byte>)
    ensures FromLe(a + b) == FromLe(a) + Pow256(|a|) * FromLe(b)
  {
    if a == [] {
      assert a + b == b;
    } else {
      assert (a + b)[1..] == a[1..] + b;
      FromLeConcat(a[1..], b);
      MulAssoc(256, Pow256(|a| - 1), FromLe(b));
    }
  }

  lemma MulAssoc(x: nat, y: nat, z: nat)
    ensures x * (y * z) == (x * y) * z
  {
  }

  /** Writing the low half and then the high half writes the whole. */
  lemma LeHalves(v: nat)
    requires v < 0x1_0000_0000_0000_0000
    ensures ToLe(v % 0x1_0000_0000, 4) + ToLe(v / 0x1_0000_0000, 4) == ToLe(v, 8)
  {
    var lo, hi := v % 0x1_0000_0000, v / 0x1_0000_0000;
    Pow256Four();
    LeRoundTrip(lo, 4);
    LeRoundTrip(hi, 4);
    var w := ToLe(lo, 4) + ToLe(hi, 4);
    FromLeConcat(ToLe(lo, 4), ToLe(hi, 4));
    LeUnique(w);
    assert FromLe(w) == v;
  }

  /** Least significant byte first. */
  lemma TwoLe(v: nat)
    requires v < 0x1_0000
    ensures ToLe(v, 2) == [v % 256, v / 256]
  {
    assert ToLe(v, 2) == [v % 256] + ToLe(v / 256, 1) && ToLe(v / 256, 1) == [v / 256 % 256];
  }

  lemma FourLe(v: nat)
    requires v < 0x1_0000_0000
    ensures ToLe(v, 4) == [v % 256, v / 0x100 % 256, v / 0x1_0000 % 256, v / 0x100_0000]
  {
    var w := v / 0x1_0000;
    assert v / 256 / 256 == w;
    assert ToLe(v, 4) == [v % 256] + ToLe(v / 256, 3) && ToLe(v / 256, 3) == [v / 256 % 256] + ToLe(w, 2);
    TwoLe(w);
    assert w / 256 == v / 0x100_0000;
  }

  // ---------------------------------------------------------------- information elements

  datatype Ie = Ie(tag: nat, value: seq<Byte>)

  predicate Writable(ie: Ie)
  {
    ie.tag < 0x1_0000 && |ie.value| < 0x1_0000
  }

  function EncodeIe(ie: Ie): (b: seq<Byte>)
    ensures |b| == 4 + |ie.value|
  {
    ToLe(ie.tag, 2) + ToLe(|ie.value|, 2) + ie.value
  }

  /** An element on the wire: tag, length of the value, value. */
  lemma ElementBytes(ie: Ie)
    requires Writable(ie)
    ensures EncodeIe(ie) == [ie.tag % 256, ie.tag / 256, |ie.value| % 256, |ie.value| / 256] + ie.value
  {
    TwoLe(ie.tag);
    TwoLe(|ie.value|);
  }

  function Encode(ies: seq<Ie>): seq<Byte>
  {
    if ies == [] then [] else EncodeIe(ies[0]) + Encode(ies[1..])
  }

  lemma {:induction false} EncodeAppend(ies: seq<Ie>, ie: Ie)
    ensures Encode(ies + [ie]) == Encode(ies) + EncodeIe(ie)
  {
    if ies == [] {
      assert ies + [ie] == [ie] && [ie][1..] == [];
    } else {
      EncodeAppend(ies[1..], ie);
      assert (ies + [ie])[1..] == ies[1..] + [ie];
    }
  }

  // ---------------------------------------------------------------- the parsing loop

  /** How the switch reads a known tag: a fixed-width integer, or as many bytes as announced. */
  datatype Kind = Fixed(width: nat) | Raw

  type Kinds = map<nat, Kind>

  /** Outcome of a parse: the value bytes bound per known tag, or a read past the end. */
  datatype Parsed = Bound(values: map<nat, seq<Byte>>) | Overrun

  /** The value's length as the loop reads it: by the kind, not by the announced length. */
  function ReadLen(kinds: Kinds, tag: nat, len: nat): nat
  {
    if tag in kinds && kinds[tag].Fixed? then kinds[tag].width else len
  }

  /** From position pos: stops at the end, or when fewer than 4 bytes are left. */
  function Scan(buf: seq<Byte>, pos: nat, kinds: Kinds, acc: map<nat, seq<Byte>>): Parsed
    decreases |buf| - pos
  {
    if pos + 4 > |buf| then Bound(acc)
    else
      var tag, len := FromLe(buf[pos..pos + 2]), FromLe(buf[pos + 2..pos + 4]);
      var end := pos + 4 + ReadLen(kinds, tag, len);
      if tag !in kinds then Scan(buf, end, kinds, acc)
      else if end > |buf| then Overrun
      else Scan(buf, end, kinds, acc[tag := buf[pos + 4..end]])
  }

  /** Every known element has the length that its kind reads. */
  ghost predicate Fits(ies: seq<Ie>, kinds: Kinds)
  {
    forall i :: 0 <= i < |ies| ==>
      Writable(ies[i]) && (ies[i].tag in kinds && kinds[ies[i].tag].Fixed? ==> |ies[i].value| == kinds[ies[i].tag].width)
  }

  /** What should be bound: per known tag the value written last. */
  function BindAll(acc: map<nat, seq<Byte>>, ies: seq<Ie>, kinds: Kinds): map<nat, seq<Byte>>
    decreases |ies|
  {
    if ies == [] then acc
    else BindAll(if ies[0].tag in kinds then acc[ies[0].tag := ies[0].value] else acc, ies[1..], kinds)
  }

  lemma HeaderRead(pre: seq<Byte>, ie: Ie, post: seq<Byte>)
    requires Writable(ie)
    ensures var b, p := pre + (EncodeIe(ie) + post), |pre|;
            && p + 4 + |ie.value| <= |b|
            && FromLe(b[p..p + 2]) == ie.tag && FromLe(b[p + 2..p + 4]) == |ie.value|
            && b[p + 4..p + 4 + |ie.value|] == ie.value
  {
    var b, p := pre + (EncodeIe(ie) + post), |pre|;
    assert Pow256(2) == 0x1_0000 by { assert Pow256(1) == 256; }
    LeRoundTrip(ie.tag, 2);
    LeRoundTrip(|ie.value|, 2);
    assert b[p..p + 2] == ToLe(ie.tag, 2);
    assert b[p + 2..p + 4] == ToLe(|ie.value|, 2);
  }

  lemma ScanStep(pre: seq<Byte>, ie: Ie, post: seq<Byte>, kinds: Kinds, acc: map<nat, seq<Byte>>)
    requires Fits([ie], kinds)
    ensures Scan(pre + (EncodeIe(ie) + post), |pre|, kinds, acc) ==
            Scan(pre + (EncodeIe(ie) + post), |pre| + 4 + |ie.value|, kinds,
                 if ie.tag in kinds then acc[ie.tag := ie.value] else acc)
  {
    assert [ie][0] == ie;
    HeaderRead(pre, ie, post);
    hide EncodeIe, FromLe;
  }

  /** The loop over a written frame binds each known tag to its last written value, whatever
      unknown elements lie between, and never reads past the end. */
  lemma {:induction false} ScanEncode(pre: seq<Byte>, ies: seq<Ie>, kinds: Kinds, acc: map<nat, seq<Byte>>)
    requires Fits(ies, kinds)
    ensures Scan(pre + Encode(ies), |pre|, kinds, acc) == Bound(BindAll(acc, ies, kinds))
    decreases |ies|
  {
    if ies == [] {
      ScanEnd(pre, kinds, acc);
    } else {
      var ie := ies[0];
      var acc' := if ie.tag in kinds then acc[ie.tag := ie.value] else acc;
      assert BindAll(acc, ies, kinds) == BindAll(acc', ies[1..], kinds);
      ScanFirst(pre, ies, kinds, acc);
      hide Scan, EncodeIe, Encode, BindAll, Fits;
      assert Fits(ies[1..], kinds) by { FitsRest(ies, kinds); }
      ScanEncode(pre + EncodeIe(ie), ies[1..], kinds, acc');
    }
  }

  lemma FitsRest(ies: seq<Ie>, kinds: Kinds)
    requires ies != [] && Fits(ies, kinds)
    ensures Fits(ies[1..], kinds) && Fits([ies[0]], kinds)
  {
  }

  /** The loop takes the first element and goes on behind it. */
  lemma ScanFirst(pre: seq<Byte>, ies: seq<Ie>, kinds: Kinds, acc: map<nat, seq<Byte>>)
    requires ies != [] && Fits(ies, kinds)
    ensures var ie, pre' := ies[0], pre + EncodeIe(ies[0]);
            Scan(pre + Encode(ies), |pre|, kinds, acc)
            == Scan(pre' + Encode(ies[1..]), |pre'|, kinds, if ie.tag in kinds then acc[ie.tag := ie.value] else acc)
  {
    var ie := ies[0];
    assert |EncodeIe(ie)| == 4 + |ie.value|;
    hide Scan, EncodeIe;
    FitsRest(ies, kinds);
    ScanStep(pre, ie, Encode(ies[1..]), kinds, acc);
    assert pre + (EncodeIe(ie) + Encode(ies[1..])) == pre + EncodeIe(ie) + Encode(ies[1..]);
  }

  /** A frame that breaks off inside an element: what came before is bound; the rest is passed over
      if the element's header is not whole or its tag unknown, and is an overrun otherwise. */
  lemma {:induction false} ScanCut(pre: seq<Byte>, ies: seq<Ie>, ie: Ie, part: seq<Byte>, kinds: Kinds,
                                   acc: map<nat, seq<Byte>>)
    requires Fits(ies, kinds) && Fits([ie], kinds) && part < EncodeIe(ie)
    ensures Scan(pre + (Encode(ies) + part), |pre|, kinds, acc) ==
            if |part| < 4 || ie.tag !in kinds then Bound(BindAll(acc, ies, kinds)) else Overrun
    decreases |ies|
  {
    hide Scan, EncodeIe, Fits;
    if ies == [] {
      assert Encode(ies) + part == part;
      PartScanned(pre, ie, part, kinds, acc);
    } else {
      EncodeFirst(pre, ies, part);
      FitsRest(ies, kinds);
      hide Encode;
      ScanStep(pre, ies[0], Encode(ies[1..]) + part, kinds, acc);
      ScanCut(pre + EncodeIe(ies[0]), ies[1..], ie, part, kinds,
              if ies[0].tag in kinds then acc[ies[0].tag := ies[0].value] else acc);
    }
  }

  lemma EncodeFirst(pre: seq<Byte>, ies: seq<Ie>, part: seq<Byte>)
    requires ies != []
    ensures pre + (Encode(ies) + part) == pre + (EncodeIe(ies[0]) + (Encode(ies[1..]) + part))
    ensures pre + (Encode(ies) + part) == (pre + EncodeIe(ies[0])) + (Encode(ies[1..]) + part)
    ensures |pre + EncodeIe(ies[0])| == |pre| + 4 + |ies[0].value|
  {
    hide EncodeIe;
    var first, rest := EncodeIe(ies[0]), Encode(ies[1..]);
    assert Encode(ies) == first + rest;
    hide Encode;
    Associate(pre, first, rest, part);
  }

  lemma Associate(a: seq<Byte>, b: seq<Byte>, c: seq<Byte>, d: seq<Byte>)
    ensures a + ((b + c) + d) == a + (b + (c + d))
    ensures a + ((b + c) + d) == (a + b) + (c + d)
  {
  }

  lemma PartHeader(pre: seq<Byte>, ie: Ie, part: seq<Byte>)
    requires Writable(ie) && part < EncodeIe(ie) && |part| >= 4
    ensures var b, p := pre + part, |pre|;
            FromLe(b[p..p + 2]) == ie.tag && FromLe(b[p + 2..p + 4]) == |ie.value|
  {
    var b, p := pre + part, |pre|;
    assert Pow256(2) == 0x1_0000 by { assert Pow256(1) == 256; }
    LeRoundTrip(ie.tag, 2);
    LeRoundTrip(|ie.value|, 2);
    assert part == EncodeIe(ie)[..|part|];
    assert b[p..p + 2] == part[..2] == ToLe(ie.tag, 2);
    assert b[p + 2..p + 4] == part[2..4] == ToLe(|ie.value|, 2);
  }

  lemma PartScanned(pre: seq<Byte>, ie: Ie, part: seq<Byte>, kinds: Kinds, acc: map<nat, seq<Byte>>)
    requires Fits([ie], kinds) && part < EncodeIe(ie)
    ensures Scan(pre + part, |pre|, kinds, acc) == if |part| < 4 || ie.tag !in kinds then Bound(acc) else Overrun
  {
    assert [ie][0] == ie && |part| < 4 + |ie.value|;
    hide EncodeIe, FromLe;
    if |part| >= 4 {
      PartHeader(pre, ie, part);
    }
  }

  lemma ScanEnd(pre: seq<Byte>, kinds: Kinds, acc: map<nat, seq<Byte>>)
    ensures Scan(pre + Encode([]), |pre|, kinds, acc) == Bound(BindAll(acc, [], kinds))
  {
  }

  predicate Mentions(ies: seq<Ie>, t: nat)
  {
    exists i :: 0 <= i < |ies| && ies[i].tag == t
  }

  /** The value of the last element with tag t. */
  function LastValue(ies: seq<Ie>, t: nat): seq<Byte>
    requires Mentions(ies, t)
  {
    if ies[|ies| - 1].tag == t then ies[|ies| - 1].value
    else
      assert Mentions(ies[..|ies| - 1], t) by {
        var i :| 0 <= i < |ies| && ies[i].tag == t;
        assert ies[..|ies| - 1][i] == ies[i];
      }
      LastValue(ies[..|ies| - 1], t)
  }

  lemma {:induction false} BindAppend(acc: map<nat, seq<Byte>>, ies: seq<Ie>, ie: Ie, kinds: Kinds)
    ensures BindAll(acc, ies + [ie], kinds) ==
            if ie.tag in kinds then BindAll(acc, ies, kinds)[ie.tag := ie.value] else BindAll(acc, ies, kinds)
    decreases |ies|
  {
    if ies == [] {
      assert ies + [ie] == [ie] && [ie][1..] == [];
    } else {
      assert (ies + [ie])[1..] == ies[1..] + [ie];
      BindAppend(if ies[0].tag in kinds then acc[ies[0].tag := ies[0].value] else acc, ies[1..], ie, kinds);
    }
  }

  /** Nothing lost, nothing invented, the last one wins. */
  lemma {:induction false} BindsLast(ies: seq<Ie>, kinds: Kinds, t: nat)
    ensures t in BindAll(map[], ies, kinds) <==> t in kinds && Mentions(ies, t)
    ensures t in kinds && Mentions(ies, t) ==> BindAll(map[], ies, kinds)[t] == LastValue(ies, t)
    decreases |ies|
  {
    if ies != [] {
      var init, last := ies[..|ies| - 1], ies[|ies| - 1];
      assert ies == init + [last];
      BindAppend(map[], init, last, kinds);
      BindsLast(init, kinds, t);
      assert Mentions(init, t) ==> Mentions(ies, t) by {
        if Mentions(init, t) {
          var i :| 0 <= i < |init| && init[i].tag == t;
          assert ies[i].tag == t;
        }
      }
      assert last.tag == t ==> Mentions(ies, t);
    }
  }

  /** An element with an unknown tag makes no difference wherever it is inserted. */
  lemma {:induction false} UnknownIgnored(acc: map<nat, seq<Byte>>, a: seq<Ie>, ie: Ie, b: seq<Ie>, kinds: Kinds)
    requires ie.tag !in kinds
    ensures BindAll(acc, a + [ie] + b, kinds) == BindAll(acc, a + b, kinds)
    decreases |a|
  {
    if a == [] {
      assert (a + [ie] + b)[1..] == b && a + b == b;
    } else {
      assert (a + [ie] + b)[1..] == a[1..] + [ie] + b && (a + b)[1..] == a[1..] + b;
      UnknownIgnored(if a[0].tag in kinds then acc[a[0].tag := a[0].value] else acc, a[1..], ie, b, kinds);
    }
  }

  // ---------------------------------------------------------------- writer

  /** The header of 8 bytes: type, flags, sequence number. */
  function Header(msgType: nat, flags: nat, seqNum: nat): (b: seq<Byte>)
    ensures |b| == 8
  {
    ToLe(msgType, 2) + ToLe(flags, 2) + ToLe(seqNum, 4)
  }

  /** The header on the wire. */
  lemma HeaderBytes(msgType: nat, flags: nat, seqNum: nat)
    requires msgType < 0x1_0000 && flags < 0x1_0000 && seqNum < 0x1_0000_0000
    ensures Header(msgType, flags, seqNum) ==
            [msgType % 256, msgType / 256, flags % 256, flags / 256,
             seqNum % 256, seqNum / 0x100 % 256, seqNum / 0x1_0000 % 256, seqNum / 0x100_0000]
  {
    TwoLe(msgType);
    TwoLe(flags);
    FourLe(seqNum);
  }

  lemma Regroup(buf: seq<Byte>, tag: seq<Byte>, len: seq<Byte>, low: seq<Byte>, high: seq<Byte>)
    ensures buf + tag + len + low + high == buf + (tag + len + (low + high))
  {
  }

  lemma Appended(buf: seq<Byte>, header: seq<Byte>, elements: seq<Byte>, more: seq<Byte>)
    requires |buf| >= 4 && buf[4..] == header + elements
    ensures (buf + more)[4..] == header + (elements + more)
  {
  }

  class MessageWriter {
    var buf: seq<Byte>
    ghost const header: seq<Byte>
    ghost var ies: seq<Ie>   // everything written so far

    ghost predicate Valid()
      reads this
    {
      |header| == 8 && |buf| >= 12 && buf[4..] == header + Encode(ies)
    }

    constructor (msgType: nat, seqNum: nat, flags: nat)
      requires msgType < 0x1_0000 && flags < 0x1_0000 && seqNum < 0x1_0000_0000
      ensures Valid() && ies == [] && header == Header(msgType, flags, seqNum)
    {
      header := Header(msgType, flags, seqNum);
      buf := [0, 0, 0, 0] + ToLe(msgType, 2) + ToLe(flags, 2) + ToLe(seqNum, 4);
      ies := [];
    }

    method WriteBytes(tag: nat, value: seq<Byte>)
      requires Valid() && Writable(Ie(tag, value))
      modifies this
      ensures Valid() && ies == old(ies) + [Ie(tag, value)]
    {
      EncodeAppend(ies, Ie(tag, value));
      buf := buf + ToLe(tag, 2) + ToLe(|value|, 2);
      buf := buf + value;
      ies := ies + [Ie(tag, value)];
    }

    method WriteU8(tag: nat, v: nat)
      requires Valid() && tag < 0x1_0000 && v < 0x100
      modifies this
      ensures Valid() && ies == old(ies) + [Ie(tag, ToLe(v, 1))]
    {
      assert ToLe(v, 1) == [v];
      WriteBytes(tag, [v]);
    }

    method WriteU32(tag: nat, v: nat)
      requires Valid() && tag < 0x1_0000 && v < 0x1_0000_0000
      modifies this
      ensures Valid() && ies == old(ies) + [Ie(tag, ToLe(v, 4))]
    {
      WriteBytes(tag, ToLe(v, 4));
    }

    /** Two 32-bit halves, low one first. */
    method WriteU64(tag: nat, v: nat)
      requires Valid() && tag < 0x1_0000 && v < 0x1_0000_0000_0000_0000
      modifies this
      ensures Valid() && ies == old(ies) + [Ie(tag, ToLe(v, 8))]
    {
      hide ToLe, Encode;
      var value, low, high := ToLe(v, 8), ToLe(v % 0x1_0000_0000, 4), ToLe(v / 0x1_0000_0000, 4);
      EncodeAppend(ies, Ie(tag, value));
      LeHalves(v);
      Regroup(buf, ToLe(tag, 2), ToLe(8, 2), low, high);
      Appended(buf, header, Encode(ies), EncodeIe(Ie(tag, value)));
      buf := buf + ToLe(tag, 2) + ToLe(8, 2);
      buf := buf + low;
      buf := buf + high;
      ies := ies + [Ie(tag, value)];
    }

    /** The datagram form: no length prefix. */
    method UdpPayload() returns (p: seq<Byte>)
      requires Valid()
      ensures p == header + Encode(ies)
    {
      p := buf[4..];
    }

    /** The stream form: the length is written over the placeholder. */
    method Frame() returns (f: seq<Byte>)
      requires Valid() && |buf| - 4 < 0x1_0000_0000
      modifies this`buf
      ensures Valid() && f == FrameOf(header + Encode(ies))
    {
      buf := ToLe(|buf| - 4, 4) + buf[4..];
      f := buf;
    }
  }

  lemma Pow256Four()
    ensures Pow256(4) == 0x1_0000_0000 && Pow256(8) == 0x1_0000_0000_0000_0000
  {
    assert Pow256(2) == 0x1_0000 by { assert Pow256(1) == 256; }
    assert Pow256(3) == 0x100_0000;
    assert Pow256(5) == 256 * Pow256(4) && Pow256(6) == 256 * Pow256(5) && Pow256(7) == 256 * Pow256(6);
  }

  // ---------------------------------------------------------------- frames on a stream

  function FrameOf(payload: seq<Byte>): seq<Byte>
  {
    ToLe(|payload|, 4) + payload
  }

  const MAX_PAYLOAD: nat := 65536

  /** One frame off the front of a stream: the payload and the bytes left unread. A length of
      0, or above 65536, is refused. */
  function Deframe(stream: seq<Byte>): Option<(seq<Byte>, seq<Byte>)>
  {
    if |stream| < 4 then None
    else
      var n := FromLe(stream[..4]);
      if n == 0 || n > MAX_PAYLOAD || |stream| < 4 + n then None else Some((stream[4..4 + n], stream[4 + n..]))
  }

  /** A frame on the wire: the length of the payload, then the payload. */
  lemma FrameBytes(payload: seq<Byte>)
    requires |payload| < 0x1_0000_0000
    ensures var n := |payload|;
            FrameOf(payload) == [n % 256, n / 0x100 % 256, n / 0x1_0000 % 256, n / 0x100_0000] + payload
  {
    FourLe(|payload|);
  }

  /** Of a frame that has not arrived whole nothing is taken. */
  lemma FrameCut(payload: seq<Byte>, k: nat)
    requires |payload| < 0x1_0000_0000 && k < 4 + |payload|
    ensures Deframe(FrameOf(payload)[..k]) == None
  {
    var s := FrameOf(payload)[..k];
    if k >= 4 {
      Pow256Four();
      LeRoundTrip(|payload|, 4);
      assert s[..4] == ToLe(|payload|, 4);
    }
  }

  /** A receiver takes exactly one frame off the front and leaves the following bytes; of the
      frames that a sender can write it accepts those of 1 to 65536 bytes. */
  lemma FrameSplits(payload: seq<Byte>, rest: seq<Byte>)
    requires |payload| < 0x1_0000_0000
    ensures Deframe(FrameOf(payload) + rest) == if 1 <= |payload| <= 65536 then Some((payload, rest)) else None
  {
    var s := FrameOf(payload) + rest;
    Pow256Four();
    LeRoundTrip(|payload|, 4);
    assert s[..4] == ToLe(|payload|, 4);
    assert s[4..4 + |payload|] == payload && s[4 + |payload|..] == rest;
  }

  // ---------------------------------------------------------------- reader

  class MessageReader {
    const buf: seq<Byte>
    var pos: nat
    var msgType: nat
    var flags: nat
    var seqNum: nat

    /** The reader starts behind the header, and has read it, when there is a whole one. */
    constructor (payload: seq<Byte>)
      ensures buf == payload && pos == if |payload| >= 8 then 8 else 0
      ensures (msgType, flags, seqNum) == HeaderOf(payload)
    {
      buf := payload;
      pos, msgType, flags, seqNum := 0, 0, 0, 0;
      new;
      if |buf| >= 8 {
        msgType := HeaderU16();
        flags := HeaderU16();
        seqNum := HeaderU32();
        assert buf[..2] == buf[0..2];
      }
    }

    /** Two bytes of the header. */
    method HeaderU16() returns (v: nat)
      requires pos + 2 <= |buf|
      modifies this`pos
      ensures v == FromLe(buf[old(pos)..old(pos) + 2]) && pos == old(pos) + 2
    {
      v := buf[pos] as nat + 256 * (buf[pos + 1] as nat);
      TwoBytes(buf[pos..pos + 2]);
      pos := pos + 2;
    }

    /** Four bytes of the header. */
    method HeaderU32() returns (v: nat)
      requires pos + 4 <= |buf|
      modifies this`pos
      ensures v == FromLe(buf[old(pos)..old(pos) + 4]) && pos == old(pos) + 4
    {
      v := buf[pos] as nat + 0x100 * (buf[pos + 1] as nat) + 0x1_0000 * (buf[pos + 2] as nat)
           + 0x100_0000 * (buf[pos + 3] as nat);
      FourBytes(buf[pos..pos + 4]);
      pos := pos + 4;
    }

    function HasMore(): bool
      reads this
    {
      pos < |buf|
    }

    /** Tag and announced length of the next element, without moving. */
    method Peek() returns (next: Option<(nat, nat)>)
      ensures next == if pos + 4 > |buf| then None
                      else Some((FromLe(buf[pos..pos + 2]), FromLe(buf[pos + 2..pos + 4])))
    {
      if pos + 4 > |buf| {
        return None;
      }
      assert FromLe(buf[pos..pos + 2]) == buf[pos] as nat + 256 * (buf[pos + 1] as nat) by { TwoBytes(buf[pos..pos + 2]); }
      assert FromLe(buf[pos + 2..pos + 4]) == buf[pos + 2] as nat + 256 * (buf[pos + 3] as nat) by {
        TwoBytes(buf[pos + 2..pos + 4]);
      }
      next := Some((buf[pos] as nat + 256 * (buf[pos + 1] as nat), buf[pos + 2] as nat + 256 * (buf[pos + 3] as nat)));
    }

    /** readU8 / readU16 / readU32 / readU64: the header is skipped, the announced length not
        looked at. */
    method ReadFixed(width: nat) returns (value: seq<Byte>)
      requires pos + 4 + width <= |buf|
      modifies this`pos
      ensures value == buf[old(pos) + 4..old(pos) + 4 + width] && pos == old(pos) + 4 + width
    {
      value := buf[pos + 4..pos + 4 + width];
      pos := pos + 4 + width;
    }

    method ReadBytes(len: nat) returns (value: seq<Byte>)
      requires pos + 4 + len <= |buf|
      modifies this`pos
      ensures value == buf[old(pos) + 4..old(pos) + 4 + len] && pos == old(pos) + 4 + len
    {
      pos := pos + 4;
      value := buf[pos..pos + len];
      pos := pos + len;
    }

    method Skip()
      modifies this`pos
      ensures pos == if old(pos) + 4 > |buf| then old(pos)
                     else old(pos) + 4 + FromLe(buf[old(pos) + 2..old(pos) + 4])
    {
      var next := Peek();
      if next.Some? {
        pos := pos + 4 + next.value.1;
      }
    }

    /** The loop that the handlers share: peek, switch on the tag, skip what is unknown. It
        ends on every input. */
    method ParseLoop(kinds: Kinds) returns (result: Parsed)
      modifies this`pos
      ensures result == Scan(buf, old(pos), kinds, map[])
    {
      var values: map<nat, seq<Byte>> := map[];
      while HasMore()
        invariant Scan(buf, pos, kinds, values) == Scan(buf, old(pos), kinds, map[])
        decreases |buf| - pos
      {
        var next := Peek();
        if next.None? {
          break;
        }
        var tag, len := next.value.0, next.value.1;
        if tag in kinds {
          if pos + 4 + ReadLen(kinds, tag, len) > |buf| {
            return Overrun;
          }
          var value;
          match kinds[tag] {
            case Fixed(width) => value := ReadFixed(width);
            case Raw => value := ReadBytes(len);
          }
          values := values[tag := value];
        } else {
          Skip();
        }
      }
      return Bound(values);
    }
  }

  /** What a reader takes for type, flags and sequence number; zeros if there is no whole header. */
  function HeaderOf(payload: seq<Byte>): (nat, nat, nat)
  {
    if |payload| >= 8 then (FromLe(payload[..2]), FromLe(payload[2..4]), FromLe(payload[4..8])) else (0, 0, 0)
  }

  /** The header that was written is the one that is read. */
  lemma HeaderRoundTrip(msgType: nat, flags: nat, seqNum: nat, rest: seq<Byte>)
    requires msgType < 0x1_0000 && flags < 0x1_0000 && seqNum < 0x1_0000_0000
    ensures HeaderOf(Header(msgType, flags, seqNum) + rest) == (msgType, flags, seqNum)
  {
    var b := Header(msgType, flags, seqNum) + rest;
    assert b[..2] == ToLe(msgType, 2) && b[2..4] == ToLe(flags, 2) && b[4..8] == ToLe(seqNum, 4);
    assert Pow256(2) == 0x1_0000 by { assert Pow256(1) == 256; }
    Pow256Four();
    LeRoundTrip(msgType, 2);
    LeRoundTrip(flags, 2);
    LeRoundTrip(seqNum, 4);
  }

  lemma FourBytes(b: seq<Byte>)
    requires |b| == 4
    ensures FromLe(b) == b[0] as nat + 0x100 * (b[1] as nat) + 0x1_0000 * (b[2] as nat) + 0x100_0000 * (b[3] as nat)
  {
    assert FromLe(b) == b[0] + 256 * FromLe(b[1..]) && FromLe(b[1..]) == b[1] + 256 * FromLe(b[1..][1..]);
    assert b[1..][1..] == b[2..];
    TwoBytes(b[2..]);
  }

  lemma TwoBytes(b: seq<Byte>)
    requires |b| == 2
    ensures FromLe(b) == b[0] as nat + 256 * (b[1] as nat)
  {
    assert b[1..][1..] == [] && FromLe(b[1..]) == b[1];
  }

  // ---------------------------------------------------------------- the HSS's use of it

  const DIA_IMSI: nat := 0x0200
  const DIA_PLMN: nat := 0x0201

  /** Parses an authentication request; both values are 0 when absent. */
  method ParseAir(payload: seq<Byte>) returns (imsi: nat, plmn: nat, ok: bool)
    ensures var start := if |payload| >= 8 then 8 else 0;
            var r := Scan(payload, start, map[DIA_IMSI := Fixed(8), DIA_PLMN := Fixed(4)], map[]);
            && ok == r.Bound?
            && (ok ==> imsi == if DIA_IMSI in r.values then FromLe(r.values[DIA_IMSI]) else 0)
            && (ok ==> plmn == if DIA_PLMN in r.values then FromLe(r.values[DIA_PLMN]) else 0)
  {
    var r := new MessageReader(payload);
    var result := r.ParseLoop(map[DIA_IMSI := Fixed(8), DIA_PLMN := Fixed(4)]);
    imsi, plmn, ok := 0, 0, result.Bound?;
    if ok {
      if DIA_IMSI in result.values { imsi := FromLe(result.values[DIA_IMSI]); }
      if DIA_PLMN in result.values { plmn := FromLe(result.values[DIA_PLMN]); }
    }
  }

  /** What the MME writes into an authentication request, the HSS reads. */
  method AirRoundTrip(imsi: nat, plmn: nat, seqNum: nat) returns (imsi': nat, plmn': nat, ok: bool)
    requires imsi < 0x1_0000_0000_0000_0000 && plmn < 0x1_0000_0000 && seqNum < 0x1_0000_0000
    ensures ok && imsi' == imsi && plmn' == plmn
  {
    var kinds: Kinds := map[DIA_IMSI := Fixed(8), DIA_PLMN := Fixed(4)];
    var w := new MessageWriter(0x0101, seqNum, 0);
    w.WriteU64(DIA_IMSI, imsi);
    w.WriteU32(DIA_PLMN, plmn);
    var payload := w.UdpPayload();
    var ies := [Ie(DIA_IMSI, ToLe(imsi, 8)), Ie(DIA_PLMN, ToLe(plmn, 4))];
    assert w.ies == ies;
    ScanEncode(w.header, ies, kinds, map[]);
    BindsLast(ies, kinds, DIA_IMSI);
    BindsLast(ies, kinds, DIA_PLMN);
    assert ies[0].tag == DIA_IMSI && ies[1].tag == DIA_PLMN && ies[..1] == [ies[0]];
    Pow256Four();
    LeRoundTrip(imsi, 8);
    LeRoundTrip(plmn, 4);
    imsi', plmn', ok := ParseAir(payload);
  }
}
