/** TCP sequence numbers in the capture file: per-connection counters, the handshake written
    before the first data, and the numbers on each data segment. */
module TcpSeq {
  import opened Bits

  // ---------------------------------------------------------------- connections

  datatype Endpoint = Endpoint(ip: nat, port: nat)

  predicate EndpointOk(e: Endpoint)
  {
    e.ip < U32_MOD && e.port < 0x1_0000
  }

  function Addr(e: Endpoint): nat
  {
    e.ip * 0x1_0000 + e.port
  }

  /** Bitwise OR of two naturals. */
  function BitOr(x: nat, y: nat): nat
    decreases x + y
  {
    if x == 0 && y == 0 then 0 else 2 * BitOr(x / 2, y / 2) + (if x % 2 == 1 || y % 2 == 1 then 1 else 0)
  }

  /** The 64-bit key: the lower endpoint shifted by 32, the top 16 of its 48 bits lost, and the
      higher one laid over it. */
  function ConnKey(a: Endpoint, b: Endpoint): nat
  {
    var x, y := Addr(a), Addr(b);
    if x < y then BitOr((x * U32_MOD) % SIZE_MOD, y) else BitOr((y * U32_MOD) % SIZE_MOD, x)
  }

  lemma KeySymmetric(a: Endpoint, b: Endpoint)
    ensures ConnKey(a, b) == ConnKey(b, a)
  {
  }

  lemma BitOrDouble(x: nat, i: nat, y: nat, j: nat)
    requires i < 2 && j < 2
    ensures BitOr(2 * x + i, 2 * y + j) == 2 * BitOr(x, y) + if i == 1 || j == 1 then 1 else 0
  {
    assert (2 * x + i) / 2 == x && (2 * y + j) / 2 == y;
  }

  lemma Halved(u: nat, v: nat, n: nat, h: nat)
    requires n == 2 * h
    ensures u * n + v == 2 * (u * h + v / 2) + v % 2
  {
    assert u * (2 * h) == 2 * (u * h);
  }

  /** Numbers are laid over each other digit by digit, in base n as in base 2. */
  lemma {:induction false} BitOrSplit(u: nat, v: nat, w: nat, z: nat, n: nat)
    requires IsPow2(n) && v < n && z < n
    ensures BitOr(v, z) < n
    ensures BitOr(u * n + v, w * n + z) == BitOr(u, w) * n + BitOr(v, z)
    decreases n
  {
    hide BitOr;
    if n == 1 {
      assert BitOr(0, 0) == 0 by { BitOrZero(0); }
    } else {
      var h := n / 2;
      BitOrSplit(u, v / 2, w, z / 2, h);
      Halved(u, v, n, h);
      Halved(w, z, n, h);
      BitOrDouble(u * h + v / 2, v % 2, w * h + z / 2, z % 2);
      BitOrDouble(v / 2, v % 2, z / 2, z % 2);
      Halved(BitOr(u, w), BitOr(v, z), n, h);
    }
  }

  lemma {:induction false} BitOrZero(y: nat)
    ensures BitOr(0, y) == y && BitOr(y, 0) == y
    decreases y
  {
    if y > 0 {
      BitOrZero(y / 2);
    }
  }

  function Low16(x: nat): (r: nat)
    ensures r < 0x1_0000
  {
    x % 0x1_0000
  }

  /** What is left of two endpoints in their key: the low half of each address, the port of the
      higher endpoint, and the port of the lower one with the top half of the higher address
      laid over it. */
  function KeyParts(low: Endpoint, high: Endpoint): (nat, nat, nat, nat)
  {
    (Low16(low.ip), BitOr(low.port, high.ip / 0x1_0000), Low16(high.ip), high.port)
  }

  lemma HigherParts(high: Endpoint, top: nat, rest: nat)
    requires EndpointOk(high)
    requires top == high.ip / 0x1_0000 && rest == Low16(high.ip) * 0x1_0000 + high.port
    ensures Addr(high) == top * U32_MOD + rest && rest < U32_MOD && top < 0x1_0000
  {
  }

  lemma KeyValue(low: Endpoint, high: Endpoint)
    requires EndpointOk(low) && EndpointOk(high)
    ensures var p := KeyParts(low, high);
            && p.1 < 0x1_0000
            && BitOr((Addr(low) * U32_MOD) % SIZE_MOD, Addr(high))
               == ((p.0 * 0x1_0000 + p.1) * 0x1_0000 + p.2) * 0x1_0000 + p.3
  {
    hide BitOr, IsPow2, Low16, Addr;
    var top, rest := high.ip / 0x1_0000, Low16(high.ip) * 0x1_0000 + high.port;
    var kept := Low16(low.ip) * 0x1_0000 + low.port;
    HigherParts(high, top, rest);
    KeptBits(low);
    SizeModIsPow2();
    Pow2Product(0x1_0000, 0x1_0000);
    BitOrSplit(kept, 0, top, rest, U32_MOD);
    BitOrZero(rest);
    BitOrSplit(Low16(low.ip), low.port, 0, top, 0x1_0000);
    BitOrZero(Low16(low.ip));
  }

  /** Shifting the lower endpoint by 32 keeps 32 of its 48 bits. */
  lemma KeptBits(low: Endpoint)
    requires EndpointOk(low)
    ensures (Addr(low) * U32_MOD) % SIZE_MOD == (Low16(low.ip) * 0x1_0000 + low.port) * U32_MOD
  {
    var q, kept := low.ip / 0x1_0000, Low16(low.ip) * 0x1_0000 + low.port;
    assert Addr(low) * U32_MOD == q * SIZE_MOD + kept * U32_MOD;
    ModUnique(Addr(low) * U32_MOD, SIZE_MOD, q, kept * U32_MOD);
  }

  function Lower(a: Endpoint, b: Endpoint): Endpoint
  {
    if Addr(a) < Addr(b) then a else b
  }

  function Higher(a: Endpoint, b: Endpoint): Endpoint
  {
    if Addr(a) < Addr(b) then b else a
  }

  /** Symmetric, but not injective: exactly when two connections share a key. */
  lemma SameKey(a: Endpoint, b: Endpoint, c: Endpoint, d: Endpoint)
    requires EndpointOk(a) && EndpointOk(b) && EndpointOk(c) && EndpointOk(d)
    ensures ConnKey(a, b) == ConnKey(c, d) <==>
            KeyParts(Lower(a, b), Higher(a, b)) == KeyParts(Lower(c, d), Higher(c, d))
  {
    hide BitOr;
    KeyValue(Lower(a, b), Higher(a, b));
    KeyValue(Lower(c, d), Higher(c, d));
    var p, q := KeyParts(Lower(a, b), Higher(a, b)), KeyParts(Lower(c, d), Higher(c, d));
    SameDigits(p, q);
  }

  lemma SameDigits(p: (nat, nat, nat, nat), q: (nat, nat, nat, nat))
    requires p.0 < 0x1_0000 && p.1 < 0x1_0000 && p.2 < 0x1_0000 && p.3 < 0x1_0000
    requires q.0 < 0x1_0000 && q.1 < 0x1_0000 && q.2 < 0x1_0000 && q.3 < 0x1_0000
    ensures (((p.0 * 0x1_0000 + p.1) * 0x1_0000 + p.2) * 0x1_0000 + p.3
             == ((q.0 * 0x1_0000 + q.1) * 0x1_0000 + q.2) * 0x1_0000 + q.3)
            <==> p == q
  {
    if ((p.0 * 0x1_0000 + p.1) * 0x1_0000 + p.2) * 0x1_0000 + p.3
       == ((q.0 * 0x1_0000 + q.1) * 0x1_0000 + q.2) * 0x1_0000 + q.3 {
      QuotientUnique(0x1_0000, (p.0 * 0x1_0000 + p.1) * 0x1_0000 + p.2, p.3,
                     (q.0 * 0x1_0000 + q.1) * 0x1_0000 + q.2, q.3);
      QuotientUnique(0x1_0000, p.0 * 0x1_0000 + p.1, p.2, q.0 * 0x1_0000 + q.1, q.2);
      QuotientUnique(0x1_0000, p.0, p.1, q.0, q.1);
    }
  }

  /** Two connections between the same two nodes, which the ports alone distinguish, with one
      key: 1024 and 1536 become one port under the top half of 10.0.0.2. */
  lemma KeyNotInjective(a: Endpoint, b: Endpoint, peer: Endpoint)
    requires a == Endpoint(0x0A00_0001, 1024) && b == Endpoint(0x0A00_0001, 1536)
    requires peer == Endpoint(0x0A00_0002, 3868)
    ensures EndpointOk(a) && EndpointOk(b) && EndpointOk(peer) && a != b && ConnKey(a, peer) == ConnKey(b, peer)
  {
    SmallMerge();
    hide BitOr;
    assert IsPow2(512) by { assert IsPow2(32); }
    BitOrSplit(2, 0, 5, 0, 512);
    BitOrSplit(3, 0, 5, 0, 512);
    var top := peer.ip / 0x1_0000;
    assert BitOr(a.port, top) == BitOr(b.port, top);
    SameKey(a, peer, b, peer);
  }

  lemma SmallMerge()
    ensures BitOr(2, 5) == BitOr(3, 5)
  {
  }

  /** The endpoint with the lower address plays the client in the data. */
  predicate IsClient(src: Endpoint, dst: Endpoint)
  {
    Addr(src) <= Addr(dst)
  }

  // ---------------------------------------------------------------- the writer

  datatype ConnSeq = ConnSeq(client: nat, server: nat)

  const DEFAULT_SEQ := ConnSeq(1000, 2000)

  const SYN: nat := 0x02
  const SYN_ACK: nat := 0x12
  const ACK: nat := 0x10
  const DATA: nat := 0x18

  datatype Segment = Segment(src: Endpoint, dst: Endpoint, flags: nat, seqNum: nat, ackNum: nat, len: nat)

  /** One payload: the endpoints of the handshake that it makes sure of, its own, its length. */
  datatype Write = Write(hsSrc: Endpoint, hsDst: Endpoint, src: Endpoint, dst: Endpoint, len: nat)

  const PORT_SIP: nat := 5060

  function Diameter(src: Endpoint, dst: Endpoint, len: nat): Write
  {
    Write(src, dst, src, dst, len)
  }

  /** SIP always makes sure of the handshake between the two default SIP ports, which is its own
      only if it uses them. */
  function Sip(src: Endpoint, dst: Endpoint, len: nat): (w: Write)
    ensures w == Diameter(src, dst, len) <==> src.port == 5060 && dst.port == 5060
  {
    Write(src.(port := PORT_SIP), dst.(port := PORT_SIP), src, dst, len)
  }

  datatype Writer = Writer(conn: map<nat, ConnSeq>, started: set<nat>, file: seq<Segment>)

  const FRESH := Writer(map[], {}, [])

  function Seqs(w: Writer, key: nat): ConnSeq
  {
    if key in w.conn then w.conn[key] else DEFAULT_SEQ
  }

  function Handshake(src: Endpoint, dst: Endpoint): seq<Segment>
  {
    [Segment(src, dst, SYN, 1000, 0, 0), Segment(dst, src, SYN_ACK, 2000, 1001, 0), Segment(src, dst, ACK, 1001, 2001, 0)]
  }

  function Ensure(w: Writer, src: Endpoint, dst: Endpoint): Writer
  {
    var key := ConnKey(src, dst);
    if key in w.started then w
    else Writer(w.conn[key := ConnSeq(1001, 2001)], w.started + {key}, w.file + Handshake(src, dst))
  }

  function NextSeq(c: ConnSeq, src: Endpoint, dst: Endpoint): nat
  {
    if IsClient(src, dst) then c.client else c.server
  }

  function PeerSeq(c: ConnSeq, src: Endpoint, dst: Endpoint): nat
  {
    if IsClient(src, dst) then c.server else c.client
  }

  /** A 32-bit sequence number. */
  function Wrap(x: int): (r: nat)
    ensures r < U32_MOD
  {
    x % U32_MOD
  }

  function Advance(c: ConnSeq, src: Endpoint, dst: Endpoint, n: nat): ConnSeq
  {
    if IsClient(src, dst) then c.(client := Wrap(c.client + n)) else c.(server := Wrap(c.server + n))
  }

  function PutData(w: Writer, p: Write): Writer
  {
    var key := ConnKey(p.src, p.dst);
    var c := Seqs(w, key);
    w.(conn := w.conn[key := Advance(c, p.src, p.dst, p.len)],
       file := w.file + [Segment(p.src, p.dst, DATA, NextSeq(c, p.src, p.dst), PeerSeq(c, p.src, p.dst), p.len)])
  }

  function WriteOne(w: Writer, p: Write): Writer
  {
    PutData(Ensure(w, p.hsSrc, p.hsDst), p)
  }

  function WriteAll(ps: seq<Write>): Writer
  {
    if ps == [] then FRESH else WriteOne(WriteAll(ps[..|ps| - 1]), ps[|ps| - 1])
  }

  class PcapWriter {
    var conn: map<nat, ConnSeq>
    var started: set<nat>
    var file: seq<Segment>

    ghost function View(): Writer
      reads this
    {
      Writer(conn, started, file)
    }

    constructor ()
      ensures View() == FRESH
    {
      conn, started, file := map[], {}, [];
    }

    method EnsureTcpHandshake(src: Endpoint, dst: Endpoint)
      modifies this
      ensures View() == Ensure(old(View()), src, dst)
    {
      var key := ConnKey(src, dst);
      if key in started {
        return;
      }
      started := started + {key};
      var cs := DEFAULT_SEQ;
      file := file + [Segment(src, dst, SYN, cs.client, 0, 0)];
      file := file + [Segment(dst, src, SYN_ACK, cs.server, cs.client + 1, 0)];
      file := file + [Segment(src, dst, ACK, cs.client + 1, cs.server + 1, 0)];
      conn := conn[key := ConnSeq(cs.client + 1, cs.server + 1)];
    }

    method WriteData(p: Write)
      modifies this
      ensures View() == WriteOne(old(View()), p)
    {
      EnsureTcpHandshake(p.hsSrc, p.hsDst);
      var key := ConnKey(p.src, p.dst);
      if key !in conn {
        conn := conn[key := DEFAULT_SEQ];
      }
      var cs := conn[key];
      file := file + [Segment(p.src, p.dst, DATA, NextSeq(cs, p.src, p.dst), PeerSeq(cs, p.src, p.dst), p.len)];
      conn := conn[key := Advance(cs, p.src, p.dst, p.len)];
    }
  }

  // ---------------------------------------------------------------- one key

  /** This write makes sure of the key's handshake. */
  predicate Asks(p: Write, key: nat)
  {
    ConnKey(p.hsSrc, p.hsDst) == key
  }

  /** This write's data uses the key's counters. */
  predicate Uses(p: Write, key: nat)
  {
    ConnKey(p.src, p.dst) == key
  }

  /** The first write that asks for the key's handshake; |ps| if none does. */
  function Asked(ps: seq<Write>, key: nat): (h: nat)
    ensures h <= |ps| && (h < |ps| ==> Asks(ps[h], key))
    ensures forall i :: 0 <= i < h ==> !Asks(ps[i], key)
  {
    if ps == [] then 0
    else
      var h := Asked(ps[..|ps| - 1], key);
      if h < |ps| - 1 || Asks(ps[|ps| - 1], key) then h else |ps|
  }

  /** Bytes written under the key by lower endpoints (client) or by higher ones. */
  function RoleBytes(ps: seq<Write>, key: nat, client: bool): nat
  {
    if ps == [] then 0
    else
      var p := ps[|ps| - 1];
      RoleBytes(ps[..|ps| - 1], key, client) + if Uses(p, key) && IsClient(p.src, p.dst) == client then p.len else 0
  }

  function Isn(client: bool): nat
  {
    if client then 1000 else 2000
  }

  /** Where one side of a key stands: one past its first number if there was a handshake, and on
      by what was written since. */
  function Counter(ps: seq<Write>, key: nat, client: bool): nat
  {
    var h := Asked(ps, key);
    if h < |ps| then Wrap(Isn(client) + 1 + RoleBytes(ps[h..], key, client))
    else Wrap(Isn(client) + RoleBytes(ps, key, client))
  }

  /** The same when the data of a further write p is sent: p may have asked first. */
  function CounterFor(ps: seq<Write>, p: Write, key: nat, client: bool): nat
  {
    if Asks(p, key) && Asked(ps, key) == |ps| then Isn(client) + 1 else Counter(ps, key, client)
  }

  ghost predicate CountersOk(w: Writer, ps: seq<Write>, key: nat)
  {
    && (key in w.started <==> Asked(ps, key) < |ps|)
    && Seqs(w, key) == ConnSeq(Counter(ps, key, true), Counter(ps, key, false))
  }

  lemma WrapAdd(x: nat, n: nat)
    ensures Wrap(Wrap(x) + n) == Wrap(x + n)
  {
  }

  lemma RoleBytesStep(ps: seq<Write>, p: Write, key: nat, client: bool)
    ensures RoleBytes(ps + [p], key, client)
            == RoleBytes(ps, key, client) + if Uses(p, key) && IsClient(p.src, p.dst) == client then p.len else 0
  {
    assert (ps + [p])[..|ps|] == ps;
  }

  lemma AskedStep(ps: seq<Write>, p: Write, key: nat)
    ensures Asked(ps + [p], key) == if Asked(ps, key) < |ps| || Asks(p, key) then Asked(ps, key) else |ps| + 1
  {
    assert (ps + [p])[..|ps|] == ps;
  }

  lemma CounterStep(ps: seq<Write>, p: Write, key: nat, client: bool)
    ensures Counter(ps + [p], key, client)
            == if Uses(p, key) && IsClient(p.src, p.dst) == client then Wrap(CounterFor(ps, p, key, client) + p.len)
               else CounterFor(ps, p, key, client)
  {
    hide RoleBytes, Uses, Asks, Wrap;
    var h := Asked(ps, key);
    SmallWraps(client);
    AskedStep(ps, p, key);
    if h < |ps| {
      assert (ps + [p])[h..] == ps[h..] + [p];
      RoleBytesStep(ps[h..], p, key, client);
      WrapAdd(Isn(client) + 1 + RoleBytes(ps[h..], key, client), p.len);
    } else if Asks(p, key) {
      assert (ps + [p])[h..] == [] + [p];
      RoleBytesStep([], p, key, client);
      assert RoleBytes([], key, client) == 0 by { NoRoleBytes(key, client); }
    } else {
      RoleBytesStep(ps, p, key, client);
      WrapAdd(Isn(client) + RoleBytes(ps, key, client), p.len);
    }
  }

  lemma SmallWraps(client: bool)
    ensures Wrap(Isn(client)) == Isn(client) && Wrap(Isn(client) + 1) == Isn(client) + 1
  {
  }

  lemma NoRoleBytes(key: nat, client: bool)
    ensures RoleBytes([], key, client) == 0
  {
  }

  lemma EnsureStep(w: Writer, ps: seq<Write>, p: Write, key: nat)
    requires CountersOk(w, ps, key)
    ensures var w1 := Ensure(w, p.hsSrc, p.hsDst);
            && (key in w1.started <==> Asked(ps + [p], key) <= |ps|)
            && Seqs(w1, key) == ConnSeq(CounterFor(ps, p, key, true), CounterFor(ps, p, key, false))
  {
    hide ConnKey, Counter;
    AskedStep(ps, p, key);
  }

  lemma CountersStep(w: Writer, ps: seq<Write>, p: Write, key: nat)
    requires CountersOk(w, ps, key)
    ensures CountersOk(WriteOne(w, p), ps + [p], key)
  {
    hide ConnKey, Counter, CounterFor, Wrap;
    EnsureStep(w, ps, p, key);
    CounterStep(ps, p, key, true);
    CounterStep(ps, p, key, false);
  }

  /** After any writes on any connections, whether their keys are shared or not, the two counters
      of every key stand where the bytes sent under it by its two sides end, and started holds
      exactly the keys whose handshake was asked for. */
  lemma {:induction false} Counters(ps: seq<Write>, key: nat)
    ensures CountersOk(WriteAll(ps), ps, key)
  {
    hide CountersOk, ConnKey, WriteOne;
    if ps == [] {
      CountersFresh(key);
    } else {
      var init, p := ps[..|ps| - 1], ps[|ps| - 1];
      Counters(init, key);
      assert ps == init + [p];
      CountersStep(WriteAll(init), init, p, key);
    }
  }

  lemma CountersFresh(key: nat)
    ensures CountersOk(FRESH, [], key)
  {
  }

  /** The segment written for p after ps. */
  function SegmentFor(ps: seq<Write>, p: Write): Segment
  {
    var key, client := ConnKey(p.src, p.dst), IsClient(p.src, p.dst);
    Segment(p.src, p.dst, DATA, CounterFor(ps, p, key, client), CounterFor(ps, p, key, !client), p.len)
  }

  lemma LastSegment(ps: seq<Write>, p: Write)
    ensures WriteAll(ps + [p]).file == Ensure(WriteAll(ps), p.hsSrc, p.hsDst).file + [SegmentFor(ps, p)]
  {
    var all, key := ps + [p], ConnKey(p.src, p.dst);
    assert all[..|all| - 1] == ps && all[|all| - 1] == p;
    Counters(ps, key);
    EnsureStep(WriteAll(ps), ps, p, key);
    hide ConnKey, CountersOk, CounterFor, Ensure;
  }

  // ---------------------------------------------------------------- one connection

  /** Bytes written so far from a to b. */
  function Bytes(ps: seq<Write>, a: Endpoint, b: Endpoint): nat
  {
    if ps == [] then 0
    else Bytes(ps[..|ps| - 1], a, b) + if ps[|ps| - 1].src == a && ps[|ps| - 1].dst == b then ps[|ps| - 1].len else 0
  }

  /** First sequence number of an endpoint's data; own: there is a handshake. */
  function First(src: Endpoint, dst: Endpoint, own: bool): nat
  {
    Isn(IsClient(src, dst)) + if own then 1 else 0
  }

  /** Where the stream from src to dst stands. */
  function StreamAt(ps: seq<Write>, src: Endpoint, dst: Endpoint, own: bool): nat
  {
    Wrap(First(src, dst, own) + Bytes(ps, src, dst))
  }

  /** Bytes that other connections wrote under this one's key on the side of a. */
  function Foreign(ps: seq<Write>, a: Endpoint, b: Endpoint): nat
  {
    if ps == [] then 0
    else
      var p := ps[|ps| - 1];
      Foreign(ps[..|ps| - 1], a, b)
      + if Uses(p, ConnKey(a, b)) && IsClient(p.src, p.dst) == IsClient(a, b) && !(p.src == a && p.dst == b)
        then p.len else 0
  }

  /** What keeps the counter away from the stream a to b: bytes of other connections since the
      handshake, less its own from before it, which the handshake wipes out. */
  function Stray(ps: seq<Write>, p: Write, a: Endpoint, b: Endpoint): int
  {
    var h := Asked(ps + [p], ConnKey(a, b));
    if h <= |ps| then Foreign(ps[h..], a, b) - Bytes(ps[..h], a, b) else Foreign(ps, a, b)
  }

  lemma {:induction false} BytesSplit(ps: seq<Write>, qs: seq<Write>, a: Endpoint, b: Endpoint)
    ensures Bytes(ps + qs, a, b) == Bytes(ps, a, b) + Bytes(qs, a, b)
    decreases |qs|
  {
    if qs == [] {
      assert ps + qs == ps;
    } else {
      assert (ps + qs)[..|ps + qs| - 1] == ps + qs[..|qs| - 1];
      BytesSplit(ps, qs[..|qs| - 1], a, b);
    }
  }

  lemma {:induction false} RoleBytesAre(ps: seq<Write>, a: Endpoint, b: Endpoint)
    ensures RoleBytes(ps, ConnKey(a, b), IsClient(a, b)) == Bytes(ps, a, b) + Foreign(ps, a, b)
  {
    hide ConnKey;
    if ps != [] {
      RoleBytesAre(ps[..|ps| - 1], a, b);
    }
  }

  lemma FirstIs(a: Endpoint, b: Endpoint)
    ensures First(a, b, false) == Isn(IsClient(a, b)) && First(a, b, true) == Isn(IsClient(a, b)) + 1
    ensures Wrap(First(a, b, true)) == First(a, b, true)
  {
  }

  /** The key's counter on the side of a, through the bytes a and b exchanged. */
  lemma CounterParts(ps: seq<Write>, a: Endpoint, b: Endpoint, h: nat)
    requires h == Asked(ps, ConnKey(a, b))
    ensures Counter(ps, ConnKey(a, b), IsClient(a, b)) ==
            if h < |ps| then Wrap(First(a, b, true) + (Bytes(ps[h..], a, b) + Foreign(ps[h..], a, b)))
            else Wrap(First(a, b, false) + (Bytes(ps, a, b) + Foreign(ps, a, b)))
  {
    hide ConnKey, RoleBytes, Bytes, Foreign, IsClient, Wrap, Asked, Isn, First;
    FirstIs(a, b);
    if h < |ps| {
      RoleBytesAre(ps[h..], a, b);
    } else {
      RoleBytesAre(ps, a, b);
    }
  }

  lemma NoneYet(a: Endpoint, b: Endpoint)
    ensures Bytes([], a, b) == 0 && Foreign([], a, b) == 0
  {
  }

  /** Stray, by whether the handshake was asked for before p, by p, or not yet. */
  lemma StrayIs(ps: seq<Write>, p: Write, a: Endpoint, b: Endpoint, key: nat, h: nat)
    requires key == ConnKey(a, b) && h == Asked(ps, key)
    ensures Asked(ps + [p], key) <= |ps| <==> h < |ps| || Asks(p, key)
    ensures Stray(ps, p, a, b) == if h < |ps| then Foreign(ps[h..], a, b) - Bytes(ps[..h], a, b)
                                  else if Asks(p, key) then 0 - Bytes(ps, a, b)
                                  else Foreign(ps, a, b)
  {
    hide ConnKey, Bytes, Foreign, Asked, Asks;
    AskedStep(ps, p, key);
    NoneYet(a, b);
    if h == |ps| {
      assert ps[h..] == [] && ps[..h] == ps;
    }
  }

  lemma StrayDecides(ps: seq<Write>, p: Write, a: Endpoint, b: Endpoint)
    ensures var key := ConnKey(a, b);
            CounterFor(ps, p, key, IsClient(a, b)) == StreamAt(ps, a, b, Asked(ps + [p], key) <= |ps|)
            <==> Wrap(Stray(ps, p, a, b)) == 0
  {
    hide ConnKey, Bytes, Foreign, IsClient, First, Isn, Counter, Asked, Wrap, Asks, StreamAt, Stray;
    var key, h := ConnKey(a, b), Asked(ps, ConnKey(a, b));
    StrayIs(ps, p, a, b, key, h);
    if h < |ps| {
      CounterParts(ps, a, b, h);
      SinceHandshake(ps, a, b, h);
    } else if Asks(p, key) {
      FirstIs(a, b);
      WipedOut(ps, a, b);
    } else {
      CounterParts(ps, a, b, h);
      NoHandshake(ps, a, b);
    }
  }

  lemma WipedOut(ps: seq<Write>, a: Endpoint, b: Endpoint)
    ensures First(a, b, true) == StreamAt(ps, a, b, true) <==> Wrap(0 - Bytes(ps, a, b)) == 0
  {
    FirstIs(a, b);
    hide Bytes, First, Wrap;
    var d := Bytes(ps, a, b);
    SameResidue(First(a, b, true), d, 0);
  }

  lemma NoHandshake(ps: seq<Write>, a: Endpoint, b: Endpoint)
    ensures Wrap(First(a, b, false) + (Bytes(ps, a, b) + Foreign(ps, a, b))) == StreamAt(ps, a, b, false)
            <==> Wrap(Foreign(ps, a, b)) == 0
  {
    hide Bytes, Foreign, First, Wrap;
    var x, e := First(a, b, false) + Bytes(ps, a, b), Foreign(ps, a, b);
    SameResidue(x, 0, e);
  }

  lemma SinceHandshake(ps: seq<Write>, a: Endpoint, b: Endpoint, h: nat)
    requires h <= |ps|
    ensures Wrap(First(a, b, true) + (Bytes(ps[h..], a, b) + Foreign(ps[h..], a, b))) == StreamAt(ps, a, b, true)
            <==> Wrap(Foreign(ps[h..], a, b) - Bytes(ps[..h], a, b)) == 0
  {
    hide Bytes, Foreign, First, Wrap;
    assert ps == ps[..h] + ps[h..];
    BytesSplit(ps[..h], ps[h..], a, b);
    var x, d, e := First(a, b, true) + Bytes(ps[h..], a, b), Bytes(ps[..h], a, b), Foreign(ps[h..], a, b);
    SameResidue(x, d, e);
  }

  lemma SameResidue(x: nat, d: nat, e: nat)
    ensures Wrap(x + e) == Wrap(x + d) <==> Wrap(e - d) == 0
  {
  }

  /** After any writes, a data segment starts where the bytes sent before it in its direction end,
      modulo 2^32, exactly if no bytes stray into that side of its counters; and it acknowledges
      exactly what the peer has sent, if none stray into the other side. */
  lemma SegmentsTile(ps: seq<Write>, p: Write)
    requires Addr(p.src) != Addr(p.dst)
    ensures var own := Asked(ps + [p], ConnKey(p.src, p.dst)) <= |ps|;
            var out := WriteAll(ps + [p]).file;
            && out != [] && out[|out| - 1] == SegmentFor(ps, p)
            && (SegmentFor(ps, p).seqNum == StreamAt(ps, p.src, p.dst, own) <==> Wrap(Stray(ps, p, p.src, p.dst)) == 0)
            && (SegmentFor(ps, p).ackNum == StreamAt(ps, p.dst, p.src, own) <==> Wrap(Stray(ps, p, p.dst, p.src)) == 0)
  {
    LastSegment(ps, p);
    KeySymmetric(p.src, p.dst);
    assert IsClient(p.dst, p.src) == !IsClient(p.src, p.dst);
    hide ConnKey, StreamAt, CounterFor, Stray, Asked, Ensure;
    StrayDecides(ps, p, p.src, p.dst);
    StrayDecides(ps, p, p.dst, p.src);
  }

  /** Whatever uses this connection's key is this connection, and none of its data comes before
      its handshake, if it has one. */
  ghost predicate Alone(ps: seq<Write>, a: Endpoint, b: Endpoint)
  {
    var h := Asked(ps, ConnKey(a, b));
    forall i :: 0 <= i < |ps| && Uses(ps[i], ConnKey(a, b)) ==>
      && ((ps[i].src == a && ps[i].dst == b) || (ps[i].src == b && ps[i].dst == a))
      && (h < |ps| ==> h <= i)
  }

  lemma AloneSwap(ps: seq<Write>, a: Endpoint, b: Endpoint)
    requires Alone(ps, a, b)
    ensures Alone(ps, b, a)
  {
    KeySymmetric(a, b);
    hide ConnKey;
  }

  lemma {:induction false} NothingForeign(ps: seq<Write>, a: Endpoint, b: Endpoint)
    requires Addr(a) != Addr(b)
    requires forall i :: 0 <= i < |ps| && Uses(ps[i], ConnKey(a, b)) ==>
               (ps[i].src == a && ps[i].dst == b) || (ps[i].src == b && ps[i].dst == a)
    ensures Foreign(ps, a, b) == 0
  {
    hide ConnKey;
    if ps != [] {
      NothingForeign(ps[..|ps| - 1], a, b);
    }
  }

  lemma {:induction false} NothingSent(ps: seq<Write>, a: Endpoint, b: Endpoint)
    requires forall i :: 0 <= i < |ps| ==> !Uses(ps[i], ConnKey(a, b))
    ensures Bytes(ps, a, b) == 0
  {
    hide ConnKey;
    if ps != [] {
      NothingSent(ps[..|ps| - 1], a, b);
    }
  }

  /** Nothing strays into a connection that has its key to itself. */
  lemma AloneNoStray(ps: seq<Write>, p: Write, a: Endpoint, b: Endpoint)
    requires Addr(a) != Addr(b) && Alone(ps + [p], a, b)
    ensures Stray(ps, p, a, b) == 0 && Stray(ps, p, b, a) == 0
  {
    AloneSwap(ps + [p], a, b);
    NoStray(ps, p, a, b);
    NoStray(ps, p, b, a);
  }

  lemma NoStray(ps: seq<Write>, p: Write, a: Endpoint, b: Endpoint)
    requires Addr(a) != Addr(b) && Alone(ps + [p], a, b)
    ensures Stray(ps, p, a, b) == 0
  {
    hide ConnKey, Foreign, Bytes;
    var h := Asked(ps + [p], ConnKey(a, b));
    assert forall i :: 0 <= i < |ps| ==> (ps + [p])[i] == ps[i];
    if h <= |ps| {
      NothingForeign(ps[h..], a, b);
      NothingSent(ps[..h], a, b);
    } else {
      NothingForeign(ps, a, b);
    }
  }

  /** No gap and no overlap between one segment and the next of the same direction. */
  lemma NextFollows(ps: seq<Write>, p: Write, between: seq<Write>, own: bool)
    requires Bytes(between, p.src, p.dst) == 0
    ensures StreamAt(ps + [p] + between, p.src, p.dst, own) == Wrap(StreamAt(ps, p.src, p.dst, own) + p.len)
  {
    BytesSplit(ps + [p], between, p.src, p.dst);
    BytesSplit(ps, [p], p.src, p.dst);
    assert [p][..0] == [] && Bytes([p], p.src, p.dst) == p.len;
    hide Wrap, First;
    WrapAdd(First(p.src, p.dst, own) + Bytes(ps, p.src, p.dst), p.len);
  }

  // ---------------------------------------------------------------- one connection in the file

  /** The segments on a key, in the order of the file. */
  function OnKey(file: seq<Segment>, key: nat): seq<Segment>
  {
    if file == [] then []
    else
      var s := file[|file| - 1];
      OnKey(file[..|file| - 1], key) + if ConnKey(s.src, s.dst) == key then [s] else []
  }

  /** The handshake of the first write that asks for it, if any does. */
  function Opening(ps: seq<Write>, key: nat): seq<Segment>
  {
    var h := Asked(ps, key);
    if h < |ps| then Handshake(ps[h].hsSrc, ps[h].hsDst) else []
  }

  /** The data segments on a key. */
  function DataOn(ps: seq<Write>, key: nat): seq<Segment>
  {
    if ps == [] then []
    else
      var init, p := ps[..|ps| - 1], ps[|ps| - 1];
      DataOn(init, key) + if Uses(p, key) then [SegmentFor(init, p)] else []
  }

  lemma {:induction false} OnKeyAppend(f: seq<Segment>, g: seq<Segment>, key: nat)
    ensures OnKey(f + g, key) == OnKey(f, key) + OnKey(g, key)
    decreases |g|
  {
    hide ConnKey;
    if g == [] {
      assert f + g == f;
    } else {
      assert (f + g)[..|f + g| - 1] == f + g[..|g| - 1];
      OnKeyAppend(f, g[..|g| - 1], key);
    }
  }

  lemma OnKeyOne(s: Segment, key: nat)
    ensures OnKey([s], key) == if ConnKey(s.src, s.dst) == key then [s] else []
  {
    assert [s][..0] == [];
    assert OnKey([], key) == [];
  }

  lemma OnKeyHandshake(src: Endpoint, dst: Endpoint, key: nat)
    ensures OnKey(Handshake(src, dst), key) == if ConnKey(src, dst) == key then Handshake(src, dst) else []
  {
    KeySymmetric(src, dst);
    hide ConnKey, OnKey;
    var h := Handshake(src, dst);
    assert h == [h[0]] + [h[1]] + [h[2]];
    OnKeyAppend([h[0]] + [h[1]], [h[2]], key);
    OnKeyAppend([h[0]], [h[1]], key);
    OnKeyOne(h[0], key);
    OnKeyOne(h[1], key);
    OnKeyOne(h[2], key);
  }

  /** What one more write adds to the segments on a key. */
  lemma OnKeyStep(ps: seq<Write>, p: Write, key: nat)
    ensures OnKey(WriteAll(ps + [p]).file, key)
            == OnKey(WriteAll(ps).file, key)
               + (if Asks(p, key) && Asked(ps, key) == |ps| then Handshake(p.hsSrc, p.hsDst) else [])
               + (if Uses(p, key) then [SegmentFor(ps, p)] else [])
  {
    LastSegment(ps, p);
    var w, s := WriteAll(ps), SegmentFor(ps, p);
    Counters(ps, ConnKey(p.hsSrc, p.hsDst));
    hide ConnKey, OnKey, WriteAll, CounterFor, Counter;
    var w1 := Ensure(w, p.hsSrc, p.hsDst);
    OnKeyAppend(w1.file, [s], key);
    OnKeyOne(s, key);
    if ConnKey(p.hsSrc, p.hsDst) !in w.started {
      OnKeyAppend(w.file, Handshake(p.hsSrc, p.hsDst), key);
      OnKeyHandshake(p.hsSrc, p.hsDst, key);
    }
  }

  /** What the file holds on a key: its data segments, each with its number, and, if a write asked
      for it, one handshake, put in where the first such write came. */
  ghost predicate OnKeyIs(segs: seq<Segment>, ps: seq<Write>, key: nat)
  {
    var d, k := DataOn(ps, key), |DataOn(ps[..Asked(ps, key)], key)|;
    k <= |d| && segs == d[..k] + Opening(ps, key) + d[k..]
  }

  /** One more write on a key whose handshake has been asked for. */
  lemma AfterAsked(segs: seq<Segment>, ps: seq<Write>, p: Write, key: nat, more: seq<Segment>)
    requires OnKeyIs(segs, ps, key) && Asked(ps, key) < |ps|
    requires DataOn(ps + [p], key) == DataOn(ps, key) + more
    ensures OnKeyIs(segs + more, ps + [p], key)
  {
    hide DataOn, Asks;
    AskedStep(ps, p, key);
    var h := Asked(ps, key);
    assert (ps + [p])[..h] == ps[..h];
    hide Asked;
  }

  /** While nobody has asked, the file holds data only. */
  lemma NobodyAsked(segs: seq<Segment>, ps: seq<Write>, key: nat)
    requires Asked(ps, key) == |ps|
    ensures OnKeyIs(segs, ps, key) <==> segs == DataOn(ps, key)
  {
    hide DataOn, Asks;
    var d := DataOn(ps, key);
    assert ps[..|ps|] == ps;
    assert d[..|d|] + [] + d[|d|..] == d;
    hide Asked;
  }

  /** The write that asks first. */
  lemma AsksFirst(ps: seq<Write>, p: Write, key: nat, more: seq<Segment>)
    requires Asked(ps, key) == |ps| && Asks(p, key)
    requires DataOn(ps + [p], key) == DataOn(ps, key) + more
    ensures OnKeyIs(DataOn(ps, key) + Handshake(p.hsSrc, p.hsDst) + more, ps + [p], key)
  {
    hide DataOn, Handshake;
    AskedStep(ps, p, key);
    var all, d := ps + [p], DataOn(ps, key);
    assert all[..|ps|] == ps && all[|ps|] == p;
    assert (d + more)[..|d|] == d && (d + more)[|d|..] == more;
    hide Asked, Asks;
  }

  lemma DataOnStep(ps: seq<Write>, p: Write, key: nat)
    ensures DataOn(ps + [p], key) == DataOn(ps, key) + if Uses(p, key) then [SegmentFor(ps, p)] else []
  {
    assert (ps + [p])[..|ps|] == ps;
    hide SegmentFor, Uses;
  }

  lemma FileStep(ps: seq<Write>, p: Write, key: nat, more: seq<Segment>)
    requires OnKeyIs(OnKey(WriteAll(ps).file, key), ps, key)
    requires more == if Uses(p, key) then [SegmentFor(ps, p)] else []
    ensures OnKeyIs(OnKey(WriteAll(ps + [p]).file, key), ps + [p], key)
  {
    hide WriteAll, OnKey, DataOn, Asks, Uses, Asked, SegmentFor, Handshake, OnKeyIs;
    OnKeyStep(ps, p, key);
    DataOnStep(ps, p, key);
    var segs, segs' := OnKey(WriteAll(ps).file, key), OnKey(WriteAll(ps + [p]).file, key);
    if Asked(ps, key) < |ps| {
      assert segs' == segs + more;
      AfterAsked(segs, ps, p, key, more);
    } else {
      NobodyAsked(segs, ps, key);
      if Asks(p, key) {
        AsksFirst(ps, p, key, more);
      } else {
        assert segs' == segs + more;
        AskedStep(ps, p, key);
        NobodyAsked(segs', ps + [p], key);
      }
    }
  }

  /** After any writes on any connections. */
  lemma {:induction false} FileOnKey(ps: seq<Write>, key: nat)
    ensures OnKeyIs(OnKey(WriteAll(ps).file, key), ps, key)
  {
    if ps == [] {
      NothingWritten(key);
    } else {
      var init, p := ps[..|ps| - 1], ps[|ps| - 1];
      hide *;
      assert ps == init + [p];
      FileOnKey(init, key);
      FileStep(init, p, key, if Uses(p, key) then [SegmentFor(init, p)] else []);
    }
  }

  lemma NothingWritten(key: nat)
    ensures OnKey(WriteAll([]).file, key) == []
  {
  }

  /** Data of a connection alone on its key goes between its two endpoints. */
  lemma {:induction false} DataBetween(ps: seq<Write>, a: Endpoint, b: Endpoint)
    requires Alone(ps, a, b)
    ensures forall s :: s in DataOn(ps, ConnKey(a, b)) ==>
              s.flags == DATA && ((s.src == a && s.dst == b) || (s.src == b && s.dst == a))
  {
    hide ConnKey, CounterFor;
    if ps != [] {
      AloneInit(ps, a, b);
      DataBetween(ps[..|ps| - 1], a, b);
    }
  }

  lemma AloneInit(ps: seq<Write>, a: Endpoint, b: Endpoint)
    requires ps != [] && Alone(ps, a, b)
    ensures Alone(ps[..|ps| - 1], a, b)
  {
    hide ConnKey;
    var init, p := ps[..|ps| - 1], ps[|ps| - 1];
    assert ps == init + [p];
    AskedStep(init, p, ConnKey(a, b));
  }

  lemma {:induction false} NoDataNoBytes(ps: seq<Write>, a: Endpoint, b: Endpoint)
    requires forall s :: s in DataOn(ps, ConnKey(a, b)) ==> s.src != a
    ensures Bytes(ps, a, b) == 0
  {
    hide ConnKey, CounterFor;
    if ps != [] {
      var init, p := ps[..|ps| - 1], ps[|ps| - 1];
      assert forall s :: s in DataOn(init, ConnKey(a, b)) ==> s in DataOn(ps, ConnKey(a, b));
      NoDataNoBytes(init, a, b);
      assert Uses(p, ConnKey(a, b)) ==> SegmentFor(init, p) in DataOn(ps, ConnKey(a, b));
    }
  }

  lemma {:induction false} NoUseNoData(ps: seq<Write>, key: nat)
    requires forall i :: 0 <= i < |ps| ==> !Uses(ps[i], key)
    ensures DataOn(ps, key) == []
  {
    hide Uses, SegmentFor;
    if ps != [] {
      NoUseNoData(ps[..|ps| - 1], key);
    }
  }

  /** Before the write that asks for the handshake there is no data. */
  lemma DataAfterAsked(ps: seq<Write>, p: Write, a: Endpoint, b: Endpoint)
    requires Alone(ps + [p], a, b) && Asked(ps + [p], ConnKey(a, b)) <= |ps|
    ensures Alone(ps, a, b)
    ensures Asked(ps, ConnKey(a, b)) < |ps| || DataOn(ps, ConnKey(a, b)) == []
  {
    hide ConnKey, Uses, Asks, SegmentFor, Asked, DataOn;
    var all, key := ps + [p], ConnKey(a, b);
    assert all[..|all| - 1] == ps;
    AloneInit(all, a, b);
    AskedStep(ps, p, key);
    if Asked(ps, key) == |ps| {
      forall i | 0 <= i < |ps| ensures !Uses(ps[i], key) {
        assert all[i] == ps[i];
      }
      NoUseNoData(ps, key);
    }
  }

  /** The first data from a to b has a's first number. */
  lemma FirstOfStream(ps: seq<Write>, p: Write, a: Endpoint, b: Endpoint)
    requires Addr(a) != Addr(b) && Alone(ps + [p], a, b) && Asked(ps + [p], ConnKey(a, b)) <= |ps|
    requires p.src == a && p.dst == b && forall s :: s in DataOn(ps, ConnKey(a, b)) ==> s.src != a
    ensures SegmentFor(ps, p).seqNum == First(a, b, true)
  {
    hide ConnKey, CounterFor, Asked, Bytes, Stray, Wrap, StreamAt, Addr, Alone, DataOn, First;
    AloneNoStray(ps, p, a, b);
    StrayDecides(ps, p, a, b);
    NoDataNoBytes(ps, a, b);
    FirstStream(ps, a, b);
  }

  lemma {:induction false} FirstNumber(ps: seq<Write>, a: Endpoint, b: Endpoint, i: nat)
    requires Addr(a) != Addr(b) && Alone(ps, a, b) && Asked(ps, ConnKey(a, b)) < |ps|
    requires i < |DataOn(ps, ConnKey(a, b))| && DataOn(ps, ConnKey(a, b))[i].src == a
    requires forall j :: 0 <= j < i ==> DataOn(ps, ConnKey(a, b))[j].src != a
    ensures DataOn(ps, ConnKey(a, b))[i].seqNum == First(a, b, true)
  {
    hide ConnKey, SegmentFor, Asked, First, Addr, Alone;
    var key, d := ConnKey(a, b), DataOn(ps, ConnKey(a, b));
    var init, p := ps[..|ps| - 1], ps[|ps| - 1];
    assert ps == init + [p];
    DataAfterAsked(init, p, a, b);
    assert forall j :: 0 <= j < |DataOn(init, key)| ==> DataOn(init, key)[j] == d[j];
    if i < |DataOn(init, key)| {
      FirstNumber(init, a, b, i);
    } else {
      assert d[i] == SegmentFor(init, p) && (d[i].src == p.src && d[i].dst == p.dst) by { Ends(init, p); }
      DataBetween(ps, a, b);
      assert d[i] in d;
      FirstOfStream(init, p, a, b);
    }
  }

  lemma Ends(ps: seq<Write>, p: Write)
    ensures SegmentFor(ps, p).src == p.src && SegmentFor(ps, p).dst == p.dst
  {
  }

  lemma FirstStream(ps: seq<Write>, a: Endpoint, b: Endpoint)
    requires Bytes(ps, a, b) == 0
    ensures StreamAt(ps, a, b, true) == First(a, b, true) && Wrap(0) == 0
  {
  }

  /** The i-th of these is the first data of its sender. */
  predicate FirstFrom(segs: seq<Segment>, i: nat)
    requires i < |segs|
  {
    segs[i].flags == DATA && forall j :: 0 <= j < i && segs[j].flags == DATA ==> segs[j].src != segs[i].src
  }

  /** In the file, a connection alone on its key begins with one handshake, opened by the source
      of the first write that asks for it, and nothing but its data follows. The first data of
      each of its ends goes on from the number that end has in the handshake exactly if the
      opener has the lower address; otherwise each goes on from the other's. */
  lemma ContinuesHandshake(ps: seq<Write>, a: Endpoint, b: Endpoint, h: nat)
    requires Addr(a) != Addr(b) && Alone(ps, a, b)
    requires h == Asked(ps, ConnKey(a, b)) < |ps| && ps[h].hsSrc == a && ps[h].hsDst == b
    ensures var mine := OnKey(WriteAll(ps).file, ConnKey(a, b));
            && |mine| >= 3 && mine[0] == Segment(a, b, 0x02, 1000, 0, 0)
            && mine[1] == Segment(b, a, 0x12, 2000, mine[0].seqNum + 1, 0)
            && mine[2] == Segment(a, b, 0x10, mine[0].seqNum + 1, mine[1].seqNum + 1, 0)
            && (forall i :: 3 <= i < |mine| ==>
                  mine[i].flags == 0x18
                  && ((mine[i].src == a && mine[i].dst == b) || (mine[i].src == b && mine[i].dst == a)))
            && (forall i :: 3 <= i < |mine| && FirstFrom(mine, i) ==>
                  (mine[i].seqNum == (if mine[i].src == a then mine[0] else mine[1]).seqNum + 1
                   <==> Addr(a) < Addr(b)))
  {
    hide ConnKey, WriteAll, OnKey, DataOn, Asked, Alone, First, Addr, FirstFrom;
    var mine, d := OnKey(WriteAll(ps).file, ConnKey(a, b)), DataOn(ps, ConnKey(a, b));
    OpeningThenData(ps, a, b, h);
    DataBetween(ps, a, b);
    assert forall i :: 0 <= i < |d| ==> d[i] in d;
    FirstNumbers(a, b);
    forall i | 3 <= i < |mine| && FirstFrom(mine, i)
      ensures mine[i].seqNum == First(mine[i].src, mine[i].dst, true)
    {
      assert mine[i] == d[i - 3];
      FirstInData(a, b, d, i);
      FirstOfSender(ps, a, b, i - 3);
    }
  }

  lemma OpeningThenData(ps: seq<Write>, a: Endpoint, b: Endpoint, h: nat)
    requires Alone(ps, a, b) && h == Asked(ps, ConnKey(a, b)) < |ps| && ps[h].hsSrc == a && ps[h].hsDst == b
    ensures OnKey(WriteAll(ps).file, ConnKey(a, b)) == Handshake(a, b) + DataOn(ps, ConnKey(a, b))
  {
    hide ConnKey, WriteAll, OnKey, DataOn, Asked, Alone, Handshake;
    FileOnKey(ps, ConnKey(a, b));
    EarlierData(ps, a, b);
    var d := DataOn(ps, ConnKey(a, b));
    assert d[..0] == [] && d[0..] == d;
    assert [] + Handshake(a, b) == Handshake(a, b);
  }

  lemma FirstInData(a: Endpoint, b: Endpoint, d: seq<Segment>, i: nat)
    requires 3 <= i < 3 + |d| && FirstFrom(Handshake(a, b) + d, i)
    requires forall s :: s in d ==> s.flags == DATA
    ensures forall j :: 0 <= j < i - 3 ==> d[j].src != d[i - 3].src
  {
    var mine := Handshake(a, b) + d;
    forall j | 0 <= j < i - 3 ensures d[j].src != d[i - 3].src {
      assert mine[j + 3] == d[j] && d[j] in d;
    }
  }

  /** The first data of either end has its first number. */
  lemma FirstOfSender(ps: seq<Write>, a: Endpoint, b: Endpoint, i: nat)
    requires Addr(a) != Addr(b) && Alone(ps, a, b) && Asked(ps, ConnKey(a, b)) < |ps|
    requires var d := DataOn(ps, ConnKey(a, b));
             i < |d| && forall j :: 0 <= j < i ==> d[j].src != d[i].src
    ensures var s := DataOn(ps, ConnKey(a, b))[i]; s.seqNum == First(s.src, s.dst, true)
  {
    hide ConnKey, DataOn, Asked, Alone, First, Addr;
    DataBetween(ps, a, b);
    assert DataOn(ps, ConnKey(a, b))[i] in DataOn(ps, ConnKey(a, b));
    if DataOn(ps, ConnKey(a, b))[i].src == a {
      FirstNumber(ps, a, b, i);
    } else {
      AloneSwap(ps, a, b);
      KeySymmetric(a, b);
      FirstNumber(ps, b, a, i);
    }
  }

  lemma FirstNumbers(a: Endpoint, b: Endpoint)
    requires Addr(a) != Addr(b)
    ensures First(a, b, true) == (if Addr(a) < Addr(b) then 1001 else 2001)
    ensures First(b, a, true) == (if Addr(a) < Addr(b) then 2001 else 1001)
  {
  }

  lemma EarlierData(ps: seq<Write>, a: Endpoint, b: Endpoint)
    requires Alone(ps, a, b) && Asked(ps, ConnKey(a, b)) < |ps|
    ensures DataOn(ps[..Asked(ps, ConnKey(a, b))], ConnKey(a, b)) == []
  {
    hide ConnKey, Uses, Asks;
    NoUseNoData(ps[..Asked(ps, ConnKey(a, b))], ConnKey(a, b));
  }

  /** The handshake is written exactly once per key, before the first data that asks for it. */
  lemma {:induction false} OneHandshake(ps: seq<Write>, key: nat)
    ensures key in WriteAll(ps).started <==> exists i :: 0 <= i < |ps| && ConnKey(ps[i].hsSrc, ps[i].hsDst) == key
    ensures Syns(WriteAll(ps).file, key) == if key in WriteAll(ps).started then 1 else 0
  {
    StartedIfAsked(ps, key);
    if ps == [] {
    } else {
      var init, p := ps[..|ps| - 1], ps[|ps| - 1];
      hide Syns, WriteOne, ConnKey, Asked, Asks;
      OneHandshake(init, key);
      StartedIfAsked(init, key);
      SynsStep(WriteAll(init), p, key);
      StartedStep(WriteAll(init), p, key);
    }
  }

  lemma StartedIfAsked(ps: seq<Write>, key: nat)
    ensures key in WriteAll(ps).started <==> exists i :: 0 <= i < |ps| && ConnKey(ps[i].hsSrc, ps[i].hsDst) == key
  {
    Counters(ps, key);
    hide WriteAll, ConnKey, Counter, Seqs;
    var h := Asked(ps, key);
    if h < |ps| {
      assert Asks(ps[h], key);
    }
  }

  lemma StartedStep(w: Writer, p: Write, key: nat)
    ensures key in WriteOne(w, p).started <==> key in w.started || ConnKey(p.hsSrc, p.hsDst) == key
  {
    hide ConnKey;
  }

  /** SYN segments on this key. */
  function Syns(file: seq<Segment>, key: nat): nat
  {
    if file == [] then 0
    else
      var s := file[|file| - 1];
      Syns(file[..|file| - 1], key) + if s.flags == SYN && ConnKey(s.src, s.dst) == key then 1 else 0
  }

  lemma SynsAppend(file: seq<Segment>, s: Segment, key: nat)
    ensures Syns(file + [s], key) == Syns(file, key) + if s.flags == SYN && ConnKey(s.src, s.dst) == key then 1 else 0
  {
    assert (file + [s])[..|file|] == file;
  }

  lemma SynsStep(w: Writer, p: Write, key: nat)
    ensures var hs := ConnKey(p.hsSrc, p.hsDst);
            Syns(WriteOne(w, p).file, key) == Syns(w.file, key) + if hs == key && key !in w.started then 1 else 0
  {
    hide ConnKey, Syns;
    var h := Handshake(p.hsSrc, p.hsDst);
    var f := w.file;
    SynsAppend(f, h[0], key);
    SynsAppend(f + [h[0]], h[1], key);
    SynsAppend(f + [h[0]] + [h[1]], h[2], key);
    assert f + h == f + [h[0]] + [h[1]] + [h[2]];
    var w1 := Ensure(w, p.hsSrc, p.hsDst);
    var out := WriteOne(w, p).file;
    assert out == w1.file + [out[|out| - 1]];
    SynsAppend(w1.file, out[|out| - 1], key);
  }
}
