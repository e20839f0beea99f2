/** packet.c and the receive half of networks.c: packets as bytes, with the checksum inside. */
module PacketCodec {
  import opened Packets
  import opened Checksum

  const FULL_LENGTH := MAX_PACKET_LENGTH + HEADER_LENGTH

  predicate Encodable(p: Packet) {
    p.seqNum < 0x1_0000_0000 && |p.payload| <= MAX_PACKET_LENGTH
  }

  /** htonl: the four bytes of n, most significant first. */
  function Big32(n: nat): (b: seq<byte>)
    requires n < 0x1_0000_0000
    ensures |b| == 4
  {
    [n / 0x100_0000, n / 0x1_0000 % 256, n / 256 % 256, n % 256]
  }

  function Nat32(b: seq<byte>, at: nat): (n: nat)
    requires at + 4 <= |b|
    ensures n < 0x1_0000_0000
  {
    var b3: nat, b2: nat, b1: nat, b0: nat := b[at], b[at + 1], b[at + 2], b[at + 3];
    0x100_0000 * b3 + 0x1_0000 * b2 + 256 * b1 + b0
  }

  lemma Big32RoundTrip(n: nat)
    requires n < 0x1_0000_0000
    ensures Nat32(Big32(n), 0) == n
  {
    assert n == 256 * (n / 256) + n % 256;
    assert n / 256 == 256 * (n / 0x1_0000) + n / 256 % 256;
    assert n / 0x1_0000 == 256 * (n / 0x100_0000) + n / 0x1_0000 % 256;
  }

  /** How a host of the given byte order stores a 16-bit value. */
  function Store16(c: nat, order: Order): (b: seq<byte>)
    requires c <= 0xFFFF
    ensures |b| == 2
  {
    if order == LittleEndian then [c % 256, c / 256] else [c / 256, c % 256]
  }

  /** The packet's bytes with a zero checksum field. */
  function Unsummed(p: Packet): (b: seq<byte>)
    requires Encodable(p)
    ensures |b| == HEADER_LENGTH + |p.payload|
  {
    Big32(p.seqNum) + [0, 0, p.flag] + Big32(HEADER_LENGTH + |p.payload|) + p.payload
  }

  function Sealed(b: seq<byte>, c: nat, order: Order): seq<byte>
    requires |b| >= HEADER_LENGTH && c <= 0xFFFF
  {
    b[4 := Store16(c, order)[0]][5 := Store16(c, order)[1]]
  }

  /** The datagram construct() builds on a host of the given byte order. */
  function Wire(p: Packet, order: Order): (b: seq<byte>)
    requires Encodable(p)
    ensures |b| == HEADER_LENGTH + |p.payload|
  {
    Sealed(Unsummed(p), Rfc1071(Unsummed(p), order), order)
  }

  /** What deconstruct() returns; Overrun stands for the copy of a negative length, which has no defined result. */
  datatype Verdict = Value(result: int) | Overrun

  const CRC_ERROR := -1

  function Parse(raw: seq<byte>, order: Order): Verdict
    requires |raw| == FULL_LENGTH
  {
    var size := Nat32(raw, 7);
    if size > FULL_LENGTH then Value(CRC_ERROR)
    else if size < HEADER_LENGTH then Overrun
    else Value(Rfc1071(raw[..size], order))
  }

  /** The payload array after deconstruct(). */
  function PayloadArray(raw: seq<byte>): (b: seq<byte>)
    requires |raw| == FULL_LENGTH && HEADER_LENGTH <= Nat32(raw, 7) <= FULL_LENGTH
    ensures |b| == MAX_PACKET_LENGTH
  {
    raw[HEADER_LENGTH..Nat32(raw, 7)] + Zeros(FULL_LENGTH - Nat32(raw, 7))
  }

  /** What a receive hands on; a Runt is a datagram shorter than a header, whose length comes out negative. */
  datatype Delivery = Arrived(arrival: Arrival) | Runt(length: int) | Undefined

  /** recvfrom() keeps what fits in the buffer. */
  function Kept(datagram: seq<byte>): (d: seq<byte>)
    ensures |d| <= FULL_LENGTH && d <= datagram && (|datagram| <= FULL_LENGTH ==> d == datagram)
  {
    if |datagram| <= FULL_LENGTH then datagram else datagram[..FULL_LENGTH]
  }

  /** The raw buffer once the datagram has landed on what it held before. */
  function Landed(stale: seq<byte>, datagram: seq<byte>): (raw: seq<byte>)
    requires |stale| == FULL_LENGTH
    ensures |raw| == FULL_LENGTH
  {
    Kept(datagram) + stale[|Kept(datagram)|..]
  }

  /** recv_packet: the datagram lands on whatever the raw buffer held before, and is taken apart. */
  function Receive(stale: seq<byte>, datagram: seq<byte>, order: Order): Delivery
    requires |stale| == FULL_LENGTH
  {
    var raw := Landed(stale, datagram);
    match Parse(raw, order)
    case Overrun => Undefined
    case Value(v) =>
      if v != 0 then Arrived(CrcError)
      else if |datagram| < HEADER_LENGTH then Runt(|datagram| - HEADER_LENGTH)
      else Arrived(Got(Packet(Nat32(raw, 0), raw[6], PayloadArray(raw)[..|Kept(datagram)| - HEADER_LENGTH])))
  }

  /** The packet is received as it was sent, and beyond its payload the payload array is zero. */
  ghost predicate ReceivedAsSent(stale: seq<byte>, datagram: seq<byte>, order: Order, p: Packet)
    requires |stale| == FULL_LENGTH
  {
    var raw := Landed(stale, datagram);
    && Receive(stale, datagram, order) == Arrived(Got(p))
    && |p.payload| <= MAX_PACKET_LENGTH && HEADER_LENGTH <= Nat32(raw, 7) <= FULL_LENGTH
    && PayloadArray(raw) == p.payload + Zeros(MAX_PACKET_LENGTH - |p.payload|)
  }

  // ---- Sums under local changes ----

  /** Changing the bytes of one word changes the plain sum by the change of that word. */
  lemma {:induction false} SumChange(b: seq<byte>, c: seq<byte>, j: nat, k: nat, order: Order)
    requires |b| == |c| && k <= Words(b)
    requires forall i :: 0 <= i < |b| && i / 2 != j ==> b[i] == c[i]
    ensures WordSum(c, k, order) - WordSum(b, k, order) == if j < k then WordAt(c, j, order) - WordAt(b, j, order) else 0
    decreases k
  {
    if k > 0 {
      SumChange(b, c, j, k - 1, order);
      if k - 1 != j {
        assert (2 * (k - 1)) / 2 == k - 1 && (2 * (k - 1) + 1) / 2 == k - 1;
      }
    }
  }

  lemma SealedWord(b: seq<byte>, c: nat, order: Order)
    requires |b| >= HEADER_LENGTH && c <= 0xFFFF
    ensures WordAt(Sealed(b, c, order), 2, order) == c
  {
    assert c == 256 * (c / 256) + c % 256;
  }

  /** What the stored checksum does: the whole packet sums to a positive multiple of 0xFFFF. */
  lemma SealedSum(b: seq<byte>, order: Order)
    requires |b| >= HEADER_LENGTH && b[4] == b[5] == 0
    ensures Rfc1071(Sealed(b, Rfc1071(b, order), order), order) == 0
  {
    var c := Rfc1071(b, order);
    var s := Sealed(b, c, order);
    var k := Words(b);
    SumChange(b, s, 2, k, order);
    SealedWord(b, c, order);
    OnesSumIsRep(b, k, order);
    ComplementCompletes(WordSum(b, k, order), c, WordSum(s, k, order));
    ZeroIff(s, order);
  }

  lemma ComplementCompletes(sum: nat, c: nat, total: nat)
    requires c == 0xFFFF - Rep(sum) && total == sum + c
    ensures total > 0 && total % 0xFFFF == 0
  {
    var q := RepIsCongruent(sum);
    assert total == (q + 1) * 0xFFFF;
  }

  // ---- Round trip ----

  lemma Nat32Of(b: seq<byte>, at: nat, n: nat)
    requires at + 4 <= |b| && n < 0x1_0000_0000 && b[at..at + 4] == Big32(n)
    ensures Nat32(b, at) == n
  {
    Big32RoundTrip(n);
    assert b[at..at + 4][0] == b[at] && b[at..at + 4][1] == b[at + 1];
    assert b[at..at + 4][2] == b[at + 2] && b[at..at + 4][3] == b[at + 3];
  }

  /** Where construct() puts the fields. */
  lemma WireFields(p: Packet, order: Order, rest: seq<byte>)
    requires Encodable(p) && |Wire(p, order) + rest| == FULL_LENGTH
    ensures var raw := Wire(p, order) + rest;
            && Nat32(raw, 0) == p.seqNum && raw[6] == p.flag && Nat32(raw, 7) == HEADER_LENGTH + |p.payload|
            && raw[HEADER_LENGTH..HEADER_LENGTH + |p.payload|] == p.payload
            && raw[..HEADER_LENGTH + |p.payload|] == Wire(p, order)
  {
    var raw := Wire(p, order) + rest;
    assert raw[0..4] == Big32(p.seqNum);
    Nat32Of(raw, 0, p.seqNum);
    assert raw[7..11] == Big32(HEADER_LENGTH + |p.payload|);
    Nat32Of(raw, 7, HEADER_LENGTH + |p.payload|);
  }

  lemma WireChecks(p: Packet, sender: Order, receiver: Order)
    requires Encodable(p)
    ensures Rfc1071(Wire(p, sender), receiver) == 0
  {
    SealedSum(Unsummed(p), sender);
    ChecksOnEitherHost(Wire(p, sender));
  }

  /**
   * An undamaged datagram is delivered as the packet that was sent, with zeros beyond the payload, whatever the
   * receive buffer held and whatever the byte orders of the two hosts.
   */
  lemma RoundTrip(p: Packet, sender: Order, stale: seq<byte>, receiver: Order)
    requires Encodable(p) && |stale| == FULL_LENGTH
    ensures ReceivedAsSent(stale, Wire(p, sender), receiver, p)
  {
    var d := Wire(p, sender);
    WireFields(p, sender, stale[|d|..]);
    WireChecks(p, sender, receiver);
    assert PayloadArray(d + stale[|d|..])[..|p.payload|] == p.payload;
  }

  // ---- One byte complemented ----

  /** errorFlipBits: XOR with 0xFF. */
  function FlipAt(b: seq<byte>, i: nat): (c: seq<byte>)
    requires i < |b|
    ensures |c| == |b|
  {
    b[i := 255 - b[i]]
  }

  /** Complementing one byte of a buffer that checks leaves one that does not. */
  lemma FlipSpoilsSum(b: seq<byte>, i: nat, order: Order)
    requires i < |b| && Rfc1071(b, order) == 0
    ensures Rfc1071(FlipAt(b, i), order) != 0
  {
    var k := Words(b);
    SumChange(b, FlipAt(b, i), i / 2, k, order);
    ZeroIff(b, order);
    ZeroIff(FlipAt(b, i), order);
    FlipChangesWord(b, i, order);
    NotBothMultiples(WordSum(b, k, order), WordSum(FlipAt(b, i), k, order));
  }

  lemma FlipChangesWord(b: seq<byte>, i: nat, order: Order)
    requires i < |b|
    ensures var change := WordAt(FlipAt(b, i), i / 2, order) - WordAt(b, i / 2, order);
            change != 0 && -0xFFFF < change < 0xFFFF
  {
  }

  lemma NotBothMultiples(x: nat, y: nat)
    requires x != y && -0xFFFF < x - y < 0xFFFF && x % 0xFFFF == 0
    ensures y % 0xFFFF != 0
  {
  }

  /** Complementing the size field anywhere but in its low byte takes it out of bounds. */
  lemma FlippedSizeTooLarge(p: Packet, order: Order, rest: seq<byte>, i: nat)
    requires Encodable(p) && |Wire(p, order) + rest| == FULL_LENGTH && 7 <= i <= 9
    ensures Nat32(FlipAt(Wire(p, order) + rest, i), 7) > FULL_LENGTH
  {
    WireFields(p, order, rest);
    var raw := Wire(p, order) + rest;
    assert raw[7] == 0 && raw[8] == 0 && raw[9] <= 5 by {
      var size := HEADER_LENGTH + |p.payload|;
      assert raw[7..11] == Big32(size);
      assert raw[7] == raw[7..11][0] && raw[8] == raw[7..11][1] && raw[9] == raw[7..11][2];
    }
  }

  /** A datagram with one byte complemented, other than the low byte of the size at offset 10, is rejected. */
  lemma FlipIsRejected(p: Packet, sender: Order, i: nat, stale: seq<byte>, receiver: Order)
    requires Encodable(p) && i < HEADER_LENGTH + |p.payload| && i != 10 && |stale| == FULL_LENGTH
    ensures Receive(stale, FlipAt(Wire(p, sender), i), receiver) == Arrived(CrcError)
  {
    var d := Wire(p, sender);
    var rest := stale[|d|..];
    assert FlipAt(d, i) + rest == FlipAt(d + rest, i);
    if 7 <= i <= 9 {
      FlippedSizeTooLarge(p, sender, rest, i);
    } else {
      WireFields(p, sender, rest);
      assert Nat32(FlipAt(d + rest, i), 7) == |d|;
      assert FlipAt(d + rest, i)[..|d|] == FlipAt(d, i);
      WireChecks(p, sender, receiver);
      FlipSpoilsSum(d, i, receiver);
    }
  }

  // ---- Offset 10 ----

  /** The size field once its low byte is complemented. */
  function MisreadSize(size: nat): nat { size - size % 256 + (255 - size % 256) }

  lemma MisreadSizeField(p: Packet, order: Order, rest: seq<byte>)
    requires Encodable(p) && |Wire(p, order) + rest| == FULL_LENGTH
    ensures Nat32(FlipAt(Wire(p, order) + rest, 10), 7) == MisreadSize(HEADER_LENGTH + |p.payload|)
  {
    var raw := Wire(p, order) + rest;
    var size := HEADER_LENGTH + |p.payload|;
    WireFields(p, order, rest);
    assert raw[7..11] == Big32(size) && raw[10] == raw[7..11][3];
  }

  /**
   * With the low size byte complemented the checksum is taken over another length. The delivery is neither
   * an error nor the packet as sent exactly when the misread size is below the header's, or when the misread bytes
   * happen to check and either nonzero payload is cut off or nonzero stale bytes are taken for payload.
   */
  lemma OffsetTenIff(p: Packet, sender: Order, stale: seq<byte>, receiver: Order)
    requires Encodable(p) && |stale| == FULL_LENGTH
    ensures var d, size := FlipAt(Wire(p, sender), 10), HEADER_LENGTH + |p.payload|;
            var misread := MisreadSize(size);
            Receive(stale, d, receiver) != Arrived(CrcError) && !ReceivedAsSent(stale, d, receiver, p) <==>
              misread < HEADER_LENGTH ||
              (misread <= FULL_LENGTH && Rfc1071((d + stale[size..])[..misread], receiver) == 0 &&
               ((exists k :: misread - HEADER_LENGTH <= k < |p.payload| && p.payload[k] != 0) ||
                (exists k :: size <= k < misread && stale[k] != 0)))
  {
    hide Receive, Wire, FlipAt, Rfc1071, MisreadSize, PayloadArray, Landed, Nat32;
    var size := HEADER_LENGTH + |p.payload|;
    var d, misread := FlipAt(Wire(p, sender), 10), MisreadSize(size);
    var raw := d + stale[size..];
    ReceiveMisread(p, sender, stale, receiver);
    if HEADER_LENGTH <= misread <= FULL_LENGTH {
      MisreadArray(p, raw, stale, misread);
    }
  }

  lemma ReceiveMisread(p: Packet, sender: Order, stale: seq<byte>, receiver: Order)
    requires Encodable(p) && |stale| == FULL_LENGTH
    ensures var d, size := FlipAt(Wire(p, sender), 10), HEADER_LENGTH + |p.payload|;
            var misread, raw := MisreadSize(size), d + stale[size..];
            && Landed(stale, d) == raw && Nat32(raw, 7) == misread && raw[HEADER_LENGTH..size] == p.payload
            && Receive(stale, d, receiver) ==
                 if misread < HEADER_LENGTH then Undefined
                 else if misread > FULL_LENGTH || Rfc1071(raw[..misread], receiver) != 0 then Arrived(CrcError)
                 else Arrived(Got(Packet(p.seqNum, p.flag, PayloadArray(raw)[..|p.payload|])))
  {
    MisreadFields(p, sender, stale[HEADER_LENGTH + |p.payload|..]);
    hide Wire, Nat32, Rfc1071, FlipAt, MisreadSize;
  }

  lemma MisreadFields(p: Packet, order: Order, rest: seq<byte>)
    requires Encodable(p) && |Wire(p, order) + rest| == FULL_LENGTH
    ensures var raw := FlipAt(Wire(p, order), 10) + rest;
            && Nat32(raw, 0) == p.seqNum && raw[6] == p.flag
            && Nat32(raw, 7) == MisreadSize(HEADER_LENGTH + |p.payload|)
            && raw[HEADER_LENGTH..HEADER_LENGTH + |p.payload|] == p.payload
  {
    var w, size := Wire(p, order), HEADER_LENGTH + |p.payload|;
    var raw := FlipAt(w, 10) + rest;
    assert raw == FlipAt(w + rest, 10);
    MisreadSizeField(p, order, rest);
    WireFields(p, order, rest);
    hide Wire;
    assert raw[HEADER_LENGTH..size] == (w + rest)[HEADER_LENGTH..size];
  }

  /** The payload array handed on when misread bytes were taken for the packet. */
  lemma MisreadArray(p: Packet, raw: seq<byte>, stale: seq<byte>, misread: nat)
    requires Encodable(p) && |raw| == |stale| == FULL_LENGTH
    requires HEADER_LENGTH <= Nat32(raw, 7) == misread <= FULL_LENGTH
    requires var size := HEADER_LENGTH + |p.payload|;
             raw[HEADER_LENGTH..size] == p.payload && raw[size..] == stale[size..]
    ensures PayloadArray(raw) != p.payload + Zeros(MAX_PACKET_LENGTH - |p.payload|) <==>
              (exists k :: misread - HEADER_LENGTH <= k < |p.payload| && p.payload[k] != 0) ||
              (exists k :: HEADER_LENGTH + |p.payload| <= k < misread && stale[k] != 0)
  {
    var size := HEADER_LENGTH + |p.payload|;
    var got, want := PayloadArray(raw), p.payload + Zeros(MAX_PACKET_LENGTH - |p.payload|);
    forall k | 0 <= k < MAX_PACKET_LENGTH
      ensures got[k] == if k >= misread - HEADER_LENGTH then 0
                        else if k < |p.payload| then p.payload[k] else stale[HEADER_LENGTH + k]
    {
      if k < |p.payload| {
        assert raw[HEADER_LENGTH + k] == raw[HEADER_LENGTH..size][k];
      } else {
        assert raw[HEADER_LENGTH + k] == raw[size..][k - |p.payload|];
      }
    }
    if got == want {
      forall k | size <= k < misread ensures stale[k] == 0 { assert got[k - HEADER_LENGTH] == want[k - HEADER_LENGTH]; }
      forall k | misread - HEADER_LENGTH <= k < |p.payload| ensures p.payload[k] == 0 { assert got[k] == want[k]; }
    }
  }

  lemma {:induction false} SameWords(b: seq<byte>, c: seq<byte>, k: nat, order: Order)
    requires k <= Words(b) && k <= Words(c)
    requires forall j :: 0 <= j < k ==> WordAt(b, j, order) == WordAt(c, j, order)
    ensures WordSum(b, k, order) == WordSum(c, k, order)
    decreases k
  {
    if k > 0 { SameWords(b, c, k - 1, order); }
  }

  lemma {:induction false} ZeroTail(b: seq<byte>, k: nat, m: nat, order: Order)
    requires k <= m <= Words(b) && forall i :: 2 * k <= i < |b| ==> b[i] == 0
    ensures WordSum(b, m, order) == WordSum(b, k, order)
    decreases m
  {
    if k < m { ZeroTail(b, k, m - 1, order); }
  }

  const CUT_PAYLOAD: seq<byte> := [0, 22, 255] + Zeros(230)
  const CUT_PACKET: Packet := Packet(1, DATA, CUT_PAYLOAD)

  /** When only a header is read and it checks, the payload is handed on as zeros. */
  lemma HeaderOnly(p: Packet, sender: Order, stale: seq<byte>, receiver: Order)
    requires Encodable(p) && |stale| == FULL_LENGTH && MisreadSize(HEADER_LENGTH + |p.payload|) == HEADER_LENGTH
    requires Rfc1071(FlipAt(Wire(p, sender), 10)[..HEADER_LENGTH], receiver) == 0
    ensures Receive(stale, FlipAt(Wire(p, sender), 10), receiver)
              == Arrived(Got(Packet(p.seqNum, p.flag, Zeros(|p.payload|))))
  {
    var d := FlipAt(Wire(p, sender), 10);
    var raw := d + stale[HEADER_LENGTH + |p.payload|..];
    ReceiveMisread(p, sender, stale, receiver);
    hide Receive, Wire, Rfc1071;
    assert raw[..HEADER_LENGTH] == d[..HEADER_LENGTH];
    assert PayloadArray(raw)[..|p.payload|] == Zeros(|p.payload|);
  }

  /** A complemented byte that is not noticed: the packet arrives with its payload wiped out. */
  lemma OffsetTenCanPass(stale: seq<byte>)
    requires |stale| == FULL_LENGTH
    ensures Encodable(CUT_PACKET) && CUT_PAYLOAD != Zeros(233)
    ensures Receive(stale, FlipAt(Wire(CUT_PACKET, LittleEndian), 10), LittleEndian)
              == Arrived(Got(Packet(1, DATA, Zeros(233))))
  {
    assert CUT_PAYLOAD[2] == 255 && Zeros(233)[2] == 0;
    hide Receive, Wire, Rfc1071;
    CutHeaderChecks();
    HeaderOnly(CUT_PACKET, LittleEndian, stale, LittleEndian);
  }

  lemma CutWireSum()
    ensures var w := Wire(CUT_PACKET, LittleEndian);
            var sum := WordSum(w, 6, LittleEndian) + 22 + 256 * 255;
            sum > 0 && sum % 0xFFFF == 0 && sum == WordSum(w, 122, LittleEndian)
  {
    var w := Wire(CUT_PACKET, LittleEndian);
    WireChecks(CUT_PACKET, LittleEndian, LittleEndian);
    ZeroIff(w, LittleEndian);
    ZeroTail(w, 7, 122, LittleEndian);
    assert WordAt(w, 6, LittleEndian) == 22 + 256 * 255;
  }

  lemma CutHeaderChecks()
    ensures Rfc1071(FlipAt(Wire(CUT_PACKET, LittleEndian), 10)[..11], LittleEndian) == 0
  {
    var w := Wire(CUT_PACKET, LittleEndian);
    var h := FlipAt(w, 10)[..11];
    CutWireSum();
    SameWords(w, h, 5, LittleEndian);
    assert w[10] == 244 && w[11] == 0;
    assert WordAt(w, 5, LittleEndian) == 244 && WordAt(h, 5, LittleEndian) == 11;
    assert WordSum(h, 6, LittleEndian) == WordSum(w, 122, LittleEndian) - 0xFFFF;
    ZeroIff(h, LittleEndian);
  }

  // ---- The struct and its operations ----

  class PacketStruct {
    var seqNum: nat
    var checksum: nat
    var flag: byte
    var size: nat
    const payload: array<byte>
    const raw: array<byte>

    ghost predicate Valid()
      reads this
    {
      payload.Length == MAX_PACKET_LENGTH && raw.Length == FULL_LENGTH && payload != raw
    }

    constructor (seqNum: nat, flag: byte, size: nat, contents: seq<byte>)
      requires |contents| == MAX_PACKET_LENGTH
      ensures Valid() && fresh(payload) && fresh(raw)
      ensures this.seqNum == seqNum && this.flag == flag && this.size == size && payload[..] == contents
    {
      this.seqNum, this.flag, this.size, checksum := seqNum, flag, size, 0;
      payload := new byte[MAX_PACKET_LENGTH](i requires 0 <= i < MAX_PACKET_LENGTH => contents[i]);
      raw := new byte[FULL_LENGTH](_ => 0);
    }

    /** htonl into four bytes of raw. */
    method PutBig32(at: nat, n: nat)
      requires Valid() && at + 4 <= FULL_LENGTH && n < 0x1_0000_0000
      modifies raw
      ensures raw[at..at + 4] == Big32(n)
      ensures forall k :: 0 <= k < FULL_LENGTH && !(at <= k < at + 4) ==> raw[k] == old(raw[k])
    {
      raw[at], raw[at + 1], raw[at + 2], raw[at + 3] := Big32(n)[0], Big32(n)[1], Big32(n)[2], Big32(n)[3];
    }

    /** construct(): the whole payload array is copied, whatever size says; the checksum covers size bytes. */
    method Construct(order: Order)
      requires Valid() && seqNum < 0x1_0000_0000 && HEADER_LENGTH <= size <= FULL_LENGTH
      modifies this`checksum, raw
      ensures raw[..] == Wire(Packet(seqNum, flag, payload[..size - HEADER_LENGTH]), order) + payload[size - HEADER_LENGTH..]
    {
      Layout();
      ghost var p := Packet(seqNum, flag, payload[..size - HEADER_LENGTH]);
      LayoutIsUnsummed(seqNum, flag, size, payload[..]);
      hide Unsummed, Big32, Rfc1071, Sealed;
      Seal(order, Unsummed(p), payload[size - HEADER_LENGTH..]);
    }

    /** The checksum over size bytes, stored in host order. */
    method Seal(order: Order, ghost b: seq<byte>, ghost tail: seq<byte>)
      requires Valid() && HEADER_LENGTH <= size <= FULL_LENGTH
      requires raw[..] == b + tail && |b| == size
      modifies this`checksum, raw
      ensures raw[..] == Sealed(b, Rfc1071(b, order), order) + tail
    {
      assert raw[..size] == b;
      checksum := InCksum(raw, size, order);
      raw[4], raw[5] := Store16(checksum, order)[0], Store16(checksum, order)[1];
    }

    /** Everything construct() writes before it computes the checksum. */
    method Layout()
      requires Valid() && seqNum < 0x1_0000_0000 && HEADER_LENGTH <= size <= FULL_LENGTH
      modifies raw
      ensures raw[..] == Big32(seqNum) + [0, 0, flag] + Big32(size) + payload[..]
    {
      for i := 0 to FULL_LENGTH
        invariant forall k :: 0 <= k < i ==> raw[k] == 0
      {
        raw[i] := 0;
      }
      PutBig32(0, seqNum);
      assert raw[0..4] == Big32(seqNum);
      raw[6] := flag;
      assert raw[0..4] == Big32(seqNum);
      ghost var front := raw[0..7];
      assert front == Big32(seqNum) + [0, 0, flag];
      PutBig32(7, size);
      assert raw[0..7] == front;
      assert raw[..11] == raw[0..7] + raw[7..11];
      for i := 0 to MAX_PACKET_LENGTH
        invariant raw[..11] == Big32(seqNum) + [0, 0, flag] + Big32(size)
        invariant raw[11..11 + i] == payload[..i]
      {
        raw[11 + i] := payload[i];
      }
      assert raw[..] == raw[..11] + raw[11..11 + MAX_PACKET_LENGTH];
    }

    method ClearPayload()
      requires Valid()
      modifies payload
      ensures payload[..] == Zeros(MAX_PACKET_LENGTH)
    {
      for i := 0 to MAX_PACKET_LENGTH
        invariant forall k :: 0 <= k < i ==> payload[k] == 0
      {
        payload[i] := 0;
      }
    }

    method CopyPayload()
      requires Valid() && HEADER_LENGTH <= size <= FULL_LENGTH && payload[..] == Zeros(MAX_PACKET_LENGTH)
      modifies payload
      ensures payload[..] == raw[HEADER_LENGTH..size] + Zeros(FULL_LENGTH - size)
    {
      for i := 0 to size - HEADER_LENGTH
        invariant forall k :: 0 <= k < i ==> payload[k] == raw[HEADER_LENGTH + k]
        invariant forall k :: i <= k < MAX_PACKET_LENGTH ==> payload[k] == 0
      {
        payload[i] := raw[HEADER_LENGTH + i];
      }
    }

    /** deconstruct(). */
    method Deconstruct(order: Order) returns (v: Verdict)
      requires Valid()
      modifies this, payload
      ensures v == Parse(raw[..], order)
      ensures seqNum == Nat32(raw[..], 0) && flag == raw[6] && size == Nat32(raw[..], 7)
      ensures seqNum == ((raw[0] as int * 256 + raw[1]) * 256 + raw[2]) * 256 + raw[3]
      ensures size == ((raw[7] as int * 256 + raw[8]) * 256 + raw[9]) * 256 + raw[10]
      ensures payload[..] == if HEADER_LENGTH <= size <= FULL_LENGTH then PayloadArray(raw[..]) else Zeros(MAX_PACKET_LENGTH)
    {
      ClearPayload();
      seqNum := Nat32(raw[..], 0);
      var high: nat, low: nat := raw[4], raw[5];
      checksum := 256 * high + low;
      flag := raw[6];
      size := Nat32(raw[..], 7);
      if size > FULL_LENGTH {
        return Value(CRC_ERROR);
      }
      if size < HEADER_LENGTH {
        return Overrun;
      }
      CopyPayload();
      var sum := InCksum(raw, size, order);
      v := Value(sum);
    }

    /** recvfrom() into raw. */
    method Overlay(datagram: seq<byte>)
      requires Valid() && |datagram| <= FULL_LENGTH
      modifies raw
      ensures raw[..] == datagram + old(raw[|datagram|..])
    {
      ghost var stale := raw[..];
      for i := 0 to |datagram|
        invariant forall k :: 0 <= k < i ==> raw[k] == datagram[k]
        invariant forall k :: i <= k < FULL_LENGTH ==> raw[k] == stale[k]
      {
        raw[i] := datagram[i];
      }
    }

    /** recv_packet(): CRC_ERROR, or the number of bytes received less the header's. */
    method RecvPacket(datagram: seq<byte>, order: Order) returns (v: Verdict)
      requires Valid()
      modifies this, payload, raw
      ensures Handed(Receive(old(raw[..]), datagram, order), v, seqNum, flag, payload[..])
      ensures Receive(old(raw[..]), datagram, order) == Arrived(CrcError) ==> v == Value(-1)
    {
      hide Rfc1071, Nat32;
      Overlay(Kept(datagram));
      v := Deconstruct(order);
      if v.Value? {
        v := Value(if v.result != 0 then CRC_ERROR else |Kept(datagram)| - HEADER_LENGTH);
      }
    }
  }

  lemma LayoutIsUnsummed(seqNum: nat, flag: byte, size: nat, contents: seq<byte>)
    requires seqNum < 0x1_0000_0000 && HEADER_LENGTH <= size <= FULL_LENGTH && |contents| == MAX_PACKET_LENGTH
    ensures Big32(seqNum) + [0, 0, flag] + Big32(size) + contents ==
            Unsummed(Packet(seqNum, flag, contents[..size - HEADER_LENGTH])) + contents[size - HEADER_LENGTH..]
  {
    hide Big32;
    var header := Big32(seqNum) + [0, 0, flag] + Big32(size);
    assert contents == contents[..size - HEADER_LENGTH] + contents[size - HEADER_LENGTH..];
    assert header + (contents[..size - HEADER_LENGTH] + contents[size - HEADER_LENGTH..])
        == header + contents[..size - HEADER_LENGTH] + contents[size - HEADER_LENGTH..];
  }

  /** What recv_packet leaves to its caller says what was received: the return value and the struct's fields. */
  ghost predicate Handed(d: Delivery, v: Verdict, seqNum: nat, flag: byte, payload: seq<byte>) {
    match d
    case Undefined => v == Overrun
    case Runt(length) => v == Value(length)
    case Arrived(CrcError) => v == Value(CRC_ERROR)
    case Arrived(Got(p)) => v == Value(|p.payload|) && seqNum == p.seqNum && flag == p.flag && p.payload <= payload
    case Arrived(Silence) => false
  }
}
