/** The wire format in plain numbers: where each byte of a packet goes, what fits, and what a full transfer sends. */
module WireFormat {
  import opened Packets
  import opened Files
  import opened Checksum
  import opened PacketCodec
  import opened Protocol

  // ---- Network byte order ----

  /** A number below 256 is its last byte. */
  lemma SmallBig32(n: nat)
    requires n < 256
    ensures Big32(n) == [0, 0, 0, n]
  {
  }

  /** Appending a byte moves the others one place to the front. */
  lemma Big32Shifts(n: nat, b: nat)
    requires n < 0x100_0000 && b < 256
    ensures Big32(256 * n + b) == Big32(n)[1..] + [b]
  {
    assert (256 * n + b) / 256 == n && (256 * n + b) % 256 == b;
    assert (256 * n + b) / 0x1_0000 == n / 256 && (256 * n + b) / 0x100_0000 == n / 0x1_0000;
    assert n / 0x1_0000 % 256 == n / 0x1_0000;
  }

  /** The number that four bytes spell, the most significant first. */
  function Spelled(b0: byte, b1: byte, b2: byte, b3: byte): nat {
    ((b0 as int * 256 + b1) * 256 + b2) * 256 + b3
  }

  lemma Big32Spells(n: nat)
    requires n < 0x1_0000_0000
    ensures var b := Big32(n); Spelled(b[0], b[1], b[2], b[3]) == n
  {
    assert n == 256 * (n / 256) + n % 256;
    assert n / 256 == 256 * (n / 0x1_0000) + n / 256 % 256;
    assert n / 0x1_0000 == 256 * (n / 0x100_0000) + n / 0x1_0000 % 256;
  }

  /**
   * A datagram: the number at offset 0 and the size at offset 7, most significant byte first, the flag at offset 6,
   * the payload from offset 11; the two bytes at offset 4 make the whole sum check on either kind of host.
   */
  lemma WireLayout(p: Packet, sender: Order, receiver: Order)
    requires p.seqNum < 0x1_0000_0000 && |p.payload| <= 1400
    ensures var w := Wire(p, sender);
            && |w| == 11 + |p.payload|
            && Spelled(w[0], w[1], w[2], w[3]) == p.seqNum && w[6] == p.flag
            && Spelled(w[7], w[8], w[9], w[10]) == 11 + |p.payload| && w[11..] == p.payload
            && Rfc1071(w, receiver) == 0
  {
    var w, size := Wire(p, sender), 11 + |p.payload|;
    Big32Spells(p.seqNum);
    Big32Spells(size);
    assert w[0..4] == Big32(p.seqNum) && w[7..11] == Big32(size);
    assert w[0..4][0] == w[0] && w[0..4][1] == w[1] && w[0..4][2] == w[2] && w[0..4][3] == w[3];
    assert w[7..11][0] == w[7] && w[7..11][1] == w[8] && w[7..11][2] == w[9] && w[7..11][3] == w[10];
    WireChecks(p, sender, receiver);
  }

  /** The messages without payload: eleven bytes, told apart by the flag. */
  lemma ControlDatagrams(n: nat, order: Order)
    requires n < 0x1_0000_0000
    ensures Wire(Rr(n), order)[6..] == [3, 0, 0, 0, 11]
    ensures Wire(Srej(n), order)[6..] == [4, 0, 0, 0, 11]
    ensures Wire(Eof(n), order)[6..] == [8, 0, 0, 0, 11]
    ensures Wire(FNAME_OK_ANSWER, order)[..4] == [0, 0, 0, 0] && Wire(FNAME_OK_ANSWER, order)[6..] == [6, 0, 0, 0, 11]
  {
    hide Wire;
    HeaderTail(n, RR, order);
    HeaderTail(n, SREJ, order);
    HeaderTail(n, END_OF_FILE, order);
    HeaderTail(0, FNAME_OK, order);
    SmallBig32(0);
  }

  lemma HeaderTail(n: nat, flag: byte, order: Order)
    requires n < 0x1_0000_0000
    ensures var w := Wire(Packet(n, flag, []), order); |w| == 11 && w[6..] == [flag, 0, 0, 0, 11] && w[..4] == Big32(n)
  {
    SmallBig32(11);
    hide Big32, Rfc1071;
    assert Unsummed(Packet(n, flag, []))[6..] == [flag] + Big32(11);
  }

  // ---- What fits ----

  lemma LandedFields(d: seq<byte>, stale: seq<byte>)
    requires |d| >= 11 && |stale| == 1411
    ensures var raw := Landed(stale, d);
            && Nat32(raw, 0) == Spelled(d[0], d[1], d[2], d[3]) && raw[6] == d[6]
            && Nat32(raw, 7) == Spelled(d[7], d[8], d[9], d[10])
  {
    var raw := Landed(stale, d);
    assert forall k :: 0 <= k < 11 ==> raw[k] == d[k];
  }

  /** A size field of 1412 or more is a CRC error, whatever the rest of the datagram. */
  lemma OversizeRejected(d: seq<byte>, stale: seq<byte>, order: Order)
    requires |d| >= 11 && |stale| == 1411 && Spelled(d[7], d[8], d[9], d[10]) >= 1412
    ensures Receive(stale, d, order) == Arrived(CrcError)
  {
    LandedFields(d, stale);
  }

  /** A datagram of 11 to 1411 bytes with its own length in the size field is received exactly when its sum checks. */
  lemma ReceivedIffChecks(d: seq<byte>, stale: seq<byte>, order: Order)
    requires 11 <= |d| <= 1411 && |stale| == 1411 && Spelled(d[7], d[8], d[9], d[10]) == |d|
    ensures Receive(stale, d, order) ==
            if Rfc1071(d, order) == 0 then Arrived(Got(Packet(Spelled(d[0], d[1], d[2], d[3]), d[6], d[11..])))
            else Arrived(CrcError)
  {
    LandedFields(d, stale);
    var raw := Landed(stale, d);
    assert raw[..|d|] == d;
    assert PayloadArray(raw)[..|d| - 11] == raw[11..|d|] == d[11..];
  }

  /** Only the first 1411 bytes of a datagram are received. */
  lemma LongDatagramIsCut(d: seq<byte>, stale: seq<byte>, order: Order)
    requires |d| >= 1411 && |stale| == 1411
    ensures Receive(stale, d, order) == Receive(stale, d[..1411], order)
  {
    assert Landed(stale, d) == Landed(stale, d[..1411]);
  }

  /**
   * Behind a short datagram the receive buffer keeps its old bytes and these are read as well: what is found is what
   * a datagram of the whole buffer gives, but for the length, which is that of the datagram less 11, negative for
   * one that is shorter than a header.
   */
  lemma ShortDatagramReadsOn(d: seq<byte>, stale: seq<byte>, order: Order)
    requires |d| <= 1411 && |stale| == 1411
    ensures var short, whole := Receive(stale, d, order), Receive(stale, d + stale[|d|..], order);
            match whole
            case Arrived(Got(p)) =>
              |p.payload| == 1400 &&
              short == if |d| < 11 then Runt(|d| - 11) else Arrived(Got(Packet(p.seqNum, p.flag, p.payload[..|d| - 11])))
            case _ => short == whole
  {
    var raw := Landed(stale, d);
    assert raw == Landed(stale, d + stale[|d|..]);
    if HEADER_LENGTH <= Nat32(raw, 7) <= FULL_LENGTH && |d| >= 11 {
      assert PayloadArray(raw)[..1400][..|d| - 11] == PayloadArray(raw)[..|d| - 11];
    }
  }

  /** A size field below 11 has no defined result: the length of the copy is negative. */
  lemma UndersizeUndefined(d: seq<byte>, stale: seq<byte>, order: Order)
    requires |d| >= 11 && |stale| == 1411 && Spelled(d[7], d[8], d[9], d[10]) < 11
    ensures Receive(stale, d, order) == Undefined
  {
    LandedFields(d, stale);
  }

  /** Every packet with a 32-bit number and up to 1400 bytes of payload is received as it was sent. */
  lemma FullPacketArrives(p: Packet, sender: Order, stale: seq<byte>, receiver: Order)
    requires p.seqNum < 0x1_0000_0000 && |p.payload| <= 1400 && |stale| == 1411
    ensures Receive(stale, Wire(p, sender), receiver) == Arrived(Got(p))
  {
    WireLayout(p, sender, receiver);
    ReceivedIffChecks(Wire(p, sender), stale, receiver);
  }

  // ---- What a transfer sends ----

  /** Every buffer size up to the largest the program accepts, and every window, makes a transfer with its start. */
  lemma LegalConfigs(file: seq<byte>, bufSize: nat, size: nat, strays: nat)
    ensures ConfigOk(Config(file, bufSize, size)) <==> 1 <= bufSize <= 1400 && 1 <= size
    ensures 1 <= bufSize <= 1400 && 1 <= size ==>
              var cfg := Config(file, bufSize, size);
              Init(cfg, Start(cfg).(toClient := multiset{}[Packet(0, 6, []) := strays]))
  {
  }

  /** Up to len bytes of the file from offset at on. */
  function Cut(file: seq<byte>, at: nat, len: nat): seq<byte>
    requires at <= |file|
  {
    if at + len <= |file| then file[at..at + len] else file[at..]
  }

  /** The chunks are the file cut at the multiples of the buffer size. */
  lemma {:induction false} ChunkIs(file: seq<byte>, bufSize: nat, i: nat, at: nat)
    requires bufSize >= 1 && at == i * bufSize
    ensures i < |Split(file, bufSize)| <==> at < |file|
    ensures at < |file| ==> Split(file, bufSize)[i] == Cut(file, at, bufSize)
    decreases i
  {
    hide Split;
    FirstChunk(file, bufSize);
    if i > 0 {
      assert at - bufSize == (i - 1) * bufSize;
      ProductNotNegative(i - 1, bufSize);
      if |file| >= bufSize {
        var rest := file[bufSize..];
        ChunkIs(rest, bufSize, i - 1, at - bufSize);
        FirstChunkOff(file, bufSize, i);
      }
    }
  }

  lemma FirstChunk(file: seq<byte>, bufSize: nat)
    requires bufSize >= 1
    ensures file != [] ==> |Split(file, bufSize)| >= 1 && Split(file, bufSize)[0] == Cut(file, 0, bufSize)
    ensures |file| < bufSize ==> |Split(file, bufSize)| <= 1
    ensures file == [] ==> Split(file, bufSize) == []
  {
  }

  lemma ProductNotNegative(x: nat, y: nat)
    ensures x * y >= 0
  {
  }

  lemma FirstChunkOff(file: seq<byte>, bufSize: nat, i: nat)
    requires 1 <= bufSize <= |file| && i >= 1
    ensures |Split(file, bufSize)| == |Split(file[bufSize..], bufSize)| + 1
    ensures i < |Split(file, bufSize)| ==> Split(file, bufSize)[i] == Split(file[bufSize..], bufSize)[i - 1]
  {
  }

  /** The chunk at offset at, sent and not damaged, arrives as the DATA packet with that stretch of the file. */
  lemma ChunkArrives(file: seq<byte>, bufSize: nat, size: nat, i: nat, at: nat,
                     sender: Order, stale: seq<byte>, receiver: Order)
    requires 1 <= bufSize <= 1400 && 1 <= size && |stale| == 1411 && i < 0xFFFF_FFFF
    requires at == i * bufSize && at < |file|
    ensures i < |Chunks(Config(file, bufSize, size))|
    ensures Receive(stale, Wire(DataPacket(Chunks(Config(file, bufSize, size)), i + 1), sender), receiver) ==
            Arrived(Got(Packet(i + 1, 1, Cut(file, at, bufSize))))
  {
    hide Wire, Receive;
    ChunkIs(file, bufSize, i, at);
    FullPacketArrives(DataPacket(Split(file, bufSize), i + 1), sender, stale, receiver);
  }
}
