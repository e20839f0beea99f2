/** The two state machines over a link that loses, duplicates, reorders and detectably corrupts. */
module Protocol {
  import opened Packets
  import opened Windows
  import opened Files
  import S = Server
  import R = Rcopy

  /** What one transfer is about; the byte and window limits are those rcopy passes to the server. */
  datatype Config = Config(file: seq<byte>, bufSize: nat, size: nat)

  ghost predicate ConfigOk(cfg: Config) {
    1 <= cfg.bufSize <= MAX_PACKET_LENGTH && cfg.size >= 1
  }

  ghost function Chunks(cfg: Config): seq<seq<byte>>
    requires ConfigOk(cfg)
  {
    Split(cfg.file, cfg.bufSize)
  }

  /**
   * toClient and toServer are the datagrams in flight; inbox is the datagram that select_call
   * has reported to the server and process() has not received yet (Silence when there is none).
   */
  datatype Sys = Sys(server: S.Sender, client: R.Receiver,
                     toClient: multiset<Packet>, toServer: multiset<Packet>, inbox: Arrival)

  datatype Pick = NoPick | Intact(p: Packet) | Corrupt(p: Packet)

  datatype Step =
    | ServerSend(readOk: bool)
    | ServerPoll(pick: Pick)
    | ServerProcess
    | ServerWait(pick: Pick)
    | ServerBye
    | ServerByeWait(pick: Pick)
    | ClientTurn(pick: Pick)
    | DropToClient(p: Packet)
    | DropToServer(p: Packet)
    | DupToClient(p: Packet)
    | DupToServer(p: Packet)

  predicate CanPick(pool: multiset<Packet>, pick: Pick) { pick == NoPick || pick.p in pool }

  function Take(pool: multiset<Packet>, pick: Pick): multiset<Packet> {
    if pick == NoPick then pool else pool - multiset{pick.p}
  }

  function ArrivalOf(pick: Pick): Arrival {
    match pick
    case NoPick => Silence
    case Intact(p) => Got(p)
    case Corrupt(_) => CrcError
  }

  ghost predicate Enabled(s: Sys, st: Step) {
    && S.SenderOk(s.server) && s.client.size >= 1
    && match st
       case ServerSend(_) => s.server.phase == S.SendData
       case ServerPoll(pick) => s.server.phase == S.Polling && CanPick(s.toServer, pick)
       case ServerProcess => s.server.phase == S.Process
       case ServerWait(pick) =>
         s.server.phase == S.WaitOnAck && CanPick(s.toServer, pick) && (s.server.waits >= S.RETRIES ==> pick == NoPick)
       case ServerBye => s.server.phase == S.Bye
       case ServerByeWait(pick) => s.server.phase == S.ByeWait && CanPick(s.toServer, pick)
       case ClientTurn(pick) => R.Live(s.client) && CanPick(s.toClient, pick)
       case DropToClient(p) => p in s.toClient
       case DropToServer(p) => p in s.toServer
       case DupToClient(p) => p in s.toClient
       case DupToServer(p) => p in s.toServer
  }

  ghost function Apply(s: Sys, st: Step): Sys
    requires Enabled(s, st)
  {
    match st
    case ServerSend(readOk) =>
      var (t, out) := S.OnSend(s.server, readOk);
      s.(server := t, toClient := s.toClient + multiset(out))
    case ServerPoll(pick) =>
      s.(server := S.OnPoll(s.server, pick != NoPick), toServer := Take(s.toServer, pick), inbox := ArrivalOf(pick))
    case ServerProcess =>
      var (t, out) := S.OnProcess(s.server, s.inbox);
      s.(server := t, toClient := s.toClient + multiset(out), inbox := Silence)
    case ServerWait(pick) =>
      var (t, out) := S.OnWait(s.server, pick != NoPick);
      s.(server := t, toClient := s.toClient + multiset(out), toServer := Take(s.toServer, pick), inbox := ArrivalOf(pick))
    case ServerBye =>
      var (t, out) := S.OnBye(s.server);
      s.(server := t, toClient := s.toClient + multiset(out))
    case ServerByeWait(pick) =>
      s.(server := S.OnByeWait(s.server, ArrivalOf(pick)), toServer := Take(s.toServer, pick))
    case ClientTurn(pick) =>
      var (c, out) := R.OnArrival(s.client, ArrivalOf(pick));
      s.(client := c, toClient := Take(s.toClient, pick), toServer := s.toServer + multiset(out))
    case DropToClient(p) => s.(toClient := s.toClient - multiset{p})
    case DropToServer(p) => s.(toServer := s.toServer - multiset{p})
    case DupToClient(p) => s.(toClient := s.toClient + multiset{p})
    case DupToServer(p) => s.(toServer := s.toServer + multiset{p})
  }

  /** Both ends as init_window leaves them, with nothing in flight. */
  ghost function Start(cfg: Config): Sys
    requires ConfigOk(cfg)
  {
    Sys(S.Sender(S.SendData, Ring(1, 1, cfg.size, seq(cfg.size, _ => None), seq(cfg.size, _ => false)),
                 cfg.file, cfg.bufSize, None, 0, 0),
        R.Receiver(R.RecvData, cfg.size, 1, map[], []),
        multiset{}, multiset{}, Silence)
  }

  /** At the start only answers to repeated handshakes may be in flight. */
  ghost predicate Init(cfg: Config, s: Sys)
    requires ConfigOk(cfg)
  {
    s == Start(cfg).(toClient := s.toClient) && forall p :: p in s.toClient ==> p == FNAME_OK_ANSWER
  }

  /** steps is a run of the system from s. */
  ghost predicate IsRun(s: Sys, steps: seq<Step>)
    decreases |steps|
  {
    steps == [] || (Enabled(s, steps[0]) && IsRun(Apply(s, steps[0]), steps[1..]))
  }

  ghost function After(s: Sys, steps: seq<Step>): Sys
    requires IsRun(s, steps)
    decreases |steps|
  {
    if steps == [] then s else After(Apply(s, steps[0]), steps[1..])
  }

  // ---- The invariant ----

  ghost function DataPacket(ch: seq<seq<byte>>, n: nat): Packet
    requires 1 <= n <= |ch|
  {
    Packet(n, DATA, ch[n - 1])
  }

  /** p is the DATA packet of a number below hi. */
  ghost predicate Genuine(ch: seq<seq<byte>>, hi: nat, p: Packet) {
    1 <= p.seqNum < hi <= |ch| + 1 && p == DataPacket(ch, p.seqNum)
  }

  /** Every slot holds an original packet; the last size numbers sent are all there; unsent slots are empty. */
  ghost predicate SlotsInv(ch: seq<seq<byte>>, r: Ring)
    requires |r.slots| >= 1
  {
    && (forall k :: 0 <= k < |r.slots| ==> (r.slots[k].None? <==> k + 1 >= r.middle))
    && (forall k :: 0 <= k < |r.slots| && r.slots[k].Some? ==> Genuine(ch, r.middle, r.slots[k].value))
    && (forall n: nat :: 1 <= n < r.middle <= n + |r.slots| && n <= |ch| ==> S.Slot(r, n) == Some(DataPacket(ch, n)))
  }

  /** The server has been sending END_OF_FILE. */
  predicate ByeBegun(s: S.Sender) {
    s.phase == S.Bye || s.phase == S.ByeWait || s.phase == S.Done(S.Acked) || s.phase == S.Done(S.NoByeAck)
  }

  /** The window's shape, what its slots hold, and that the file has been read up to chunk middle - 1. */
  ghost predicate RingInv(cfg: Config, r: Ring, file: seq<byte>)
    requires ConfigOk(cfg)
  {
    var ch := Chunks(cfg);
    && |r.slots| == |r.valid| == cfg.size
    && r.top + 1 == r.bottom + cfg.size
    && 1 <= r.bottom <= r.middle <= r.top + 1
    && r.middle <= |ch| + 1
    && Split(file, cfg.bufSize) == ch[r.middle - 1..]
    && SlotsInv(ch, r)
  }

  ghost predicate ServerInv(cfg: Config, s: S.Sender)
    requires ConfigOk(cfg)
  {
    var ch := Chunks(cfg);
    && s.bufSize == cfg.bufSize
    && RingInv(cfg, s.ring, s.file)
    && (s.eof.Some? ==> s.eof.value == s.ring.middle == |ch| + 1)
    && (ByeBegun(s) ==> s.eof.Some? && s.ring.bottom == |ch| + 1)
    && (!ByeBegun(s) ==> s.byes == 0)
    && (s.phase == S.Bye || s.phase == S.ByeWait ==> s.byes <= S.RETRIES)
    && (s.phase == S.WaitOnAck ==> s.waits <= S.RETRIES)
    && (s.phase == S.SendData || s.phase == S.Polling || s.phase == S.Process ==> s.waits == 0)
  }

  /** Write number i + 1 carries chunk i + 1; only the last chunk may be written with a full buffer's length. */
  ghost predicate WriteOk(cfg: Config, i: nat, w: R.Write)
    requires ConfigOk(cfg)
  {
    var ch := Chunks(cfg);
    && i < |ch| && w.payload == ch[i]
    && (w.len == |ch[i]| || (i == |ch| - 1 && w.len == cfg.bufSize))
  }

  ghost predicate LogInv(cfg: Config, log: seq<R.Write>)
    requires ConfigOk(cfg)
  {
    |log| <= |Chunks(cfg)| && forall i :: 0 <= i < |log| ==> WriteOk(cfg, i, log[i])
  }

  /** Every packet held early is the original of the number it is held under. */
  ghost predicate AllGenuine(cfg: Config, m: map<nat, Packet>, sent: nat)
    requires ConfigOk(cfg)
  {
    forall n :: n in m ==> Genuine(Chunks(cfg), sent, m[n]) && m[n].seqNum == n
  }

  ghost predicate ClientInv(cfg: Config, c: R.Receiver, sent: nat)
    requires ConfigOk(cfg)
  {
    && R.ReceiverOk(c) && c.size == cfg.size
    && c.next <= sent
    && AllGenuine(cfg, c.early, sent)
    && |c.log| == c.next - 1
    && LogInv(cfg, c.log)
    && c.phase != R.Done(R.OutOfWindow)
  }

  ghost predicate ToClientOk(cfg: Config, s: Sys, p: Packet)
    requires ConfigOk(cfg)
  {
    || p == FNAME_OK_ANSWER
    || Genuine(Chunks(cfg), s.server.ring.middle, p)
    || (p == Eof(|Chunks(cfg)| + 1) && ByeBegun(s.server))
  }

  ghost predicate ToServerOk(cfg: Config, s: Sys, p: Packet)
    requires ConfigOk(cfg)
  {
    || ((p == Rr(p.seqNum) || p == Srej(p.seqNum)) && 1 <= p.seqNum <= s.client.next)
    || (p == Rr(|Chunks(cfg)| + 2) && s.client.phase == R.Done(R.EndOfFile))
  }

  ghost predicate LinkInv(cfg: Config, s: Sys)
    requires ConfigOk(cfg)
  {
    && (forall p :: p in s.toClient ==> ToClientOk(cfg, s, p))
    && (forall p :: p in s.toServer ==> ToServerOk(cfg, s, p))
    && (s.inbox.Got? ==> ToServerOk(cfg, s, s.inbox.packet))
    && (s.inbox != Silence <==> s.server.phase == S.Process)
  }

  ghost predicate Inv(cfg: Config, s: Sys)
    requires ConfigOk(cfg)
  {
    && ServerInv(cfg, s.server)
    && ClientInv(cfg, s.client, s.server.ring.middle)
    && LinkInv(cfg, s)
    && s.server.ring.bottom <= s.client.next
    && (s.client.phase == R.Done(R.EndOfFile) ==> ByeBegun(s.server))
    && (s.server.phase == S.Done(S.Acked) ==> s.client.phase == R.Done(R.EndOfFile))
  }

  lemma InitInv(cfg: Config, s: Sys)
    requires ConfigOk(cfg) && Init(cfg, s)
    ensures Inv(cfg, s)
  {
    assert Chunks(cfg)[0..] == Chunks(cfg);
  }

  // ---- Every step keeps it ----

  lemma SendKeepsSlots(ch: seq<seq<byte>>, r: Ring)
    requires |r.slots| == |r.valid| >= 1 && 1 <= r.middle <= |ch| && SlotsInv(ch, r)
    ensures SlotsInv(ch, Add(r.(middle := r.middle + 1), DataPacket(ch, r.middle)))
  {
    var size := |r.slots|;
    var t := Add(r.(middle := r.middle + 1), DataPacket(ch, r.middle));
    if r.middle <= size { FirstLapSlot(r.middle, size); }
    forall n: nat | 1 <= n < t.middle <= n + size ensures S.Slot(t, n) == Some(DataPacket(ch, n)) {
      if n < r.middle {
        DistinctSlots(n, r.middle, size);
        assert S.Slot(r, n) == Some(DataPacket(ch, n));
      }
    }
  }

  lemma ReadIsNextChunk(cfg: Config, s: S.Sender)
    requires ConfigOk(cfg) && ServerInv(cfg, s) && s.file != []
    ensures s.ring.middle <= |Chunks(cfg)|
    ensures var n := S.ReadLength(s.file, s.bufSize);
            && s.file[..n] == Chunks(cfg)[s.ring.middle - 1]
            && Split(s.file[n..], s.bufSize) == Chunks(cfg)[s.ring.middle..]
  {
    var n := S.ReadLength(s.file, s.bufSize);
    var rest := Chunks(cfg)[s.ring.middle - 1..];
    assert rest == [s.file[..n]] + Split(s.file[n..], s.bufSize);
    assert rest[0] == s.file[..n];
    assert rest[1..] == Split(s.file[n..], s.bufSize);
  }

  /** Sending the next chunk advances the ring and the file together. */
  lemma ChunkSent(cfg: Config, r: Ring, file: seq<byte>, rest: seq<byte>)
    requires ConfigOk(cfg) && RingInv(cfg, r, file)
    requires r.middle <= r.top && r.middle <= |Chunks(cfg)|
    requires Split(rest, cfg.bufSize) == Chunks(cfg)[r.middle..]
    ensures RingInv(cfg, Add(r.(middle := r.middle + 1), DataPacket(Chunks(cfg), r.middle)), rest)
  {
    SendKeepsSlots(Chunks(cfg), r);
  }

  lemma EofKeepsServerInv(cfg: Config, s: S.Sender)
    requires ConfigOk(cfg) && ServerInv(cfg, s) && s.phase == S.SendData && s.file == []
    ensures ServerInv(cfg, s.(phase := S.WaitOnAck, eof := Some(s.ring.middle)))
  {
    hide SlotsInv;
    assert Chunks(cfg)[s.ring.middle - 1..] == [];
  }

  lemma SendKeepsServerInv(cfg: Config, s: S.Sender, readOk: bool)
    requires ConfigOk(cfg) && ServerInv(cfg, s) && s.phase == S.SendData
    ensures ServerInv(cfg, S.OnSend(s, readOk).0)
    ensures forall p :: p in S.OnSend(s, readOk).1 ==> Genuine(Chunks(cfg), S.OnSend(s, readOk).0.ring.middle, p)
  {
    if s.ring.middle <= s.ring.top && readOk {
      if s.file == [] {
        EofKeepsServerInv(cfg, s);
      } else {
        ReadIsNextChunk(cfg, s);
        ChunkSent(cfg, s.ring, s.file, S.OnSend(s, readOk).0.file);
        hide RingInv, Split;
      }
    } else {
      hide RingInv, Split;
    }
  }

  /** Sliding to a number in bottom..middle moves bottom and top only: middle is not bumped, the slots stay. */
  lemma AckKeepsRing(cfg: Config, r: Ring, file: seq<byte>, rr: nat)
    requires ConfigOk(cfg) && RingInv(cfg, r, file)
    requires r.bottom <= rr <= r.middle
    ensures RingInv(cfg, SlideTo(r, rr), file)
    ensures SlideTo(r, rr).middle == r.middle
  {
  }

  lemma SlotIsOriginal(cfg: Config, r: Ring, file: seq<byte>, n: nat)
    requires ConfigOk(cfg) && RingInv(cfg, r, file) && n >= 1 && S.Slot(r, n).Some?
    ensures Genuine(Chunks(cfg), r.middle, S.Slot(r, n).value)
  {
  }

  lemma ProcessKeepsServerInv(cfg: Config, s: S.Sender, ev: Arrival, acked: nat)
    requires ConfigOk(cfg) && ServerInv(cfg, s) && s.phase == S.Process && ev != Silence
    requires s.ring.bottom <= acked <= s.ring.middle
    requires ev.Got? ==> (ev.packet.flag == RR || ev.packet.flag == SREJ) && 1 <= ev.packet.seqNum <= acked
    ensures var (t, out) := S.OnProcess(s, ev);
            && ServerInv(cfg, t) && t.ring.middle == s.ring.middle
            && t.ring.bottom <= acked
            && t.phase != S.Process && t.phase != S.Done(S.Acked)
            && forall p :: p in out ==> Genuine(Chunks(cfg), t.ring.middle, p)
  {
    if ev.Got? {
      var n := ev.packet.seqNum;
      if ev.packet.flag == RR {
        if n > s.ring.bottom { AckKeepsRing(cfg, s.ring, s.file, n); }
      } else if S.Slot(s.ring, n).Some? {
        SlotIsOriginal(cfg, s.ring, s.file, n);
      }
    }
  }

  lemma WaitKeepsServerInv(cfg: Config, s: S.Sender, ready: bool)
    requires ConfigOk(cfg) && ServerInv(cfg, s) && s.phase == S.WaitOnAck
    ensures ServerInv(cfg, S.OnWait(s, ready).0)
    ensures forall p :: p in S.OnWait(s, ready).1 ==> Genuine(Chunks(cfg), s.ring.middle, p)
  {
    if S.Slot(s.ring, s.ring.bottom).Some? {
      SlotIsOriginal(cfg, s.ring, s.file, s.ring.bottom);
    }
  }

  /** A held packet written with the length of the packet that filled the gap before it. */
  lemma DrainedWriteOk(cfg: Config, next: nat, sent: nat, p: Packet, q: Packet, n: nat)
    requires ConfigOk(cfg) && Genuine(Chunks(cfg), sent, p) && p.seqNum == next <= n
    requires Genuine(Chunks(cfg), sent, q) && q.seqNum == n
    ensures WriteOk(cfg, n - 1, R.Write(q.payload, |p.payload|))
  {
    if n != next { assert |Chunks(cfg)[next - 1]| == cfg.bufSize; }
  }

  /** The drained run is the next stretch of chunks, at full length unless it ends with the last one. */
  lemma DrainKeepsLog(cfg: Config, c: R.Receiver, sent: nat, p: Packet, held: map<nat, Packet>, gap: nat)
    requires ConfigOk(cfg) && c.next >= 1 && |c.log| == c.next - 1 && LogInv(cfg, c.log) && c.next <= sent
    requires c.next !in c.early && AllGenuine(cfg, c.early, sent) && Genuine(Chunks(cfg), sent, p)
    requires held == c.early[p.seqNum := p] && c.next <= gap
    requires forall n: nat :: c.next <= n < gap ==> n in held
    ensures gap <= sent
    ensures LogInv(cfg, c.log + R.Drained(held, c.next, gap, |p.payload|))
  {
    hide Split;
    if gap > c.next {
      assert c.next in held;
      assert p.seqNum == c.next;
      assert gap - 1 in held && Genuine(Chunks(cfg), sent, held[gap - 1]) && held[gap - 1].seqNum == gap - 1;
      var log := c.log + R.Drained(held, c.next, gap, |p.payload|);
      forall i | 0 <= i < |log| ensures WriteOk(cfg, i, log[i]) {
        if i < |c.log| {
          assert log[i] == c.log[i];
        } else {
          assert log[i] == R.Write(held[i + 1].payload, |p.payload|);
          assert i + 1 in held;
          DrainedWriteOk(cfg, c.next, sent, p, held[i + 1], i + 1);
        }
      }
    }
  }

  lemma RecvDataKeepsInv(cfg: Config, c: R.Receiver, sent: nat, p: Packet)
    requires ConfigOk(cfg) && ClientInv(cfg, c, sent) && c.phase == R.RecvData
    requires Genuine(Chunks(cfg), sent, p) && c.next <= p.seqNum < c.next + c.size
    ensures ClientInv(cfg, R.OnRecvData(c, Got(p)).0, sent)
  {
  }

  lemma MissingKeepsInv(cfg: Config, c: R.Receiver, sent: nat, p: Packet)
    requires ConfigOk(cfg) && ClientInv(cfg, c, sent) && c.phase == R.Missing
    requires Genuine(Chunks(cfg), sent, p) && c.next <= p.seqNum < c.next + c.size
    ensures ClientInv(cfg, R.OnMissing(c, Got(p)).0, sent)
    ensures R.OnMissing(c, Got(p)).0.next >= c.next
  {
    hide LogInv, Genuine, Split;
    R.ArrivalKeepsReceiverOk(c, Got(p));
    var held := c.early[p.seqNum := p];
    var gap := R.FirstGap(held, c.next, c.next + c.size);
    DrainKeepsLog(cfg, c, sent, p, held, gap);
    assert AllGenuine(cfg, held, sent);
    assert AllGenuine(cfg, From(held, gap), sent);
  }

  lemma ClientKeepsInv(cfg: Config, c: R.Receiver, sent: nat, ev: Arrival)
    requires ConfigOk(cfg) && ClientInv(cfg, c, sent) && R.Live(c)
    requires ev.Got? ==>
               || ev.packet == FNAME_OK_ANSWER || ev.packet == Eof(|Chunks(cfg)| + 1)
               || Genuine(Chunks(cfg), sent, ev.packet)
    requires sent <= c.next + c.size
    ensures ClientInv(cfg, R.OnArrival(c, ev).0, sent)
    ensures R.OnArrival(c, ev).0.next >= c.next
  {
    if ev.Got? && ev.packet.flag != END_OF_FILE && ev.packet.seqNum >= c.next {
      if c.phase == R.RecvData {
        RecvDataKeepsInv(cfg, c, sent, ev.packet);
      } else {
        MissingKeepsInv(cfg, c, sent, ev.packet);
      }
    }
  }

  /** What the client says: acknowledgements and rejects up to the number it now expects, or the answer to END_OF_FILE. */
  lemma ClientSays(c: R.Receiver, ev: Arrival)
    requires R.ReceiverOk(c) && R.Live(c)
    ensures var (d, out) := R.OnArrival(c, ev);
            forall p :: p in out ==>
              || ((p == Rr(p.seqNum) || p == Srej(p.seqNum)) && 1 <= p.seqNum <= d.next)
              || (ev.Got? && ev.packet.flag == END_OF_FILE && d.phase == R.Done(R.EndOfFile) &&
                  p == Rr(ev.packet.seqNum + 1))
    ensures R.OnArrival(c, ev).0.phase == R.Done(R.EndOfFile) ==> ev.Got? && ev.packet.flag == END_OF_FILE
  {
  }

  lemma ClientInvGrows(cfg: Config, c: R.Receiver, sent: nat, more: nat)
    requires ConfigOk(cfg) && ClientInv(cfg, c, sent) && sent <= more <= |Chunks(cfg)| + 1
    ensures ClientInv(cfg, c, more)
  {
  }

  /** A server step may add proper packets toward the client, take from toServer and advance; the link stays sound. */
  lemma LinkAfterServer(cfg: Config, s: Sys, t: Sys, out: seq<Packet>)
    requires ConfigOk(cfg) && LinkInv(cfg, s) && t.client == s.client
    requires s.server.ring.middle <= t.server.ring.middle <= |Chunks(cfg)| + 1
    requires ByeBegun(s.server) ==> ByeBegun(t.server)
    requires t.toClient == s.toClient + multiset(out)
    requires forall p :: p in out ==> ToClientOk(cfg, t, p)
    requires forall p :: p in t.toServer ==> p in s.toServer
    requires t.inbox.Got? ==> t.inbox == s.inbox || t.inbox.packet in s.toServer
    requires t.inbox != Silence <==> t.server.phase == S.Process
    ensures LinkInv(cfg, t)
  {
    forall p | p in t.toClient ensures ToClientOk(cfg, t, p) {
      if p !in out {
        assert p in s.toClient && ToClientOk(cfg, s, p);
      }
    }
    forall p | p in t.toServer ensures ToServerOk(cfg, t, p) {
      assert ToServerOk(cfg, s, p);
    }
  }

  lemma LinkAfterClient(cfg: Config, s: Sys, t: Sys, out: seq<Packet>)
    requires ConfigOk(cfg) && LinkInv(cfg, s) && t.server == s.server && t.inbox == s.inbox
    requires s.client.next <= t.client.next && R.Live(s.client)
    requires t.toServer == s.toServer + multiset(out)
    requires forall p :: p in out ==> ToServerOk(cfg, t, p)
    requires forall p :: p in t.toClient ==> p in s.toClient
    ensures LinkInv(cfg, t)
  {
    forall p | p in t.toServer ensures ToServerOk(cfg, t, p) {
      if p !in out {
        assert p in s.toServer && ToServerOk(cfg, s, p);
      }
    }
    forall p | p in t.toClient ensures ToClientOk(cfg, t, p) {
      assert ToClientOk(cfg, s, p);
    }
  }

  lemma ServerSendKeepsInv(cfg: Config, s: Sys, readOk: bool)
    requires ConfigOk(cfg) && Inv(cfg, s) && Enabled(s, ServerSend(readOk))
    ensures Inv(cfg, Apply(s, ServerSend(readOk)))
  {
    var (d, out) := S.OnSend(s.server, readOk);
    SendKeepsServerInv(cfg, s.server, readOk);
    ClientInvGrows(cfg, s.client, s.server.ring.middle, d.ring.middle);
    LinkAfterServer(cfg, s, Apply(s, ServerSend(readOk)), out);
  }

  lemma PollKeepsServerInv(cfg: Config, s: S.Sender, ready: bool)
    requires ConfigOk(cfg) && ServerInv(cfg, s) && s.phase == S.Polling
    ensures ServerInv(cfg, S.OnPoll(s, ready))
    ensures s.ring.middle <= |Chunks(cfg)| + 1
  {
    hide SlotsInv, Split;
  }

  lemma ServerPollKeepsInv(cfg: Config, s: Sys, pick: Pick)
    requires ConfigOk(cfg) && Inv(cfg, s) && Enabled(s, ServerPoll(pick))
    ensures Inv(cfg, Apply(s, ServerPoll(pick)))
  {
    PollKeepsServerInv(cfg, s.server, pick != NoPick);
    hide LinkInv, ServerInv, ClientInv;
    LinkAfterServer(cfg, s, Apply(s, ServerPoll(pick)), []);
  }

  lemma ServerProcessKeepsInv(cfg: Config, s: Sys)
    requires ConfigOk(cfg) && Inv(cfg, s) && Enabled(s, ServerProcess)
    ensures Inv(cfg, Apply(s, ServerProcess))
  {
    ProcessKeepsServerInv(cfg, s.server, s.inbox, s.client.next);
    LinkAfterServer(cfg, s, Apply(s, ServerProcess), S.OnProcess(s.server, s.inbox).1);
  }

  lemma ServerWaitKeepsInv(cfg: Config, s: Sys, pick: Pick)
    requires ConfigOk(cfg) && Inv(cfg, s) && Enabled(s, ServerWait(pick))
    ensures Inv(cfg, Apply(s, ServerWait(pick)))
  {
    WaitKeepsServerInv(cfg, s.server, pick != NoPick);
    LinkAfterServer(cfg, s, Apply(s, ServerWait(pick)), S.OnWait(s.server, pick != NoPick).1);
  }

  lemma ServerByeKeepsInv(cfg: Config, s: Sys)
    requires ConfigOk(cfg) && Inv(cfg, s) && Enabled(s, ServerBye)
    ensures Inv(cfg, Apply(s, ServerBye))
  {
    LinkAfterServer(cfg, s, Apply(s, ServerBye), S.OnBye(s.server).1);
  }

  lemma ServerByeWaitKeepsInv(cfg: Config, s: Sys, pick: Pick)
    requires ConfigOk(cfg) && Inv(cfg, s) && Enabled(s, ServerByeWait(pick))
    ensures Inv(cfg, Apply(s, ServerByeWait(pick)))
  {
    if pick != NoPick { assert ToServerOk(cfg, s, pick.p); }
    LinkAfterServer(cfg, s, Apply(s, ServerByeWait(pick)), []);
  }

  /** What a client turn may find, and how far ahead the server can be. */
  lemma WhatArrives(cfg: Config, s: Sys, pick: Pick)
    requires ConfigOk(cfg) && Inv(cfg, s) && Enabled(s, ClientTurn(pick))
    ensures ClientInv(cfg, s.client, s.server.ring.middle) && R.Live(s.client)
    ensures s.server.ring.middle <= s.client.next + s.client.size && s.server.ring.middle <= |Chunks(cfg)| + 1
    ensures pick != NoPick ==>
              || pick.p == FNAME_OK_ANSWER
              || Genuine(Chunks(cfg), s.server.ring.middle, pick.p)
              || (pick.p == Eof(|Chunks(cfg)| + 1) && ByeBegun(s.server))
  {
    if pick != NoPick { assert ToClientOk(cfg, s, pick.p); }
  }

  /** END_OF_FILE is in flight only when the client expects nothing more. */
  lemma ByeMeansAllReceived(cfg: Config, s: Sys)
    requires ConfigOk(cfg) && Inv(cfg, s) && ByeBegun(s.server)
    ensures s.client.next == s.server.ring.middle == |Chunks(cfg)| + 1 && s.server.eof == Some(|Chunks(cfg)| + 1)
  {
  }

  lemma ClientTurnKeepsInv(cfg: Config, s: Sys, pick: Pick)
    requires ConfigOk(cfg) && Inv(cfg, s) && Enabled(s, ClientTurn(pick))
    ensures Inv(cfg, Apply(s, ClientTurn(pick)))
  {
    WhatArrives(cfg, s, pick);
    if ByeBegun(s.server) { ByeMeansAllReceived(cfg, s); }
    var (d, out) := R.OnArrival(s.client, ArrivalOf(pick));
    ClientKeepsInv(cfg, s.client, s.server.ring.middle, ArrivalOf(pick));
    ClientSays(s.client, ArrivalOf(pick));
    hide R.OnRecvData, R.OnMissing, ServerInv, ClientInv, LinkInv;
    LinkAfterClient(cfg, s, Apply(s, ClientTurn(pick)), out);
  }

  lemma PoolStepKeepsInv(cfg: Config, s: Sys, t: Sys)
    requires ConfigOk(cfg) && Inv(cfg, s)
    requires t == s.(toClient := t.toClient, toServer := t.toServer)
    requires forall p :: p in t.toClient ==> p in s.toClient
    requires forall p :: p in t.toServer ==> p in s.toServer
    ensures Inv(cfg, t)
  {
    forall p | p in t.toClient ensures ToClientOk(cfg, t, p) { assert ToClientOk(cfg, s, p); }
    forall p | p in t.toServer ensures ToServerOk(cfg, t, p) { assert ToServerOk(cfg, s, p); }
  }

  lemma StepKeepsInv(cfg: Config, s: Sys, st: Step)
    requires ConfigOk(cfg) && Inv(cfg, s) && Enabled(s, st)
    ensures Inv(cfg, Apply(s, st))
  {
    hide Inv;
    match st
    case ServerSend(readOk) => ServerSendKeepsInv(cfg, s, readOk);
    case ServerPoll(pick) => ServerPollKeepsInv(cfg, s, pick);
    case ServerProcess => ServerProcessKeepsInv(cfg, s);
    case ServerWait(pick) => ServerWaitKeepsInv(cfg, s, pick);
    case ServerBye => ServerByeKeepsInv(cfg, s);
    case ServerByeWait(pick) => ServerByeWaitKeepsInv(cfg, s, pick);
    case ClientTurn(pick) => ClientTurnKeepsInv(cfg, s, pick);
    case _ => PoolStepKeepsInv(cfg, s, Apply(s, st));
  }

  lemma {:induction false} RunKeepsInv(cfg: Config, s: Sys, steps: seq<Step>)
    requires ConfigOk(cfg) && Inv(cfg, s) && IsRun(s, steps)
    ensures Inv(cfg, After(s, steps))
    decreases |steps|
  {
    hide Inv, Apply, Enabled;
    if steps != [] {
      StepKeepsInv(cfg, s, steps[0]);
      RunKeepsInv(cfg, Apply(s, steps[0]), steps[1..]);
    }
  }
}
