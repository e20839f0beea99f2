/** Every transfer over a link that loses and reorders ends, within a bound computed from its first state. */
module Ending {
  import opened Packets
  import opened Windows
  import opened Protocol
  import opened Progress
  import opened Outcome
  import opened Faultless
  import opened Closing
  import S = Server
  import R = Rcopy

  /** Nothing is duplicated, and unless the file is empty nothing read in WAIT_ON_ACK is damaged. */
  predicate Gentle(cfg: Config, st: Step) {
    !Duplicates(st) && (st.ServerWait? && st.pick.Corrupt? ==> cfg.file == [])
  }

  // ---- Counting messages by weight ----

  /** The rejects in flight of numbers up to hi. */
  function Rejects(pool: multiset<Packet>, hi: nat): nat {
    pool[Srej(hi)] + if hi == 0 then 0 else Rejects(pool, hi - 1)
  }

  function IsReject(p: Packet, hi: nat): nat { if p == Srej(p.seqNum) && p.seqNum <= hi then 1 else 0 }

  lemma {:induction false} RejectsTake(pool: multiset<Packet>, p: Packet, hi: nat)
    requires p in pool
    ensures Rejects(pool - multiset{p}, hi) == Rejects(pool, hi) - IsReject(p, hi)
    decreases hi
  {
    if hi > 0 { RejectsTake(pool, p, hi - 1); }
  }

  lemma {:induction false} RejectsAreSome(pool: multiset<Packet>, hi: nat)
    ensures Rejects(pool, hi) <= |pool|
    decreases |pool|, hi
  {
    if pool == multiset{} {
      if hi > 0 { RejectsAreSome(pool, hi - 1); }
    } else {
      var p :| p in pool;
      RejectsTake(pool, p, hi);
      RejectsAreSome(pool - multiset{p}, hi);
    }
  }

  /** What the level of a transfer says about its messages: the number expected, and whether Rr of it moves the server. */
  datatype Gauge = Gauge(next: nat, moves: bool, expected: Option<Packet>, hi: nat)

  ghost function GaugeOf(cfg: Config, s: Sys): Gauge
    requires ConfigOk(cfg)
  {
    var r, next := s.server.ring, s.client.next;
    Gauge(next, r.bottom < next || r.bottom == r.middle > 1,
          if 1 <= next <= |Chunks(cfg)| then Some(DataPacket(Chunks(cfg), next)) else None, |Chunks(cfg)| + 1)
  }

  lemma SameGauge(cfg: Config, s: Sys, t: Sys)
    requires ConfigOk(cfg) && t.client.next == s.client.next
    requires t.server.ring.bottom == s.server.ring.bottom && t.server.ring.middle == s.server.ring.middle
    ensures GaugeOf(cfg, t) == GaugeOf(cfg, s)
  {
  }

  /** A message to the server: one that moves it is light, one that only restarts its counter pays for all its nudges. */
  function MessageWeight(g: Gauge, p: Packet): nat {
    (if g.moves && p == Rr(g.next) then 1 else 40) + 60 * IsReject(p, g.hi)
  }

  /** A packet to the client: light where its answer moves the server, and the expected chunk moves the client. */
  function PacketWeight(g: Gauge, p: Packet): nat {
    if g.moves then 2 else if g.expected == Some(p) then 1 else 50
  }

  ghost function ServerLine(g: Gauge, pool: multiset<Packet>): int {
    40 * |pool| - (if g.moves then 39 * pool[Rr(g.next)] else 0) + 60 * Rejects(pool, g.hi)
  }

  ghost function ClientLine(g: Gauge, pool: multiset<Packet>): int {
    if g.moves then 2 * |pool| else 50 * |pool| - (if g.expected.Some? then 49 * pool[g.expected.value] else 0)
  }

  lemma ServerLineTake(g: Gauge, pool: multiset<Packet>, p: Packet)
    requires p in pool
    ensures ServerLine(g, pool - multiset{p}) == ServerLine(g, pool) - MessageWeight(g, p)
  {
    RejectsTake(pool, p, g.hi);
    TakeOne(pool, p, Rr(g.next));
  }

  lemma ServerLineAdd(g: Gauge, pool: multiset<Packet>, p: Packet)
    ensures ServerLine(g, pool + multiset{p}) == ServerLine(g, pool) + MessageWeight(g, p)
  {
    ServerLineTake(g, pool + multiset{p}, p);
    assert pool + multiset{p} - multiset{p} == pool;
  }

  lemma ClientLineTake(g: Gauge, pool: multiset<Packet>, p: Packet)
    requires p in pool
    ensures ClientLine(g, pool - multiset{p}) == ClientLine(g, pool) - PacketWeight(g, p)
  {
    TakeOne(pool, p, if g.expected.Some? then g.expected.value else p);
  }

  lemma ClientLineAdd(g: Gauge, pool: multiset<Packet>, p: Packet)
    ensures ClientLine(g, pool + multiset{p}) == ClientLine(g, pool) + PacketWeight(g, p)
  {
    ClientLineTake(g, pool + multiset{p}, p);
    assert pool + multiset{p} - multiset{p} == pool;
  }

  lemma LineBounds(g: Gauge, toClient: multiset<Packet>, toServer: multiset<Packet>)
    ensures |toServer| <= ServerLine(g, toServer) <= 100 * |toServer|
    ensures |toClient| <= ClientLine(g, toClient) <= 50 * |toClient|
  {
    RejectsAreSome(toServer, g.hi);
    EofsAreSome(toServer, Rr(g.next));
    if g.expected.Some? { EofsAreSome(toClient, g.expected.value); }
  }

  // ---- Levels, and the weight within a level ----

  function Stage(s: S.Sender): nat {
    match s.phase
    case Bye => 1
    case ByeWait => 1
    case Done(_) => 0
    case Aborted => 0
    case _ => 2
  }

  /** How often the transfer can still get further: each summand only ever falls. */
  ghost function Levels(cfg: Config, s: Sys): int
    requires ConfigOk(cfg)
  {
    var n := |Chunks(cfg)| + 1;
    (n - s.server.ring.middle) + (if s.server.eof == None then 1 else 0) + (n - s.server.ring.bottom)
    + 2 * (n - s.client.next) + Say(s.client) + Stage(s.server)
  }

  /** The turns a sending server has left at this level, nudges included. */
  ghost function Turns(g: Gauge, s: Sys): int {
    match s.server.phase
    case SendData => if s.server.ring.middle <= s.server.ring.top && s.server.eof == None then 1 else 32
    case Polling => 34
    case Process =>
      if g.moves && s.inbox == Got(Rr(g.next)) then 3 else if s.inbox.Got? && s.inbox.packet.flag == SREJ then 90 else 33
    case WaitOnAck => 1 + 3 * (S.RETRIES - s.server.waits)
    case _ => 0
  }

  ghost function Weight(cfg: Config, s: Sys): int
    requires ConfigOk(cfg)
  {
    match Stage(s.server)
    case 2 =>
      var g := GaugeOf(cfg, s);
      Turns(g, s) + ClientLine(g, s.toClient) + ServerLine(g, s.toServer)
    case 1 => StepsLeft(cfg, s) + 1
    case _ => 2 * |s.toClient| + |s.toServer| + 1
  }

  ghost predicate Lowers(cfg: Config, s: Sys, t: Sys)
    requires ConfigOk(cfg)
  {
    Levels(cfg, t) < Levels(cfg, s) || (Levels(cfg, t) == Levels(cfg, s) && Weight(cfg, t) < Weight(cfg, s))
  }

  lemma LevelsNotNegative(cfg: Config, s: Sys)
    requires ConfigOk(cfg) && Inv(cfg, s)
    ensures Levels(cfg, s) >= 0
  {
    Facts(cfg, s);
    assert s.server.ring.middle <= |Chunks(cfg)| + 1;
  }

  ghost function InFlight(s: Sys): nat { |s.toClient| + |s.toServer| }

  lemma WeightBounds(cfg: Config, s: Sys)
    requires ConfigOk(cfg) && Inv(cfg, s)
    ensures InFlight(s) + 1 <= Weight(cfg, s) <= 150 * (InFlight(s) + 1)
  {
    hide Inv, ServerLine, ClientLine, GaugeOf, Chunks;
    LineBounds(GaugeOf(cfg, s), s.toClient, s.toServer);
    BottomSlot(cfg, s);
    if Stage(s.server) == 1 { ByeWeightBounds(cfg, s); }
  }

  lemma ByeWeightBounds(cfg: Config, s: Sys)
    requires ConfigOk(cfg) && Inv(cfg, s) && Stage(s.server) == 1
    ensures InFlight(s) <= StepsLeft(cfg, s) <= 150 * InFlight(s) + 149
  {
    hide Inv, Chunks;
    ByeCount(cfg, s);
    EofsAreSome(s.toClient, Eof(|Chunks(cfg)| + 1));
    assert ByesLeft(cfg, s) >= Backlog(cfg, s) + 1;
  }

  // ---- Every gentle step lowers the level, or the weight within it ----

  /** The client gets further, or says at most what it expects. */
  lemma ClientLevel(c: R.Receiver, ev: Arrival)
    requires R.ReceiverOk(c) && R.Live(c)
    ensures var (d, out) := R.OnArrival(c, ev);
            && |out| <= 2
            && (|| Say(d) - 2 * d.next < Say(c) - 2 * c.next
                || (Say(d) == Say(c) && d.next == c.next && (out == [] || out == [Rr(c.next)]) &&
                    (ev.Got? && ev.packet.flag != END_OF_FILE ==> ev.packet.seqNum != c.next) && ev != Silence &&
                    (ev == CrcError ==> out == [])))
  {
    if c.phase == R.Missing && ev.Got? && c.next <= ev.packet.seqNum < c.next + c.size {
      var held := c.early[ev.packet.seqNum := ev.packet];
      assert ev.packet.seqNum in held;
      if ev.packet.seqNum > c.next {
        assert R.FirstGap(held, c.next, c.next + c.size) == c.next;
        assert ev.packet.seqNum in From(held, c.next);
      }
    }
  }

  /** At a level a packet is worth more than the client's answer to it. */
  lemma AnswerIsLighter(cfg: Config, s: Sys, pick: Pick)
    requires ConfigOk(cfg) && Inv(cfg, s) && Enabled(s, ClientTurn(pick)) && !ByeBegun(s.server) && pick.Intact?
    requires pick.p.flag != END_OF_FILE ==> pick.p.seqNum != s.client.next
    ensures PacketWeight(GaugeOf(cfg, s), pick.p) > MessageWeight(GaugeOf(cfg, s), Rr(s.client.next))
  {
    hide Inv, Chunks, S.SenderOk;
  }

  /** A client turn that does not get further exchanges a packet for at most one lighter message. */
  lemma ExchangeLowers(cfg: Config, s: Sys, t: Sys, p: Packet, out: seq<Packet>)
    requires ConfigOk(cfg) && p in s.toClient && Say(t.client) == Say(s.client) && t.client.next == s.client.next
    requires t == s.(client := t.client, toClient := s.toClient - multiset{p}, toServer := s.toServer + multiset(out))
    requires out == [] || out == [Rr(s.client.next)]
    requires out != [] ==> PacketWeight(GaugeOf(cfg, s), p) > MessageWeight(GaugeOf(cfg, s), Rr(s.client.next))
    requires Stage(s.server) != 1
    ensures Lowers(cfg, s, t)
  {
    var g := GaugeOf(cfg, s);
    hide ServerLine, ClientLine, Chunks;
    ClientLineTake(g, s.toClient, p);
    if out == [] {
      assert t.toServer == s.toServer;
    } else {
      ServerLineAdd(g, s.toServer, Rr(s.client.next));
      assert multiset(out) == multiset{Rr(s.client.next)};
    }
  }

  lemma ClientLowers(cfg: Config, s: Sys, pick: Pick)
    requires ConfigOk(cfg) && Inv(cfg, s) && Enabled(s, ClientTurn(pick)) && !ByeBegun(s.server)
    ensures var t := Apply(s, ClientTurn(pick)); Lowers(cfg, s, t) && InFlight(t) <= InFlight(s) + 2
  {
    assert R.ReceiverOk(s.client);
    ClientLevel(s.client, ArrivalOf(pick));
    hide Inv, R.OnArrival, R.ReceiverOk, S.SenderOk, GaugeOf, Weight, MessageWeight, PacketWeight;
    var (d, out) := R.OnArrival(s.client, ArrivalOf(pick));
    var t := s.(client := d, toClient := Take(s.toClient, pick), toServer := s.toServer + multiset(out));
    assert Apply(s, ClientTurn(pick)) == t && |multiset(out)| == |out|;
    hide Apply;
    if Say(d) == Say(s.client) && d.next == s.client.next {
      if pick.Intact? && out != [] { AnswerIsLighter(cfg, s, pick); }
      ExchangeLowers(cfg, s, t, pick.p, out);
    }
  }

  lemma SendLowers(cfg: Config, s: Sys, readOk: bool)
    requires ConfigOk(cfg) && Inv(cfg, s) && Enabled(s, ServerSend(readOk))
    ensures var t := Apply(s, ServerSend(readOk)); Lowers(cfg, s, t) && InFlight(t) <= InFlight(s) + 2
  {
    Facts(cfg, s);
    assert s.server.waits == 0;
    hide Inv, S.SenderOk, Index, Weight, Chunks;
    var (d, out) := S.OnSend(s.server, readOk);
    var t := s.(server := d, toClient := s.toClient + multiset(out));
    assert Apply(s, ServerSend(readOk)) == t && |multiset(out)| == |out| <= 1;
    hide Apply;
    if Levels(cfg, t) >= Levels(cfg, s) {
      assert out == [] && d == s.server.(phase := S.WaitOnAck);
      hide S.OnSend;
      SendingLowers(cfg, s, t, []);
    }
  }

  lemma PollLowers(cfg: Config, s: Sys, pick: Pick)
    requires ConfigOk(cfg) && Inv(cfg, s) && Enabled(s, ServerPoll(pick))
    ensures var t := Apply(s, ServerPoll(pick)); Lowers(cfg, s, t) && InFlight(t) <= InFlight(s) + 2
  {
    hide Inv, S.SenderOk, GaugeOf, Chunks, Lowers, Weight, PacketWeight;
    var t := Apply(s, ServerPoll(pick));
    if pick == NoPick {
      Facts(cfg, s);
      assert s.toClient + multiset([]) == s.toClient;
      SendingLowers(cfg, s, t, []);
    } else {
      MessageFacts(cfg, s, pick.p);
      ReceiptLowers(cfg, s, t, pick.p);
    }
  }

  /** What a message is worth pays for the turns that reading it allows. */
  lemma ReadTurns(g: Gauge, s: Sys, t: Sys, pick: Pick)
    requires s.server.phase == S.WaitOnAck && s.server.waits < S.RETRIES && t.server.phase == S.Process
    requires pick != NoPick && t.inbox == ArrivalOf(pick) && (g.moves ==> pick.Intact?)
    requires pick.p == Srej(pick.p.seqNum) ==> pick.p.seqNum <= g.hi
    requires pick.p == Srej(pick.p.seqNum) || pick.p == Rr(pick.p.seqNum)
    ensures Turns(g, t) < Turns(g, s) + MessageWeight(g, pick.p)
  {
  }

  lemma ReceiptLowers(cfg: Config, s: Sys, t: Sys, p: Packet)
    requires ConfigOk(cfg) && p in s.toServer && Stage(s.server) == Stage(t.server) == 2
    requires t == s.(server := t.server, toServer := s.toServer - multiset{p}, inbox := t.inbox)
    requires t.server.ring == s.server.ring && t.server.eof == s.server.eof
    requires Turns(GaugeOf(cfg, s), t) < Turns(GaugeOf(cfg, s), s) + MessageWeight(GaugeOf(cfg, s), p)
    ensures Lowers(cfg, s, t) && InFlight(t) <= InFlight(s) + 2
  {
    SameGauge(cfg, s, t);
    hide GaugeOf, Turns, MessageWeight, ServerLine, ClientLine, Chunks;
    ServerLineTake(GaugeOf(cfg, s), s.toServer, p);
  }

  lemma MessageFacts(cfg: Config, s: Sys, p: Packet)
    requires ConfigOk(cfg) && Inv(cfg, s) && !ByeBegun(s.server) && p in s.toServer
    ensures var g := GaugeOf(cfg, s);
            && (p == Srej(p.seqNum) ==> p.seqNum <= g.hi) && (p == Srej(p.seqNum) || p == Rr(p.seqNum))
            && (cfg.file == [] ==> !g.moves)
  {
    hide Inv, Chunks;
    Facts(cfg, s);
    SentSoFar(cfg, s);
  }

  lemma SentSoFar(cfg: Config, s: Sys)
    requires ConfigOk(cfg) && Inv(cfg, s)
    ensures s.server.ring.middle <= |Chunks(cfg)| + 1 && (cfg.file == [] ==> s.server.ring.middle == 1)
  {
  }

  lemma ReadLowers(cfg: Config, s: Sys, pick: Pick)
    requires ConfigOk(cfg) && Inv(cfg, s) && Enabled(s, ServerWait(pick)) && Gentle(cfg, ServerWait(pick)) && pick != NoPick
    ensures var t := Apply(s, ServerWait(pick)); Lowers(cfg, s, t) && InFlight(t) <= InFlight(s) + 2
  {
    MessageFacts(cfg, s, pick.p);
    hide Inv, S.SenderOk, GaugeOf, Chunks, Lowers, MessageWeight;
    var t := s.(server := s.server.(phase := S.Process, waits := 0), toServer := s.toServer - multiset{pick.p},
                inbox := ArrivalOf(pick));
    assert Apply(s, ServerWait(pick)) == t && s.server.waits < S.RETRIES;
    hide Turns;
    ReadTurns(GaugeOf(cfg, s), s, t, pick);
    ReceiptLowers(cfg, s, t, pick.p);
  }

  /** A step that sends the client one packet at most, within a level. */
  lemma SendingLowers(cfg: Config, s: Sys, t: Sys, out: seq<Packet>)
    requires ConfigOk(cfg) && Stage(s.server) == Stage(t.server) == 2 && |out| <= 1
    requires t == s.(server := t.server, toClient := s.toClient + multiset(out), inbox := t.inbox)
    requires t.server.ring == s.server.ring && t.server.eof == s.server.eof
    requires Turns(GaugeOf(cfg, s), t) + (if out == [] then 0 else PacketWeight(GaugeOf(cfg, s), out[0]))
             < Turns(GaugeOf(cfg, s), s)
    ensures Lowers(cfg, s, t)
  {
    SameGauge(cfg, s, t);
    hide GaugeOf, Turns, PacketWeight, ServerLine, ClientLine, Chunks;
    if out == [] {
      assert t.toClient == s.toClient;
    } else {
      assert multiset(out) == multiset{out[0]};
      ClientLineAdd(GaugeOf(cfg, s), s.toClient, out[0]);
    }
  }

  /** The packet of a nudge is the one the client expects, or its answer moves the server. */
  lemma NudgeLowers(cfg: Config, s: Sys)
    requires ConfigOk(cfg) && Inv(cfg, s) && Enabled(s, ServerWait(NoPick))
    ensures var t := Apply(s, ServerWait(NoPick)); Lowers(cfg, s, t) && InFlight(t) <= InFlight(s) + 2
  {
    NudgePacket(cfg, s);
    var (d, out) := S.OnWait(s.server, false);
    var t := s.(server := d, toClient := s.toClient + multiset(out), inbox := Silence);
    assert Apply(s, ServerWait(NoPick)) == t && |multiset(out)| == |out|;
    hide Inv, Apply, S.OnWait, S.SenderOk, GaugeOf, PacketWeight, Chunks, Weight;
    if out != [] { SendingLowers(cfg, s, t, out); }
  }

  lemma NudgePacket(cfg: Config, s: Sys)
    requires ConfigOk(cfg) && Inv(cfg, s) && s.server.phase == S.WaitOnAck
    ensures var (d, out) := S.OnWait(s.server, false);
            && |out| <= 1 && (out != [] ==> PacketWeight(GaugeOf(cfg, s), out[0]) <= 2)
            && (out == [] ==> Stage(d) == 0)
            && (out != [] ==> d == s.server.(waits := s.server.waits + 1) && d.waits <= S.RETRIES)
            && d.ring == s.server.ring && d.eof == s.server.eof
  {
    hide Inv, S.Slot, Index, Chunks;
    Facts(cfg, s);
    BottomSlot(cfg, s);
  }

  lemma BottomSlot(cfg: Config, s: Sys)
    requires ConfigOk(cfg) && Inv(cfg, s)
    ensures s.server.phase == S.WaitOnAck ==> s.server.waits <= S.RETRIES
    ensures s.server.ring.bottom >= 1 && |s.server.ring.slots| >= 1
    ensures var (r, slot) := (s.server.ring, S.Slot(s.server.ring, s.server.ring.bottom));
            && (slot.None? <==> r.bottom == r.middle <= cfg.size)
            && (r.bottom < r.middle ==> r.bottom <= |Chunks(cfg)| && slot == Some(DataPacket(Chunks(cfg), r.bottom)))
  {
    EmptySlotIff(cfg, s.server.ring, s.server.file, s.server.ring.bottom);
    if s.server.ring.bottom < s.server.ring.middle { OutstandingSlot(cfg, s); }
  }

  lemma RrLowers(cfg: Config, s: Sys, n: nat)
    requires ConfigOk(cfg) && Inv(cfg, s) && Enabled(s, ServerProcess) && s.inbox == Got(Rr(n))
    ensures var t := Apply(s, ServerProcess); Lowers(cfg, s, t) && InFlight(t) == InFlight(s)
  {
    hide Inv, Index, Cleared, Chunks, Weight, S.SenderOk, GaugeOf;
    Facts(cfg, s);
    var d := S.OnProcess(s.server, s.inbox).0;
    var t := s.(server := d, toClient := s.toClient + multiset([]), inbox := Silence);
    assert Apply(s, ServerProcess) == t && t.toClient == s.toClient && d.eof == s.server.eof;
    assert d.ring.middle == s.server.ring.middle;
    if n <= s.server.ring.bottom && s.server.eof != Some(n) {
      assert d == s.server.(phase := S.SendData);
      StaleTurns(cfg, s, t, n);
      SendingLowers(cfg, s, t, []);
    }
  }

  /** An acknowledgement that does not move bottom leads to a wait, or at bottom == middle to the next read. */
  lemma StaleTurns(cfg: Config, s: Sys, t: Sys, n: nat)
    requires ConfigOk(cfg) && s.server.phase == S.Process && s.inbox == Got(Rr(n))
    requires t.server == s.server.(phase := S.SendData)
    requires n <= s.server.ring.bottom <= s.client.next <= s.server.ring.middle && s.server.eof != Some(n)
    requires s.server.ring.top + 1 == s.server.ring.bottom + |s.server.ring.slots| && |s.server.ring.slots| >= 1
    requires s.server.eof.Some? ==> s.server.eof == Some(s.server.ring.middle)
    ensures Turns(GaugeOf(cfg, s), t) < Turns(GaugeOf(cfg, s), s)
  {
  }

  lemma SrejLowers(cfg: Config, s: Sys, n: nat)
    requires ConfigOk(cfg) && Inv(cfg, s) && Enabled(s, ServerProcess) && s.inbox == Got(Srej(n))
    ensures var t := Apply(s, ServerProcess); Lowers(cfg, s, t) && InFlight(t) <= InFlight(s) + 1
  {
    var (d, out) := S.OnProcess(s.server, s.inbox);
    var t := s.(server := d, toClient := s.toClient + multiset(out), inbox := Silence);
    assert Apply(s, ServerProcess) == t && |multiset(out)| == |out| <= 1;
    assert d == s.server.(phase := d.phase) && (d.phase == S.SendData || d.phase == S.Aborted);
    hide Inv, Apply, Enabled, S.SenderOk, Chunks, Weight, S.OnProcess, GaugeOf;
    if d.phase == S.SendData { SendingLowers(cfg, s, t, out); }
  }

  lemma ProcessLowers(cfg: Config, s: Sys)
    requires ConfigOk(cfg) && Inv(cfg, s) && Enabled(s, ServerProcess)
    ensures var t := Apply(s, ServerProcess); Lowers(cfg, s, t) && InFlight(t) <= InFlight(s) + 2
  {
    Facts(cfg, s);
    assert s.server.waits == 0;
    if s.inbox == CrcError {
      var t := s.(server := s.server.(phase := S.WaitOnAck), toClient := s.toClient + multiset([]), inbox := Silence);
      assert Apply(s, ServerProcess) == t && t.toClient == s.toClient;
      hide Inv, Apply, Enabled, S.SenderOk, Chunks, GaugeOf;
      SendingLowers(cfg, s, t, []);
    } else {
      hide Inv, Apply, Lowers, S.SenderOk;
      var p := s.inbox.packet;
      if p.flag == SREJ { SrejLowers(cfg, s, p.seqNum); } else { RrLowers(cfg, s, p.seqNum); }
    }
  }

  lemma DropLowers(cfg: Config, s: Sys, st: Step)
    requires ConfigOk(cfg) && Enabled(s, st) && (st.DropToClient? || st.DropToServer?) && !ByeBegun(s.server)
    ensures Lowers(cfg, s, Apply(s, st)) && InFlight(Apply(s, st)) <= InFlight(s)
  {
    var g, t := GaugeOf(cfg, s), Apply(s, st);
    SameGauge(cfg, s, t);
    hide GaugeOf, Turns, ServerLine, ClientLine, Chunks, S.SenderOk;
    if st.DropToClient? { ClientLineTake(g, s.toClient, st.p); } else { ServerLineTake(g, s.toServer, st.p); }
  }

  /** In the BYE phase the weight is the bound on the steps left. */
  lemma ByeLowers(cfg: Config, s: Sys, st: Step)
    requires ConfigOk(cfg) && Inv(cfg, s) && Enabled(s, st) && !Duplicates(st) && Stage(s.server) == 1
    ensures Lowers(cfg, s, Apply(s, st))
  {
    var t := Apply(s, st);
    StepShortens(cfg, s, st);
    ByeFrame(cfg, s, st);
    hide Inv, Apply, StepsLeft, Chunks;
  }

  lemma ByeFrame(cfg: Config, s: Sys, st: Step)
    requires ConfigOk(cfg) && Inv(cfg, s) && Enabled(s, st) && ByeBegun(s.server)
    ensures var t := Apply(s, st);
            && t.server.ring == s.server.ring && t.server.eof == s.server.eof && Stage(t.server) <= Stage(s.server) <= 1
            && Say(t.client) - 2 * t.client.next <= Say(s.client) - 2 * s.client.next
            && InFlight(t) <= InFlight(s) + 2
  {
    hide Inv, R.OnArrival, S.SenderOk;
    if st.ClientTurn? {
      ByeClientFrame(cfg, s, st.pick);
    } else {
      ByeServerFrame(s, st);
    }
  }

  lemma ByeServerFrame(s: Sys, st: Step)
    requires Enabled(s, st) && ByeBegun(s.server) && !st.ClientTurn?
    ensures var t := Apply(s, st);
            && t.server.ring == s.server.ring && t.server.eof == s.server.eof && Stage(t.server) <= Stage(s.server) <= 1
            && t.client == s.client && InFlight(t) <= InFlight(s) + 2
  {
    hide S.OnSend, S.OnPoll, S.OnProcess, S.OnWait, S.OnBye, S.OnByeWait;
    if st.ServerBye? || st.ServerByeWait? {
      ByeSender(s.server, if st.ServerByeWait? then ArrivalOf(st.pick) else Silence);
    }
  }

  lemma ByeSender(s: S.Sender, ev: Arrival)
    requires s.eof.Some? && (s.phase == S.Bye || s.phase == S.ByeWait)
    ensures var d := S.OnBye(s).0; d.ring == s.ring && d.eof == s.eof && Stage(d) <= 1
    ensures |multiset(S.OnBye(s).1)| == 1
    ensures var d := S.OnByeWait(s, ev); d.ring == s.ring && d.eof == s.eof && Stage(d) <= 1
  {
  }

  lemma ByeClientFrame(cfg: Config, s: Sys, pick: Pick)
    requires ConfigOk(cfg) && Inv(cfg, s) && Enabled(s, ClientTurn(pick))
    ensures var t := Apply(s, ClientTurn(pick));
            && t.server == s.server && InFlight(t) <= InFlight(s) + 2
            && Say(t.client) - 2 * t.client.next <= Say(s.client) - 2 * s.client.next
  {
    ClientLevel(s.client, ArrivalOf(pick));
    hide Inv, R.OnArrival, S.SenderOk, R.ReceiverOk;
    var out := R.OnArrival(s.client, ArrivalOf(pick)).1;
    assert |multiset(out)| == |out|;
  }

  /** After BYE only the client and the link still move. */
  lemma StoppedLowers(cfg: Config, s: Sys, st: Step)
    requires ConfigOk(cfg) && Inv(cfg, s) && Enabled(s, st) && !Duplicates(st) && Stage(s.server) == 0 && ByeBegun(s.server)
    ensures Lowers(cfg, s, Apply(s, st))
  {
    ByeFrame(cfg, s, st);
    match st
    case ClientTurn(pick) => StoppedClientLowers(cfg, s, pick);
    case DropToClient(p) => TakeOne(s.toClient, p, p);
    case DropToServer(p) => TakeOne(s.toServer, p, p);
    case _ => assert false;
  }

  lemma StoppedClientLowers(cfg: Config, s: Sys, pick: Pick)
    requires ConfigOk(cfg) && Inv(cfg, s) && Enabled(s, ClientTurn(pick)) && Stage(s.server) == 0
    ensures Lowers(cfg, s, Apply(s, ClientTurn(pick)))
  {
    ClientLevel(s.client, ArrivalOf(pick));
    hide Inv, R.OnArrival, S.SenderOk, R.ReceiverOk, Chunks;
    var out := R.OnArrival(s.client, ArrivalOf(pick)).1;
    assert |multiset(out)| == |out|;
  }

  lemma StepLowers(cfg: Config, s: Sys, st: Step)
    requires ConfigOk(cfg) && Inv(cfg, s) && Enabled(s, st) && Gentle(cfg, st)
    ensures Lowers(cfg, s, Apply(s, st)) && InFlight(Apply(s, st)) <= InFlight(s) + 2
  {
    if ByeBegun(s.server) {
      ByeFrame(cfg, s, st);
      hide Inv, Apply, Lowers, Enabled;
      if Stage(s.server) == 1 { ByeLowers(cfg, s, st); } else { StoppedLowers(cfg, s, st); }
    } else {
      hide Inv, Apply, Lowers, S.SenderOk;
      match st
      case ServerSend(readOk) => SendLowers(cfg, s, readOk);
      case ServerPoll(pick) => PollLowers(cfg, s, pick);
      case ServerProcess => ProcessLowers(cfg, s);
      case ServerWait(pick) => if pick == NoPick { NudgeLowers(cfg, s); } else { ReadLowers(cfg, s, pick); }
      case ClientTurn(pick) => ClientLowers(cfg, s, pick);
      case _ => DropLowers(cfg, s, st);
    }
  }

  // ---- The bound ----

  function Power(base: nat, n: nat): nat { if n == 0 then 1 else base * Power(base, n - 1) }

  lemma {:induction false} PowerGrows(base: nat, lo: nat, hi: nat)
    requires base >= 1 && lo <= hi
    ensures 1 <= Power(base, lo) <= Power(base, hi)
    decreases hi
  {
    if hi > 0 {
      PowerGrows(base, if lo < hi then lo else lo - 1, hi - 1);
      if lo < hi {
        assert base * Power(base, hi - 1) >= Power(base, hi - 1);
      } else {
        assert base * Power(base, hi - 1) >= 1;
      }
    }
  }

  /** An upper bound on the length of the gentle runs from s. */
  ghost function Bound(cfg: Config, s: Sys): int
    requires ConfigOk(cfg) && Inv(cfg, s)
  {
    LevelsNotNegative(cfg, s);
    Power(500, Levels(cfg, s)) * Weight(cfg, s)
  }

  lemma ProductsGrow(a: int, b: int, x: int, y: int)
    requires 0 <= a <= b && 0 <= x <= y
    ensures 0 <= a * x <= b * y
  {
    assert a * x <= a * y;
    assert a * y <= b * y;
  }

  lemma Shrinks(high: nat, low: nat, heavy: int, light: int)
    requires heavy >= 1 && light >= 1
    requires (low < high && light <= 450 * heavy) || (low == high && light < heavy)
    ensures Power(500, low) * light + 1 <= Power(500, high) * heavy
  {
    PowerGrows(500, low, high);
    if low < high {
      PowerGrows(500, low, high - 1);
      assert Power(500, high) == 500 * Power(500, high - 1);
      hide Power;
      ScalesDown(Power(500, low), Power(500, high - 1), light, heavy);
    } else {
      hide Power;
      assert Power(500, low) * light <= Power(500, low) * (heavy - 1) by {
        ProductsGrow(Power(500, low), Power(500, low), light, heavy - 1);
      }
    }
  }

  lemma ScalesDown(a: int, b: int, x: int, y: int)
    requires 1 <= a <= b && 1 <= x <= 450 * y
    ensures a * x + 1 <= 500 * b * y
  {
    ProductsGrow(a, b, x, 450 * y);
    ProductsGrow(1, b, 1, y);
    assert b * (450 * y) == 450 * (b * y);
    assert 500 * b * y == 500 * (b * y);
  }

  lemma StepBounds(cfg: Config, s: Sys, st: Step)
    requires ConfigOk(cfg) && Inv(cfg, s) && Enabled(s, st) && Gentle(cfg, st) && Inv(cfg, Apply(s, st))
    ensures Bound(cfg, Apply(s, st)) + 1 <= Bound(cfg, s)
  {
    var t := Apply(s, st);
    StepLowers(cfg, s, st);
    WeightBounds(cfg, s);
    WeightBounds(cfg, t);
    LevelsNotNegative(cfg, s);
    LevelsNotNegative(cfg, t);
    hide Inv, Apply, Enabled, Levels, Weight, InFlight, Power;
    Shrinks(Levels(cfg, s), Levels(cfg, t), Weight(cfg, s), Weight(cfg, t));
  }

  ghost predicate AllGentle(cfg: Config, steps: seq<Step>) {
    forall i :: 0 <= i < |steps| ==> Gentle(cfg, steps[i])
  }

  lemma {:induction false} GentleRunEnds(cfg: Config, s: Sys, steps: seq<Step>)
    requires ConfigOk(cfg) && Inv(cfg, s) && IsRun(s, steps) && AllGentle(cfg, steps)
    ensures |steps| <= Bound(cfg, s)
    decreases |steps|
  {
    hide Inv, Apply, Enabled, Bound, Gentle;
    if steps == [] {
      BoundNotNegative(cfg, s);
    } else {
      assert Gentle(cfg, steps[0]);
      StepKeepsInv(cfg, s, steps[0]);
      StepBounds(cfg, s, steps[0]);
      assert forall i :: 0 <= i < |steps[1..]| ==> steps[1..][i] == steps[i + 1];
      GentleRunEnds(cfg, Apply(s, steps[0]), steps[1..]);
    }
  }

  lemma BoundNotNegative(cfg: Config, s: Sys)
    requires ConfigOk(cfg) && Inv(cfg, s)
    ensures Bound(cfg, s) >= 0
  {
    WeightBounds(cfg, s);
    LevelsNotNegative(cfg, s);
    hide Inv, Levels, Weight, Power;
    ProductsGrow(0, Power(500, Levels(cfg, s)), 0, Weight(cfg, s));
  }

  /**
   * Every run of a transfer in which nothing is duplicated, and unless the file is empty nothing that the server
   * reads in WAIT_ON_ACK is damaged, ends: its length is bounded in the number of chunks and of stray answers.
   */
  lemma TransferEnds(cfg: Config, s: Sys, steps: seq<Step>)
    requires ConfigOk(cfg) && Init(cfg, s) && IsRun(s, steps) && AllGentle(cfg, steps)
    ensures |steps| <= Power(500, 4 * |Chunks(cfg)| + 5) * (50 * |s.toClient| + 1)
  {
    InitFacts(cfg, s);
    hide Init;
    GentleRunEnds(cfg, s, steps);
    InitialBound(cfg, s);
  }

  lemma InitialBound(cfg: Config, s: Sys)
    requires ConfigOk(cfg) && Init(cfg, s) && Inv(cfg, s)
    ensures Bound(cfg, s) <= Power(500, 4 * |Chunks(cfg)| + 5) * (50 * |s.toClient| + 1)
  {
    InitFacts(cfg, s);
    hide Inv, Init, Power;
    assert Levels(cfg, s) == 4 * |Chunks(cfg)| + 5;
    var g := GaugeOf(cfg, s);
    LineBounds(g, s.toClient, s.toServer);
    hide ClientLine, ServerLine, Chunks, Levels;
    var power := Power(500, Levels(cfg, s));
    WeightBounds(cfg, s);
    ProductsGrow(power, power, Weight(cfg, s), 50 * |s.toClient| + 1);
  }

  // ---- Damage alone takes the bound away ----

  ghost predicate NoDuplicates(steps: seq<Step>) {
    forall i :: 0 <= i < |steps| ==> !Duplicates(steps[i])
  }

  /** Without duplication some run from s takes k steps or more. */
  ghost predicate RunsOn(s: Sys, k: nat) {
    exists steps :: IsRun(s, steps) && NoDuplicates(steps) && |steps| >= k
  }

  /** The server sends until it has to wait with something outstanding. */
  lemma {:induction false} SendUntilWait(cfg: Config, s: Sys) returns (t: Sys, steps: seq<Step>)
    requires ConfigOk(cfg) && Inv(cfg, s) && s.server.phase == S.SendData
    requires s.server.ring.bottom < s.server.ring.middle || s.server.file != []
    ensures Inv(cfg, t) && t.client == s.client && t.server.phase == S.WaitOnAck && t.server.waits == 0
    ensures t.server.ring.bottom < t.server.ring.middle
    ensures Moves(s, steps, t) && NoDuplicates(steps)
    decreases |s.server.file|
  {
    Facts(cfg, s);
    t, steps := SendTurn(cfg, s);
    if t.server.phase == S.SendData {
      hide Inv, Moves;
      var a, first := t, steps;
      var rest;
      t, rest := SendUntilWait(cfg, a);
      MovesCompose(s, first, a, rest, t);
      steps := first + rest;
    }
  }

  /** An acknowledgement is read as damaged: the counter starts again and nothing else is left of it. */
  lemma HearDamagedAck(cfg: Config, s: Sys, p: Packet) returns (t: Sys)
    requires ConfigOk(cfg) && Inv(cfg, s) && s.server.phase == S.WaitOnAck && s.server.waits < S.RETRIES
    requires p in s.toServer
    ensures Inv(cfg, t) && t.client == s.client && t.server == s.server.(waits := 0)
    ensures Moves(s, [ServerWait(Corrupt(p)), ServerProcess], t)
  {
    hide Inv, Moves;
    var st := ServerWait(Corrupt(p));
    Facts(cfg, s);
    var u := Apply(s, st);
    StepKeepsInv(cfg, s, st);
    OneMove(s, st);
    t := Apply(u, ServerProcess);
    StepKeepsInv(cfg, u, ServerProcess);
    OneMove(u, ServerProcess);
    hide Apply;
    MovesCompose(s, [st], u, [ServerProcess], t);
    assert [st] + [ServerProcess] == [st, ServerProcess];
  }

  lemma OutstandingSlot(cfg: Config, s: Sys)
    requires ConfigOk(cfg) && Inv(cfg, s) && s.server.ring.bottom < s.server.ring.middle
    ensures 1 <= s.server.ring.bottom <= s.client.next && s.server.ring.bottom <= |Chunks(cfg)|
    ensures |s.server.ring.slots| >= 1
    ensures S.Slot(s.server.ring, s.server.ring.bottom) == Some(DataPacket(Chunks(cfg), s.server.ring.bottom))
  {
  }

  /** A nudge, its answer, and the answer read as damaged: everything stands as before. */
  lemma DamageLap(cfg: Config, s: Sys) returns (t: Sys, steps: seq<Step>)
    requires ConfigOk(cfg) && Inv(cfg, s) && R.Live(s.client) && s.server.phase == S.WaitOnAck && s.server.waits == 0
    requires s.server.ring.bottom < s.server.ring.middle
    ensures Inv(cfg, t) && R.Live(t.client) && t.server == s.server
    ensures Moves(s, steps, t) && NoDuplicates(steps) && |steps| == 4
  {
    hide Inv, Moves, Apply, Chunks, S.Slot;
    OutstandingSlot(cfg, s);
    var p := DataPacket(Chunks(cfg), s.server.ring.bottom);
    var a := Nudge(cfg, s);
    assert p in a.toClient;
    var b := Reply(cfg, a, p);
    var k := Rr(b.client.next);
    assert b.server.waits == 1 && k in b.toServer;
    t := HearDamagedAck(cfg, b, k);
    MovesThrice(s, ServerWait(NoPick), a, ClientTurn(Intact(p)), b, [ServerWait(Corrupt(k)), ServerProcess], t);
    steps := [ServerWait(NoPick), ClientTurn(Intact(p))] + [ServerWait(Corrupt(k)), ServerProcess];
  }

  lemma {:induction false} DamageLaps(cfg: Config, s: Sys, laps: nat) returns (steps: seq<Step>)
    requires ConfigOk(cfg) && Inv(cfg, s) && R.Live(s.client) && s.server.phase == S.WaitOnAck && s.server.waits == 0
    requires s.server.ring.bottom < s.server.ring.middle
    ensures IsRun(s, steps) && NoDuplicates(steps) && |steps| >= laps
    decreases laps
  {
    hide Inv, Apply, Enabled;
    if laps == 0 {
      steps := [];
    } else {
      var t, lap := DamageLap(cfg, s);
      var rest := DamageLaps(cfg, t, laps - 1);
      MovesCompose(s, lap, t, rest, After(t, rest));
      steps := lap + rest;
    }
  }

  lemma LongRun(cfg: Config, s: Sys, k: nat)
    requires ConfigOk(cfg) && Init(cfg, s) && cfg.file != []
    ensures RunsOn(s, k)
  {
    InitFacts(cfg, s);
    hide Inv, Init, Apply, Enabled;
    var t, first := SendUntilWait(cfg, s);
    var rest := DamageLaps(cfg, t, k);
    MovesCompose(s, first, t, rest, After(t, rest));
    assert NoDuplicates(first + rest);
  }

  /**
   * Without duplication the runs of a transfer have no common bound exactly when there is a chunk to send: then the
   * acknowledgements of a nudge can be damaged for ever, each of them starting the counter again.
   */
  lemma UnboundedIffNotEmpty(cfg: Config, s: Sys)
    requires ConfigOk(cfg) && Init(cfg, s)
    ensures (forall k: nat :: RunsOn(s, k)) <==> cfg.file != []
  {
    if cfg.file != [] {
      forall k: nat ensures RunsOn(s, k) {
        LongRun(cfg, s, k);
      }
    } else {
      EmptyEnds(cfg, s);
    }
  }

  lemma EmptyEnds(cfg: Config, s: Sys)
    requires ConfigOk(cfg) && Init(cfg, s) && cfg.file == []
    ensures exists k: nat :: !RunsOn(s, k)
  {
    hide Init;
    var bound := Power(500, 4 * |Chunks(cfg)| + 5) * (50 * |s.toClient| + 1);
    forall steps | IsRun(s, steps) && NoDuplicates(steps) ensures |steps| <= bound {
      assert AllGentle(cfg, steps);
      TransferEnds(cfg, s, steps);
    }
    hide Power;
    ProductsGrow(0, Power(500, 4 * |Chunks(cfg)| + 5), 0, 50 * |s.toClient| + 1);
    assert !RunsOn(s, bound + 1);
  }
}
