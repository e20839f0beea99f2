/** The whole system with byte datagrams in flight, and its refinement of the protocol's link of packets. */
module ByteRuns {
  import opened Packets
  import opened Files
  import opened Checksum
  import opened PacketCodec
  import opened FaultyLink
  import opened Protocol
  import opened Safety
  import opened Progress
  import S = Server
  import R = Rcopy

  /** One process: its byte order and the events its fault injector was given. */
  datatype Host = Host(order: Order, standard: seq<Event>, chance: seq<Event>)
  datatype Hosts = Hosts(server: Host, client: Host)

  /** The program installs no standard event that flips. */
  predicate HostOk(h: Host) { forall i :: 0 <= i < |h.standard| ==> !h.standard[i].FlipBits? }

  /** The two machines, the datagrams in flight and how many messages each process has sent. */
  datatype ByteSys = ByteSys(server: S.Sender, client: R.Receiver, toClient: seq<seq<byte>>, toServer: seq<seq<byte>>,
                             inbox: Arrival, serverMsgs: nat, clientMsgs: nat)

  /** What recv_packet finds: nothing, or the datagram at an index, over what the receive buffer held. */
  datatype Receipt = Nothing | Datagram(at: nat, stale: seq<byte>)

  datatype Act =
    | Send(readOk: bool)
    | Poll(take: Receipt)
    | Process
    | Wait(take: Receipt)
    | SayBye
    | HearBye(take: Receipt)
    | Turn(take: Receipt)
    | Lose(toClient: bool, at: nat)
    | Repeat(toClient: bool, at: nat)

  /** draws are the random draws of the fault injector, one for each packet sent. */
  datatype ByteStep = ByteStep(act: Act, draws: seq<Draw>)

  // ---- Sending and receiving bytes ----

  /** The packets fit the wire format, the draws fit the packets, and none is a flip that the checksum may miss. */
  predicate Ready(h: Host, no: nat, draws: seq<Draw>, out: seq<Packet>) {
    && |draws| == |out|
    && forall i :: 0 <= i < |out| ==>
         && Encodable(out[i]) && Drawn(h.standard, h.chance, draws[i], HEADER_LENGTH + |out[i].payload|)
         && !FlipsSize(h.chance, no + 1 + i, draws[i])
  }

  function FateOf(h: Host, no: nat, draw: Draw, p: Packet): Sent
    requires Encodable(p) && Drawn(h.standard, h.chance, draw, HEADER_LENGTH + |p.payload|)
  {
    Fate(h.standard, h.chance, no + 1, draw, Wire(p, h.order))
  }

  lemma ReadyRest(h: Host, no: nat, draws: seq<Draw>, out: seq<Packet>)
    requires Ready(h, no, draws, out) && out != []
    ensures Ready(h, no + 1, draws[1..], out[1..])
    ensures Encodable(out[0]) && Drawn(h.standard, h.chance, draws[0], HEADER_LENGTH + |out[0].payload|)
    ensures !FlipsSize(h.chance, no + 1, draws[0])
  {
    forall i | 0 <= i < |out[1..]|
      ensures && Encodable(out[1..][i])
              && Drawn(h.standard, h.chance, draws[1..][i], HEADER_LENGTH + |out[1..][i].payload|)
              && !FlipsSize(h.chance, no + 2 + i, draws[1..][i])
    {
      assert out[1..][i] == out[i + 1] && draws[1..][i] == draws[i + 1];
    }
  }

  /** The datagrams that come out when a process sends out, its no messages before them counted. */
  ghost function Wired(h: Host, no: nat, draws: seq<Draw>, out: seq<Packet>): seq<seq<byte>>
    requires Ready(h, no, draws, out)
    decreases |out|
  {
    if out == [] then []
    else
      ReadyRest(h, no, draws, out);
      var fate := FateOf(h, no, draws[0], out[0]);
      (if fate.OnWire? then [fate.datagram] else []) + Wired(h, no + 1, draws[1..], out[1..])
  }

  /** The packets those datagrams stand for. */
  ghost function Survivors(h: Host, no: nat, draws: seq<Draw>, out: seq<Packet>): seq<Packet>
    requires Ready(h, no, draws, out)
    decreases |out|
  {
    if out == [] then []
    else
      ReadyRest(h, no, draws, out);
      (if FateOf(h, no, draws[0], out[0]).OnWire? then [out[0]] else []) + Survivors(h, no + 1, draws[1..], out[1..])
  }

  predicate Readable(line: seq<seq<byte>>, take: Receipt, order: Order) {
    take == Nothing ||
    (take.at < |line| && |take.stale| == FULL_LENGTH && Receive(take.stale, line[take.at], order).Arrived?)
  }

  function Heard(line: seq<seq<byte>>, take: Receipt, order: Order): Arrival
    requires Readable(line, take, order)
  {
    if take == Nothing then Silence else Receive(take.stale, line[take.at], order).arrival
  }

  function Without<T>(line: seq<T>, at: nat): (rest: seq<T>)
    requires at < |line|
    ensures |rest| == |line| - 1
  {
    line[..at] + line[at + 1..]
  }

  function Left<T>(line: seq<T>, take: Receipt): seq<T>
    requires take == Nothing || take.at < |line|
  {
    if take == Nothing then line else Without(line, take.at)
  }

  // ---- Steps of the byte system ----

  /** The step's phase and datagram are there. */
  ghost predicate CanAct(hs: Hosts, b: ByteSys, act: Act) {
    && S.SenderOk(b.server) && b.client.size >= 1
    && match act
       case Send(_) => b.server.phase == S.SendData
       case Poll(take) => b.server.phase == S.Polling && Readable(b.toServer, take, hs.server.order)
       case Process => b.server.phase == S.Process
       case Wait(take) =>
         && b.server.phase == S.WaitOnAck && Readable(b.toServer, take, hs.server.order)
         && (b.server.waits >= S.RETRIES ==> take == Nothing)
       case SayBye => b.server.phase == S.Bye
       case HearBye(take) => b.server.phase == S.ByeWait && Readable(b.toServer, take, hs.server.order)
       case Turn(take) => R.Live(b.client) && Readable(b.toClient, take, hs.client.order)
       case Lose(toClient, at) => at < |if toClient then b.toClient else b.toServer|
       case Repeat(toClient, at) => at < |if toClient then b.toClient else b.toServer|
  }

  /** What the acting machine sends. */
  ghost function Output(hs: Hosts, b: ByteSys, act: Act): seq<Packet>
    requires CanAct(hs, b, act)
  {
    match act
    case Send(readOk) => S.OnSend(b.server, readOk).1
    case Process => S.OnProcess(b.server, b.inbox).1
    case Wait(take) => S.OnWait(b.server, take != Nothing).1
    case SayBye => S.OnBye(b.server).1
    case Turn(take) => R.OnArrival(b.client, Heard(b.toClient, take, hs.client.order)).1
    case _ => []
  }

  /** Everything the step does but to send. */
  ghost function Acted(hs: Hosts, b: ByteSys, act: Act): ByteSys
    requires CanAct(hs, b, act)
  {
    match act
    case Send(readOk) => b.(server := S.OnSend(b.server, readOk).0)
    case Poll(take) =>
      b.(server := S.OnPoll(b.server, take != Nothing), toServer := Left(b.toServer, take),
         inbox := Heard(b.toServer, take, hs.server.order))
    case Process => b.(server := S.OnProcess(b.server, b.inbox).0, inbox := Silence)
    case Wait(take) =>
      b.(server := S.OnWait(b.server, take != Nothing).0, toServer := Left(b.toServer, take),
         inbox := Heard(b.toServer, take, hs.server.order))
    case SayBye => b.(server := S.OnBye(b.server).0)
    case HearBye(take) =>
      b.(server := S.OnByeWait(b.server, Heard(b.toServer, take, hs.server.order)), toServer := Left(b.toServer, take))
    case Turn(take) =>
      b.(client := R.OnArrival(b.client, Heard(b.toClient, take, hs.client.order)).0, toClient := Left(b.toClient, take))
    case Lose(toClient, at) =>
      if toClient then b.(toClient := Without(b.toClient, at)) else b.(toServer := Without(b.toServer, at))
    case Repeat(toClient, at) =>
      if toClient then b.(toClient := b.toClient + [b.toClient[at]]) else b.(toServer := b.toServer + [b.toServer[at]])
  }

  ghost predicate ByteEnabled(hs: Hosts, b: ByteSys, st: ByteStep) {
    && CanAct(hs, b, st.act)
    && if st.act.Turn? then Ready(hs.client, b.clientMsgs, st.draws, Output(hs, b, st.act))
       else Ready(hs.server, b.serverMsgs, st.draws, Output(hs, b, st.act))
  }

  ghost function ByteApply(hs: Hosts, b: ByteSys, st: ByteStep): ByteSys
    requires ByteEnabled(hs, b, st)
  {
    var out, c := Output(hs, b, st.act), Acted(hs, b, st.act);
    if st.act.Turn?
    then c.(toServer := c.toServer + Wired(hs.client, b.clientMsgs, st.draws, out), clientMsgs := b.clientMsgs + |out|)
    else c.(toClient := c.toClient + Wired(hs.server, b.serverMsgs, st.draws, out), serverMsgs := b.serverMsgs + |out|)
  }

  ghost predicate IsByteRun(hs: Hosts, b: ByteSys, steps: seq<ByteStep>)
    decreases |steps|
  {
    steps == [] || (ByteEnabled(hs, b, steps[0]) && IsByteRun(hs, ByteApply(hs, b, steps[0]), steps[1..]))
  }

  ghost function ByteAfter(hs: Hosts, b: ByteSys, steps: seq<ByteStep>): ByteSys
    requires IsByteRun(hs, b, steps)
    decreases |steps|
  {
    if steps == [] then b else ByteAfter(hs, ByteApply(hs, b, steps[0]), steps[1..])
  }

  // ---- The refinement ----

  /** Each datagram in the line stands for the packet at its index. */
  ghost predicate Stand(line: seq<seq<byte>>, ps: seq<Packet>) {
    |line| == |ps| && forall i :: 0 <= i < |line| ==> Carries(line[i], ps[i])
  }

  /** b stands for s: the same machines, and datagrams that carry the packets ps and qs in flight. */
  ghost predicate StandsFor(b: ByteSys, s: Sys, ps: seq<Packet>, qs: seq<Packet>) {
    && b.server == s.server && b.client == s.client && b.inbox == s.inbox
    && Stand(b.toClient, ps) && multiset(ps) == s.toClient
    && Stand(b.toServer, qs) && multiset(qs) == s.toServer
  }

  ghost predicate Refines(b: ByteSys, s: Sys) { exists ps, qs :: StandsFor(b, s, ps, qs) }

  /** Both ends at the start, with any answers to repeated handshakes in flight. */
  ghost predicate ByteInit(cfg: Config, b: ByteSys)
    requires ConfigOk(cfg)
  {
    var s := Start(cfg);
    && b.server == s.server && b.client == s.client && b.inbox == Silence && b.toServer == []
    && forall i :: 0 <= i < |b.toClient| ==> Carries(b.toClient[i], FNAME_OK_ANSWER)
  }

  /** A datagram that carries a packet is never received as anything undefined. */
  lemma CarriedArrives(d: seq<byte>, p: Packet, stale: seq<byte>, order: Order)
    requires Carries(d, p) && |stale| == FULL_LENGTH
    ensures var r := Receive(stale, d, order); r == Arrived(Got(p)) || r == Arrived(CrcError)
  {
    hide Receive;
    assert Bears(d, p) ==> ReceivedAsSent(stale, d, order, p);
  }

  lemma WiredStand(h: Host, no: nat, draws: seq<Draw>, out: seq<Packet>)
    requires HostOk(h) && Ready(h, no, draws, out)
    ensures Stand(Wired(h, no, draws, out), Survivors(h, no, draws, out))
    decreases |out|
  {
    hide Wire, Fate, Carries;
    if out != [] {
      ReadyRest(h, no, draws, out);
      LinkRefines(h.standard, h.chance, no + 1, draws[0], out[0], h.order);
      WiredStand(h, no + 1, draws[1..], out[1..]);
    }
  }

  /** The abstract pick for what was heard. */
  ghost function PickOf(line: seq<seq<byte>>, ps: seq<Packet>, take: Receipt, order: Order): Pick
    requires Readable(line, take, order) && |line| == |ps|
  {
    if take == Nothing then NoPick
    else if Heard(line, take, order) == CrcError then Corrupt(ps[take.at]) else Intact(ps[take.at])
  }

  lemma PickIsHeard(line: seq<seq<byte>>, ps: seq<Packet>, take: Receipt, order: Order)
    requires Readable(line, take, order) && Stand(line, ps)
    ensures var pick := PickOf(line, ps, take, order);
            && ArrivalOf(pick) == Heard(line, take, order) && (pick == NoPick <==> take == Nothing)
            && CanPick(multiset(ps), pick)
            && Stand(Left(line, take), Left(ps, take)) && multiset(Left(ps, take)) == Take(multiset(ps), pick)
  {
    hide Receive, Carries;
    if take != Nothing {
      CarriedArrives(line[take.at], ps[take.at], take.stale, order);
      WithoutIsMinus(ps, take.at);
    }
  }

  lemma WithoutIsMinus<T>(line: seq<T>, at: nat)
    requires at < |line|
    ensures multiset(Without(line, at)) == multiset(line) - multiset{line[at]}
  {
    assert line == line[..at] + [line[at]] + line[at + 1..];
  }

  /** The abstract step for an act. */
  ghost function StepOf(hs: Hosts, b: ByteSys, act: Act, ps: seq<Packet>, qs: seq<Packet>): Step
    requires CanAct(hs, b, act) && |b.toClient| == |ps| && |b.toServer| == |qs|
  {
    match act
    case Send(readOk) => ServerSend(readOk)
    case Poll(take) => ServerPoll(PickOf(b.toServer, qs, take, hs.server.order))
    case Process => ServerProcess
    case Wait(take) => ServerWait(PickOf(b.toServer, qs, take, hs.server.order))
    case SayBye => ServerBye
    case HearBye(take) => ServerByeWait(PickOf(b.toServer, qs, take, hs.server.order))
    case Turn(take) => ClientTurn(PickOf(b.toClient, ps, take, hs.client.order))
    case Lose(toClient, at) => if toClient then DropToClient(ps[at]) else DropToServer(qs[at])
    case Repeat(toClient, at) => if toClient then DupToClient(ps[at]) else DupToServer(qs[at])
  }

  ghost function PoolOf(s: Sys, toClient: bool): multiset<Packet> { if toClient then s.toClient else s.toServer }

  ghost function WithPool(s: Sys, toClient: bool, pool: multiset<Packet>): Sys {
    if toClient then s.(toClient := pool) else s.(toServer := pool)
  }

  /** a is what the act makes of s before anything is sent, and the byte system stands for it. */
  ghost predicate ActIs(hs: Hosts, b: ByteSys, s: Sys, act: Act, ps: seq<Packet>, qs: seq<Packet>,
                        a: Sys, xs: seq<Packet>, ys: seq<Packet>)
    requires CanAct(hs, b, act) && |b.toClient| == |ps| && |b.toServer| == |qs|
  {
    var st := StepOf(hs, b, act, ps, qs);
    && StandsFor(Acted(hs, b, act), a, xs, ys)
    && Enabled(s, st)
    && Apply(s, st) == WithPool(a, !act.Turn?, PoolOf(a, !act.Turn?) + multiset(Output(hs, b, act)))
  }

  lemma SilentActRefines(hs: Hosts, b: ByteSys, s: Sys, act: Act, ps: seq<Packet>, qs: seq<Packet>)
    returns (a: Sys, xs: seq<Packet>, ys: seq<Packet>)
    requires StandsFor(b, s, ps, qs) && CanAct(hs, b, act) && |b.toClient| == |ps| && |b.toServer| == |qs|
    requires act.Send? || act.Process? || act.SayBye?
    ensures ActIs(hs, b, s, act, ps, qs, a, xs, ys)
  {
    hide Stand, S.SenderOk, S.OnSend, S.OnProcess, S.OnBye;
    var c := Acted(hs, b, act);
    a, xs, ys := s.(server := c.server, inbox := c.inbox), ps, qs;
  }

  lemma PollRefines(hs: Hosts, b: ByteSys, s: Sys, act: Act, ps: seq<Packet>, qs: seq<Packet>)
    returns (a: Sys, xs: seq<Packet>, ys: seq<Packet>)
    requires StandsFor(b, s, ps, qs) && CanAct(hs, b, act) && |b.toClient| == |ps| && |b.toServer| == |qs|
    requires act.Poll?
    ensures ActIs(hs, b, s, act, ps, qs, a, xs, ys)
  {
    hide Stand, Heard, PickOf, Left, S.SenderOk, S.OnPoll;
    PickIsHeard(b.toServer, qs, act.take, hs.server.order);
    var c := Acted(hs, b, act);
    xs, ys := ps, Left(qs, act.take);
    a := s.(server := c.server, inbox := c.inbox, toServer := multiset(ys));
  }

  lemma WaitRefines(hs: Hosts, b: ByteSys, s: Sys, act: Act, ps: seq<Packet>, qs: seq<Packet>)
    returns (a: Sys, xs: seq<Packet>, ys: seq<Packet>)
    requires StandsFor(b, s, ps, qs) && CanAct(hs, b, act) && |b.toClient| == |ps| && |b.toServer| == |qs|
    requires act.Wait?
    ensures ActIs(hs, b, s, act, ps, qs, a, xs, ys)
  {
    hide Stand, Heard, PickOf, Left, S.SenderOk, S.OnWait;
    PickIsHeard(b.toServer, qs, act.take, hs.server.order);
    var c := Acted(hs, b, act);
    xs, ys := ps, Left(qs, act.take);
    a := s.(server := c.server, inbox := c.inbox, toServer := multiset(ys));
  }

  lemma HearByeRefines(hs: Hosts, b: ByteSys, s: Sys, act: Act, ps: seq<Packet>, qs: seq<Packet>)
    returns (a: Sys, xs: seq<Packet>, ys: seq<Packet>)
    requires StandsFor(b, s, ps, qs) && CanAct(hs, b, act) && |b.toClient| == |ps| && |b.toServer| == |qs|
    requires act.HearBye?
    ensures ActIs(hs, b, s, act, ps, qs, a, xs, ys)
  {
    hide Stand, Heard, PickOf, Left, S.SenderOk, S.OnByeWait;
    PickIsHeard(b.toServer, qs, act.take, hs.server.order);
    var c := Acted(hs, b, act);
    xs, ys := ps, Left(qs, act.take);
    a := s.(server := c.server, inbox := c.inbox, toServer := multiset(ys));
  }

  lemma TurnRefines(hs: Hosts, b: ByteSys, s: Sys, act: Act, ps: seq<Packet>, qs: seq<Packet>)
    returns (a: Sys, xs: seq<Packet>, ys: seq<Packet>)
    requires StandsFor(b, s, ps, qs) && CanAct(hs, b, act) && |b.toClient| == |ps| && |b.toServer| == |qs|
    requires act.Turn?
    ensures ActIs(hs, b, s, act, ps, qs, a, xs, ys)
  {
    hide Stand, Heard, PickOf, Left, S.SenderOk, R.OnArrival;
    PickIsHeard(b.toClient, ps, act.take, hs.client.order);
    var c := Acted(hs, b, act);
    xs, ys := Left(ps, act.take), qs;
    a := s.(client := c.client, toClient := multiset(xs));
  }

  lemma LoseRefines(hs: Hosts, b: ByteSys, s: Sys, act: Act, ps: seq<Packet>, qs: seq<Packet>)
    returns (a: Sys, xs: seq<Packet>, ys: seq<Packet>)
    requires StandsFor(b, s, ps, qs) && CanAct(hs, b, act) && |b.toClient| == |ps| && |b.toServer| == |qs|
    requires act.Lose?
    ensures ActIs(hs, b, s, act, ps, qs, a, xs, ys)
  {
    hide Stand, Without, S.SenderOk;
    if act.toClient {
      StandWithout(b.toClient, ps, act.at);
      xs, ys := Without(ps, act.at), qs;
    } else {
      StandWithout(b.toServer, qs, act.at);
      xs, ys := ps, Without(qs, act.at);
    }
    a := s.(toClient := multiset(xs), toServer := multiset(ys));
  }

  lemma RepeatRefines(hs: Hosts, b: ByteSys, s: Sys, act: Act, ps: seq<Packet>, qs: seq<Packet>)
    returns (a: Sys, xs: seq<Packet>, ys: seq<Packet>)
    requires StandsFor(b, s, ps, qs) && CanAct(hs, b, act) && |b.toClient| == |ps| && |b.toServer| == |qs|
    requires act.Repeat?
    ensures ActIs(hs, b, s, act, ps, qs, a, xs, ys)
  {
    hide Stand, S.SenderOk;
    if act.toClient {
      StandRepeat(b.toClient, ps, act.at);
      xs, ys := ps + [ps[act.at]], qs;
    } else {
      StandRepeat(b.toServer, qs, act.at);
      xs, ys := ps, qs + [qs[act.at]];
    }
    a := s.(toClient := multiset(xs), toServer := multiset(ys));
  }

  lemma StandWithout(line: seq<seq<byte>>, ps: seq<Packet>, at: nat)
    requires Stand(line, ps) && at < |line|
    ensures |ps| == |line| && Stand(Without(line, at), Without(ps, at))
    ensures multiset(Without(ps, at)) == multiset(ps) - multiset{ps[at]} && ps[at] in multiset(ps)
  {
    hide Carries;
    WithoutIsMinus(ps, at);
  }

  lemma StandRepeat(line: seq<seq<byte>>, ps: seq<Packet>, at: nat)
    requires Stand(line, ps) && at < |line|
    ensures |ps| == |line| && Stand(line + [line[at]], ps + [ps[at]])
    ensures multiset(ps + [ps[at]]) == multiset(ps) + multiset{ps[at]} && ps[at] in multiset(ps)
  {
    hide Carries;
  }

  /** An act of the byte system is a step of the protocol, but for what it sends. */
  lemma ActRefines(hs: Hosts, b: ByteSys, s: Sys, act: Act, ps: seq<Packet>, qs: seq<Packet>)
    returns (a: Sys, xs: seq<Packet>, ys: seq<Packet>)
    requires StandsFor(b, s, ps, qs) && CanAct(hs, b, act) && |b.toClient| == |ps| && |b.toServer| == |qs|
    ensures ActIs(hs, b, s, act, ps, qs, a, xs, ys)
  {
    hide ActIs, StandsFor, CanAct;
    match act
    case Poll(_) => a, xs, ys := PollRefines(hs, b, s, act, ps, qs);
    case Wait(_) => a, xs, ys := WaitRefines(hs, b, s, act, ps, qs);
    case HearBye(_) => a, xs, ys := HearByeRefines(hs, b, s, act, ps, qs);
    case Turn(_) => a, xs, ys := TurnRefines(hs, b, s, act, ps, qs);
    case Lose(_, _) => a, xs, ys := LoseRefines(hs, b, s, act, ps, qs);
    case Repeat(_, _) => a, xs, ys := RepeatRefines(hs, b, s, act, ps, qs);
    case _ => a, xs, ys := SilentActRefines(hs, b, s, act, ps, qs);
  }

  /** What the fault injector has lost is dropped from the pool of packets. */
  lemma {:induction false} DropLost(s: Sys, toClient: bool, base: multiset<Packet>,
                                    h: Host, no: nat, draws: seq<Draw>, out: seq<Packet>) returns (steps: seq<Step>)
    requires S.SenderOk(s.server) && s.client.size >= 1 && Ready(h, no, draws, out) && |draws| == |out|
    requires PoolOf(s, toClient) == base + multiset(out)
    ensures Moves(s, steps, WithPool(s, toClient, base + multiset(Survivors(h, no, draws, out))))
    decreases |out|
  {
    hide S.SenderOk, FateOf, Ready, Moves, Apply, Drawn, FlipsSize, Encodable;
    if out == [] {
      NoMove(s);
      assert WithPool(s, toClient, base + multiset(out)) == s;
      steps := [];
    } else {
      ReadyRest(h, no, draws, out);
      var p, rest := out[0], Survivors(h, no + 1, draws[1..], out[1..]);
      assert multiset(out) == multiset{p} + multiset(out[1..]) by { assert out == [p] + out[1..]; }
      if FateOf(h, no, draws[0], p).OnWire? {
        steps := DropLost(s, toClient, base + multiset{p}, h, no + 1, draws[1..], out[1..]);
        assert multiset([p] + rest) == multiset{p} + multiset(rest);
        assert base + multiset{p} + multiset(rest) == base + multiset([p] + rest);
      } else {
        var st, t := DropOne(s, toClient, base + multiset(out[1..]), p);
        var drops := DropLost(t, toClient, base, h, no + 1, draws[1..], out[1..]);
        assert [] + rest == rest;
        MovesCompose(s, [st], t, drops, WithPool(s, toClient, base + multiset(rest)));
        steps := [st] + drops;
      }
    }
  }

  lemma NoMove(s: Sys)
    ensures Moves(s, [], s)
  {
  }

  lemma DropOne(s: Sys, toClient: bool, left: multiset<Packet>, p: Packet) returns (st: Step, t: Sys)
    requires S.SenderOk(s.server) && s.client.size >= 1 && PoolOf(s, toClient) == left + multiset{p}
    ensures t == WithPool(s, toClient, left) && Moves(s, [st], t)
  {
    hide S.SenderOk;
    st := if toClient then DropToClient(p) else DropToServer(p);
    t := WithPool(s, toClient, left);
    assert left + multiset{p} - multiset{p} == left;
    OneMove(s, st);
  }

  lemma StandAppend(line: seq<seq<byte>>, ps: seq<Packet>, more: seq<seq<byte>>, qs: seq<Packet>)
    requires Stand(line, ps) && Stand(more, qs)
    ensures Stand(line + more, ps + qs)
  {
    hide Carries;
  }

  /** Sending bytes: the protocol sends every packet, and those the fault injector has lost are dropped. */
  lemma SentRefines(h: Host, no: nat, draws: seq<Draw>, out: seq<Packet>, toClient: bool,
                    c: ByteSys, a: Sys, xs: seq<Packet>, ys: seq<Packet>) returns (t: Sys, drops: seq<Step>)
    requires HostOk(h) && Ready(h, no, draws, out) && |draws| == |out| && StandsFor(c, a, xs, ys)
    requires S.SenderOk(a.server) && a.client.size >= 1
    ensures Moves(WithPool(a, toClient, PoolOf(a, toClient) + multiset(out)), drops, t)
    ensures var more := Wired(h, no, draws, out);
            Refines(if toClient then c.(toClient := c.toClient + more) else c.(toServer := c.toServer + more), t)
  {
    var full := WithPool(a, toClient, PoolOf(a, toClient) + multiset(out));
    var rest, more := Survivors(h, no, draws, out), Wired(h, no, draws, out);
    hide Moves, S.SenderOk, Ready, Carries, Stand, Wired, Survivors;
    drops := DropLost(full, toClient, PoolOf(a, toClient), h, no, draws, out);
    t := WithPool(full, toClient, PoolOf(a, toClient) + multiset(rest));
    WiredStand(h, no, draws, out);
    if toClient {
      StandAppend(c.toClient, xs, more, rest);
      assert StandsFor(c.(toClient := c.toClient + more), t, xs + rest, ys);
    } else {
      StandAppend(c.toServer, ys, more, rest);
      assert StandsFor(c.(toServer := c.toServer + more), t, xs, ys + rest);
    }
  }

  lemma CountersApart(b: ByteSys, s: Sys, serverMsgs: nat, clientMsgs: nat)
    requires Refines(b, s)
    ensures Refines(b.(serverMsgs := serverMsgs, clientMsgs := clientMsgs), s)
  {
    hide Stand;
    var ps, qs :| StandsFor(b, s, ps, qs);
    assert StandsFor(b.(serverMsgs := serverMsgs, clientMsgs := clientMsgs), s, ps, qs);
  }

  /** Every step of the byte system is a run of the protocol: the machine's step, then the drops. */
  lemma StepRefines(cfg: Config, hs: Hosts, b: ByteSys, s: Sys, st: ByteStep) returns (t: Sys, steps: seq<Step>)
    requires ConfigOk(cfg) && Inv(cfg, s)
    requires HostOk(hs.server) && HostOk(hs.client) && Refines(b, s) && ByteEnabled(hs, b, st)
    ensures Moves(s, steps, t) && Refines(ByteApply(hs, b, st), t)
  {
    hide Moves, CanAct, Apply, Enabled, Output, Acted, Ready, StepOf, Inv, HostOk, Wired, Refines, StandsFor;
    var ps, qs := Lines(b, s);
    var a, xs, ys := ActRefines(hs, b, s, st.act, ps, qs);
    var step := StepOf(hs, b, st.act, ps, qs);
    OneMove(s, step);
    StepKeepsInv(cfg, s, step);
    MachinesOk(cfg, Apply(s, step));
    var h, no := if st.act.Turn? then hs.client else hs.server, if st.act.Turn? then b.clientMsgs else b.serverMsgs;
    var out, c := Output(hs, b, st.act), Acted(hs, b, st.act);
    DrawsMatch(h, no, st.draws, out);
    var drops;
    t, drops := SentRefines(h, no, st.draws, out, !st.act.Turn?, c, a, xs, ys);
    var d := ByteApply(hs, b, st);
    CountersApart(d.(serverMsgs := c.serverMsgs, clientMsgs := c.clientMsgs), t, d.serverMsgs, d.clientMsgs);
    MovesCompose(s, [step], Apply(s, step), drops, t);
    steps := [step] + drops;
  }

  lemma Lines(b: ByteSys, s: Sys) returns (ps: seq<Packet>, qs: seq<Packet>)
    requires Refines(b, s)
    ensures StandsFor(b, s, ps, qs) && |b.toClient| == |ps| && |b.toServer| == |qs|
  {
    ps, qs :| StandsFor(b, s, ps, qs);
  }

  lemma DrawsMatch(h: Host, no: nat, draws: seq<Draw>, out: seq<Packet>)
    requires Ready(h, no, draws, out)
    ensures |draws| == |out|
  {
  }

  lemma MachinesOk(cfg: Config, s: Sys)
    requires ConfigOk(cfg) && Inv(cfg, s)
    ensures S.SenderOk(s.server) && s.client.size >= 1
  {
  }

  // ---- Whole runs ----

  lemma {:induction false} ByteRunRefines(cfg: Config, hs: Hosts, b: ByteSys, s: Sys, steps: seq<ByteStep>)
    returns (t: Sys, run: seq<Step>)
    requires ConfigOk(cfg) && Inv(cfg, s) && HostOk(hs.server) && HostOk(hs.client)
    requires Refines(b, s) && IsByteRun(hs, b, steps)
    ensures Moves(s, run, t) && Refines(ByteAfter(hs, b, steps), t)
    decreases |steps|
  {
    hide Inv, HostOk, Refines, ByteEnabled, ByteApply, Moves;
    if steps == [] {
      NoMove(s);
      t, run := s, [];
    } else {
      var a, first := StepRefines(cfg, hs, b, s, steps[0]);
      MovesKeepInv(cfg, s, first, a);
      var rest;
      t, rest := ByteRunRefines(cfg, hs, ByteApply(hs, b, steps[0]), a, steps[1..]);
      MovesCompose(s, first, a, rest, t);
      run := first + rest;
    }
  }

  lemma MovesKeepInv(cfg: Config, s: Sys, steps: seq<Step>, t: Sys)
    requires ConfigOk(cfg) && Inv(cfg, s) && Moves(s, steps, t)
    ensures Inv(cfg, t)
  {
    hide Inv;
    RunKeepsInv(cfg, s, steps);
  }

  lemma InitRefines(cfg: Config, b: ByteSys) returns (s: Sys)
    requires ConfigOk(cfg) && ByteInit(cfg, b)
    ensures Init(cfg, s) && Refines(b, s)
  {
    hide Carries;
    var ps := seq(|b.toClient|, _ => FNAME_OK_ANSWER);
    s := Start(cfg).(toClient := multiset(ps));
    assert StandsFor(b, s, ps, []);
  }

  /** Every run of the byte system, faults of the injector and the network included, is a run of the protocol. */
  lemma ByteTransferRefines(cfg: Config, hs: Hosts, b: ByteSys, steps: seq<ByteStep>) returns (t: Sys)
    requires ConfigOk(cfg) && ByteInit(cfg, b) && HostOk(hs.server) && HostOk(hs.client) && IsByteRun(hs, b, steps)
    ensures Reachable(cfg, t) && Refines(ByteAfter(hs, b, steps), t)
  {
    var s := InitRefines(cfg, b);
    InitInv(cfg, s);
    hide Inv, Init, HostOk, Refines;
    var run;
    t, run := ByteRunRefines(cfg, hs, b, s, steps);
  }

  /**
   * Hence what holds of the protocol holds of the bytes: the chunks are written in order, a client that stops on
   * END_OF_FILE has the file, an acknowledged server leaves such a client, and no receive is ever undefined.
   */
  lemma ByteTransferSafe(cfg: Config, hs: Hosts, b: ByteSys, steps: seq<ByteStep>)
    requires ConfigOk(cfg) && ByteInit(cfg, b) && HostOk(hs.server) && HostOk(hs.client) && IsByteRun(hs, b, steps)
    ensures var c := ByteAfter(hs, b, steps);
            && |c.client.log| <= |Chunks(cfg)|
            && (forall i :: 0 <= i < |c.client.log| ==> c.client.log[i].payload == Chunks(cfg)[i])
            && (c.client.phase == R.Done(R.EndOfFile) ==>
                  |c.client.log| == |Chunks(cfg)| && (OutputFile(c.client.log) == cfg.file <==> !Padded(c.client.log)))
            && (c.server.phase == S.Done(S.Acked) ==> c.client.phase == R.Done(R.EndOfFile))
            && (forall d: seq<byte>, stale: seq<byte>, order: Order ::
                  (d in c.toClient || d in c.toServer) && |stale| == FULL_LENGTH ==> Receive(stale, d, order).Arrived?)
  {
    var t := ByteTransferRefines(cfg, hs, b, steps);
    hide Reachable, Inv, Padded, ByteAfter, IsByteRun, Receive, ByteInit;
    WrittenInOrder(cfg, t);
    if t.client.phase == R.Done(R.EndOfFile) {
      EndOfFileIsComplete(cfg, t);
      OutputIsFile(cfg, t);
    }
    if t.server.phase == S.Done(S.Acked) { AckedIsComplete(cfg, t); }
    AllArrive(ByteAfter(hs, b, steps), t);
  }

  lemma AllArrive(b: ByteSys, s: Sys)
    requires Refines(b, s)
    ensures b.client == s.client && b.server == s.server
    ensures forall d: seq<byte>, stale: seq<byte>, order: Order ::
              (d in b.toClient || d in b.toServer) && |stale| == FULL_LENGTH ==> Receive(stale, d, order).Arrived?
  {
    var ps, qs := Lines(b, s);
    hide Receive, Carries;
    forall d: seq<byte>, stale: seq<byte>, order: Order
      | (d in b.toClient || d in b.toServer) && |stale| == FULL_LENGTH
      ensures Receive(stale, d, order).Arrived?
    {
      if d in b.toClient {
        var i :| 0 <= i < |b.toClient| && b.toClient[i] == d;
        CarriedArrives(d, ps[i], stale, order);
      } else {
        var i :| 0 <= i < |b.toServer| && b.toServer[i] == d;
        CarriedArrives(d, qs[i], stale, order);
      }
    }
  }

  /** Below 2^31 chunks nothing a machine wants to send is too large for the wire, so no step is blocked by its packets. */
  lemma OutputEncodable(cfg: Config, hs: Hosts, b: ByteSys, steps: seq<ByteStep>, act: Act, p: Packet)
    requires ConfigOk(cfg) && ByteInit(cfg, b) && HostOk(hs.server) && HostOk(hs.client) && IsByteRun(hs, b, steps)
    requires |Chunks(cfg)| + 2 < 0x8000_0000
    requires CanAct(hs, ByteAfter(hs, b, steps), act) && p in Output(hs, ByteAfter(hs, b, steps), act)
    ensures Encodable(p)
  {
    var t := ByteTransferRefines(cfg, hs, b, steps);
    var c := ByteAfter(hs, b, steps);
    hide Reachable, Inv, ByteAfter, IsByteRun, ByteInit, CanAct, Output, Apply, Enabled, StandsFor, Refines, StepOf, Acted;
    var ps, qs := Lines(c, t);
    var a, xs, ys := ActRefines(hs, c, t, act, ps, qs);
    var st := StepOf(hs, c, act, ps, qs);
    ReachableOn(cfg, t, st);
    assert p in multiset(Output(hs, c, act));
    InFlightEncodable(cfg, Apply(t, st), p);
  }

  lemma ReachableOn(cfg: Config, s: Sys, st: Step)
    requires Reachable(cfg, s) && Enabled(s, st)
    ensures Reachable(cfg, Apply(s, st))
  {
    hide Apply, Enabled, Init;
    var s0, steps :| Init(cfg, s0) && IsRun(s0, steps) && After(s0, steps) == s;
    OneMove(s, st);
    MovesCompose(s0, steps, s, [st], Apply(s, st));
  }
}
