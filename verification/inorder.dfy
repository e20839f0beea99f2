/** Faultless runs in which, moreover, no datagram overtakes another. */
module InOrder {
  import opened Packets
  import opened Windows
  import opened Protocol
  import opened Progress
  import opened Outcome
  import opened Faultless
  import S = Server
  import R = Rcopy

  /** The datagrams in flight each way, in the order in which they were sent. */
  datatype Lines = Lines(toClient: seq<Packet>, toServer: seq<Packet>)

  ghost predicate Lined(s: Sys, l: Lines) {
    multiset(l.toClient) == s.toClient && multiset(l.toServer) == s.toServer
  }

  predicate Heads(line: seq<Packet>, pick: Pick) { pick == NoPick || (line != [] && line[0] == pick.p) }

  /** What is received is what has been on its way for longest. */
  predicate TakesHead(l: Lines, st: Step) {
    match st
    case ServerPoll(pick) => Heads(l.toServer, pick)
    case ServerWait(pick) => Heads(l.toServer, pick)
    case ServerByeWait(pick) => Heads(l.toServer, pick)
    case ClientTurn(pick) => Heads(l.toClient, pick)
    case _ => true
  }

  /** What a step sends, in order. */
  ghost function Says(s: Sys, st: Step): seq<Packet>
    requires Enabled(s, st)
  {
    match st
    case ServerSend(readOk) => S.OnSend(s.server, readOk).1
    case ServerProcess => S.OnProcess(s.server, s.inbox).1
    case ServerWait(pick) => S.OnWait(s.server, pick != NoPick).1
    case ServerBye => S.OnBye(s.server).1
    case ClientTurn(pick) => R.OnArrival(s.client, ArrivalOf(pick)).1
    case _ => []
  }

  function Rest(line: seq<Packet>, pick: Pick): seq<Packet>
    requires Heads(line, pick)
  {
    if pick == NoPick then line else line[1..]
  }

  ghost function Next(s: Sys, l: Lines, st: Step): Lines
    requires Enabled(s, st) && TakesHead(l, st)
  {
    match st
    case ClientTurn(pick) => Lines(Rest(l.toClient, pick), l.toServer + Says(s, st))
    case ServerPoll(pick) => Lines(l.toClient, Rest(l.toServer, pick))
    case ServerWait(pick) => Lines(l.toClient + Says(s, st), Rest(l.toServer, pick))
    case ServerByeWait(pick) => Lines(l.toClient, Rest(l.toServer, pick))
    case _ => Lines(l.toClient + Says(s, st), l.toServer)
  }

  /** steps is a faultless run from s that receives everything in the order in which it was sent. */
  ghost predicate KeepsOrder(s: Sys, l: Lines, steps: seq<Step>)
    decreases |steps|
  {
    steps == [] ||
    (Enabled(s, steps[0]) && NoFault(steps[0]) && TakesHead(l, steps[0]) &&
     KeepsOrder(Apply(s, steps[0]), Next(s, l, steps[0]), steps[1..]))
  }

  lemma {:induction false} OrderedIsFaultless(s: Sys, l: Lines, steps: seq<Step>)
    requires KeepsOrder(s, l, steps)
    ensures IsRun(s, steps) && NoFaults(steps)
    decreases |steps|
  {
    hide Apply, Enabled, NoFault;
    if steps != [] {
      OrderedIsFaultless(Apply(s, steps[0]), Next(s, l, steps[0]), steps[1..]);
      forall i | 0 <= i < |steps| ensures NoFault(steps[i]) {
        if i > 0 { assert steps[i] == steps[1..][i - 1]; }
      }
    }
  }

  lemma RestIsTake(line: seq<Packet>, pick: Pick)
    requires Heads(line, pick)
    ensures multiset(Rest(line, pick)) == Take(multiset(line), pick)
  {
    if pick != NoPick { assert line == [line[0]] + line[1..]; }
  }

  lemma NextLined(s: Sys, l: Lines, st: Step)
    requires Lined(s, l) && Enabled(s, st) && NoFault(st) && TakesHead(l, st)
    ensures Lined(Apply(s, st), Next(s, l, st))
  {
    hide S.OnSend, S.OnPoll, S.OnProcess, S.OnWait, S.OnBye, S.OnByeWait, R.OnArrival, Rest, Heads, Take, S.SenderOk;
    match st
    case ServerPoll(pick) => RestIsTake(l.toServer, pick);
    case ServerWait(pick) => RestIsTake(l.toServer, pick);
    case ServerByeWait(pick) => RestIsTake(l.toServer, pick);
    case ClientTurn(pick) => RestIsTake(l.toClient, pick);
    case _ =>
  }

  // ---- What runs in order keep ----

  /** The line to the client: answers to the handshake, then the chunks not received yet, one after the other. */
  ghost predicate ChunksInLine(ch: seq<seq<byte>>, line: seq<Packet>, next: nat, sent: nat) {
    var strays := |line| - (sent - next);
    && next <= sent && strays >= 0 && (strays > 0 ==> next == 1)
    && forall i :: 0 <= i < |line| ==>
         if i < strays then line[i] == FNAME_OK_ANSWER
         else Genuine(ch, sent, line[i]) && line[i].seqNum == next + i - strays
  }

  /** Acknowledgements only, in the line and in the inbox, the newest of them of what the client now expects. */
  ghost predicate AcksInLine(line: seq<Packet>, inbox: Arrival, next: nat) {
    && (forall i :: 0 <= i < |line| ==> line[i].flag == RR)
    && (inbox.Got? ==> inbox.packet.flag == RR)
    && (if line != [] then line[|line| - 1] == Rr(next) else inbox.Got? ==> inbox.packet == Rr(next))
  }

  ghost predicate Sequenced(cfg: Config, s: Sys, l: Lines)
    requires ConfigOk(cfg)
  {
    && Lined(s, l) && s.client.phase == R.RecvData && s.server.phase != S.Aborted
    && ChunksInLine(Chunks(cfg), l.toClient, s.client.next, s.server.ring.middle)
    && AcksInLine(l.toServer, s.inbox, s.client.next)
  }

  ghost predicate Ordered(cfg: Config, s: Sys, l: Lines)
    requires ConfigOk(cfg)
  {
    Calm(cfg, s) && (ByeBegun(s.server) || Sequenced(cfg, s, l))
  }

  lemma ChunkTaken(ch: seq<seq<byte>>, line: seq<Packet>, next: nat, sent: nat)
    requires ChunksInLine(ch, line, next, sent) && line != []
    ensures var p := line[0];
            && p.flag != END_OF_FILE && (p.seqNum == next || p.seqNum < next == 1)
            && ChunksInLine(ch, line[1..], if p.seqNum == next then next + 1 else next, sent)
  {
  }

  lemma ChunkAdded(ch: seq<seq<byte>>, line: seq<Packet>, next: nat, sent: nat, p: Packet)
    requires ChunksInLine(ch, line, next, sent) && Genuine(ch, sent + 1, p) && p.seqNum == sent
    ensures ChunksInLine(ch, line + [p], next, sent + 1)
  {
  }

  /** The client takes the head of its line: a stray, or the chunk it expects. */
  lemma HeadTaken(c: R.Receiver, p: Packet)
    requires R.ReceiverOk(c) && c.phase == R.RecvData && p.flag != END_OF_FILE
    requires p.seqNum == c.next || (p.seqNum < c.next == 1)
    ensures var (d, out) := R.OnArrival(c, Got(p));
            && d.phase == R.RecvData && out == [Rr(d.next)]
            && d.next == if p.seqNum == c.next then c.next + 1 else c.next
  {
  }

  lemma ClientInOrder(cfg: Config, s: Sys, l: Lines, p: Packet)
    requires ConfigOk(cfg) && R.ReceiverOk(s.client) && Sequenced(cfg, s, l) && Enabled(s, ClientTurn(Intact(p)))
    requires l.toClient != [] && l.toClient[0] == p
    ensures var st := ClientTurn(Intact(p));
            var t := Apply(s, st);
            Sequenced(cfg, t, Next(s, l, st)) && |t.toServer| == |s.toServer| + 1 && |t.toClient| == |s.toClient| - 1
  {
    hide R.OnArrival, R.ReceiverOk, ChunksInLine, AcksInLine, Lined, Chunks;
    NextLined(s, l, ClientTurn(Intact(p)));
    ChunkTaken(Chunks(cfg), l.toClient, s.client.next, s.server.ring.middle);
    HeadTaken(s.client, p);
    var d := R.OnArrival(s.client, Got(p)).0;
    ClientTurnIs(s, l, p, d);
    AckAdded(l.toServer, s.inbox, s.client.next, d.next);
  }

  lemma ClientTurnIs(s: Sys, l: Lines, p: Packet, d: R.Receiver)
    requires Enabled(s, ClientTurn(Intact(p))) && R.OnArrival(s.client, Got(p)) == (d, [Rr(d.next)])
    requires l.toClient != [] && l.toClient[0] == p
    ensures var (t, k) := (Apply(s, ClientTurn(Intact(p))), Next(s, l, ClientTurn(Intact(p))));
            && t.client == d && t.server == s.server && t.inbox == s.inbox
            && k == Lines(l.toClient[1..], l.toServer + [Rr(d.next)])
            && |t.toServer| == |s.toServer| + 1 && |t.toClient| == |s.toClient| - 1
  {
    hide R.OnArrival;
    assert |multiset([Rr(d.next)])| == 1;
  }

  lemma AckAdded(line: seq<Packet>, inbox: Arrival, next: nat, now: nat)
    requires AcksInLine(line, inbox, next)
    ensures AcksInLine(line + [Rr(now)], inbox, now)
  {
  }

  lemma SendInOrder(cfg: Config, s: Sys, l: Lines)
    requires ConfigOk(cfg) && Inv(cfg, s) && Sequenced(cfg, s, l) && Enabled(s, ServerSend(true))
    ensures Sequenced(cfg, Apply(s, ServerSend(true)), Next(s, l, ServerSend(true)))
  {
    hide Inv, Genuine, S.OnSend, ChunksInLine, AcksInLine, Lined, Chunks, S.SenderOk;
    NextLined(s, l, ServerSend(true));
    SentIsNext(cfg, s);
    SentIs(s.server);
    var (d, out) := S.OnSend(s.server, true);
    if out == [] {
      assert l.toClient + out == l.toClient;
    } else {
      assert out == [out[0]];
      ChunkAdded(Chunks(cfg), l.toClient, s.client.next, s.server.ring.middle, out[0]);
    }
  }

  lemma SentIsNext(cfg: Config, s: Sys)
    requires ConfigOk(cfg) && Inv(cfg, s) && s.server.phase == S.SendData && S.SenderOk(s.server)
    ensures var (d, out) := S.OnSend(s.server, true);
            forall i :: 0 <= i < |out| ==> Genuine(Chunks(cfg), d.ring.middle, out[i])
  {
    hide Genuine, S.OnSend;
    SendKeepsServerInv(cfg, s.server, true);
  }

  lemma SentIs(s: S.Sender)
    requires S.SenderOk(s) && s.phase == S.SendData
    ensures var (d, out) := S.OnSend(s, true);
            && d.phase != S.Aborted
            && if out == [] then d.ring.middle == s.ring.middle
               else |out| == 1 && out[0].seqNum == s.ring.middle && d.ring.middle == s.ring.middle + 1
  {
  }

  lemma AckTaken(line: seq<Packet>, inbox: Arrival, next: nat)
    requires AcksInLine(line, inbox, next)
    ensures line != [] ==> AcksInLine(line[1..], Got(line[0]), next)
    ensures AcksInLine(line, Silence, next)
  {
  }

  /** The server receives, from send_data or wait_on_ack, what has been on its way for longest. */
  lemma HearInOrder(cfg: Config, s: Sys, l: Lines, st: Step)
    requires ConfigOk(cfg) && Sequenced(cfg, s, l) && Enabled(s, st) && NoFault(st) && TakesHead(l, st)
    requires st.ServerPoll? || st.ServerWait?
    ensures Sequenced(cfg, Apply(s, st), Next(s, l, st))
  {
    NextLined(s, l, st);
    AckTaken(l.toServer, s.inbox, s.client.next);
    hide ChunksInLine, AcksInLine, Lined, Chunks, S.SenderOk;
    var t := Apply(s, st);
    assert t.client == s.client && t.server.ring == s.server.ring && t.server.phase != S.Aborted;
    assert l.toClient + [] == l.toClient;
    assert Says(s, st) == [];
  }

  lemma ProcessInOrder(cfg: Config, s: Sys, l: Lines)
    requires ConfigOk(cfg) && Inv(cfg, s) && Sequenced(cfg, s, l) && Enabled(s, ServerProcess) && s.inbox != CrcError
    ensures Sequenced(cfg, Apply(s, ServerProcess), Next(s, l, ServerProcess))
    ensures s.server.eof != Some(s.inbox.packet.seqNum) ==> Apply(s, ServerProcess).server.phase == S.SendData
  {
    hide Inv, ChunksInLine, AcksInLine, Lined, Chunks, S.SenderOk;
    Facts(cfg, s);
    AckTaken(l.toServer, s.inbox, s.client.next);
    AckInInbox(l.toServer, s.inbox, s.client.next);
    NextLined(s, l, ServerProcess);
    AckProcessed(s.server, s.inbox.packet);
    assert l.toClient + [] == l.toClient;
  }

  lemma AckInInbox(line: seq<Packet>, inbox: Arrival, next: nat)
    requires AcksInLine(line, inbox, next) && inbox.Got?
    ensures inbox.packet.flag == RR
  {
  }

  lemma AckProcessed(s: S.Sender, p: Packet)
    requires S.SenderOk(s) && p.flag == RR && p.seqNum <= s.ring.middle && s.ring.bottom <= s.ring.middle
    ensures var (d, out) := S.OnProcess(s, Got(p));
            && out == [] && d.ring.middle == s.ring.middle && d.phase != S.Aborted
            && (s.eof != Some(p.seqNum) ==> d.phase == S.SendData)
  {
    hide Index, Cleared;
  }

  lemma OrderedStep(cfg: Config, s: Sys, l: Lines, st: Step)
    requires ConfigOk(cfg) && Ordered(cfg, s, l) && Enabled(s, st) && NoFault(st) && TakesHead(l, st)
    ensures Ordered(cfg, Apply(s, st), Next(s, l, st))
  {
    CalmStep(cfg, s, st);
    assert Inv(cfg, s) && s.inbox != CrcError && R.ReceiverOk(s.client);
    hide Calm, Inv, Sequenced, Apply, Next, S.SenderOk;
    if ByeBegun(s.server) {
      ByeStays(s, st);
    } else {
      match st
      case ClientTurn(pick) => ClientInOrder(cfg, s, l, pick.p);
      case ServerSend(_) => SendInOrder(cfg, s, l);
      case ServerProcess => ProcessInOrder(cfg, s, l);
      case _ => HearInOrder(cfg, s, l, st);
    }
  }

  lemma {:induction false} OrderedRun(cfg: Config, s: Sys, l: Lines, steps: seq<Step>) returns (k: Lines)
    requires ConfigOk(cfg) && Ordered(cfg, s, l) && KeepsOrder(s, l, steps)
    ensures IsRun(s, steps) && Ordered(cfg, After(s, steps), k)
    decreases |steps|
  {
    OrderedIsFaultless(s, l, steps);
    hide Apply, Enabled, NoFault, Ordered;
    if steps == [] {
      k := l;
    } else {
      OrderedStep(cfg, s, l, steps[0]);
      k := OrderedRun(cfg, Apply(s, steps[0]), Next(s, l, steps[0]), steps[1..]);
    }
  }

  lemma InitOrdered(cfg: Config, s: Sys, l: Lines)
    requires ConfigOk(cfg) && Init(cfg, s) && Lined(s, l)
    ensures Ordered(cfg, s, l)
  {
    hide Calm, Init, Inv, NoRejects, Chunks;
    InitCalm(cfg, s);
    InitFacts(cfg, s);
    assert forall i :: 0 <= i < |l.toClient| ==> l.toClient[i] in multiset(l.toClient);
    assert |l.toServer| == |multiset(l.toServer)|;
  }

  /** In order no reject is ever sent, whatever the window. */
  lemma SequencedHasNoRejects(cfg: Config, s: Sys, l: Lines)
    requires ConfigOk(cfg) && Ordered(cfg, s, l) && !ByeBegun(s.server)
    ensures NoRejects(s)
  {
    hide Calm, ChunksInLine;
    forall p | p in s.toServer ensures p.flag != SREJ {
      assert p in multiset(l.toServer);
    }
  }

  // ---- A stray answer keeps an acknowledgement ahead of the server ----

  /** Datagrams under way, the one in the inbox included. */
  ghost function UnderWay(s: Sys): nat {
    |s.toClient| + |s.toServer| + (if s.inbox == Silence then 0 else 1)
  }

  /** One more acknowledgement is to come than the server can read before it finds the end of the file. */
  ghost predicate Owed(s: Sys) {
    UnderWay(s) >= if (s.server.phase == S.Polling || s.server.phase == S.Process) && s.server.eof == None then 2 else 1
  }

  lemma OwedStep(cfg: Config, s: Sys, l: Lines, st: Step)
    requires ConfigOk(cfg) && Ordered(cfg, s, l) && Enabled(s, st) && NoFault(st) && TakesHead(l, st)
    requires |Chunks(cfg)| < cfg.size && !ByeBegun(s.server) && Owed(s)
    ensures Owed(Apply(s, st)) || ByeBegun(Apply(s, st).server)
  {
    Facts(cfg, s);
    CalmFacts(cfg, s);
    assert s.server.phase == S.WaitOnAck ==> s.server.eof.Some?;
    assert s.inbox != CrcError && R.ReceiverOk(s.client) && Sequenced(cfg, s, l);
    hide Calm, Sequenced;
    match st
    case ClientTurn(pick) => OwedClient(cfg, s, l, pick.p);
    case ServerProcess => OwedProcess(cfg, s, l);
    case ServerSend(_) => OwedSend(s);
    case _ => OwedHear(s, st);
  }

  lemma OwedHear(s: Sys, st: Step)
    requires Enabled(s, st) && NoFault(st) && (st.ServerPoll? || st.ServerWait?) && s.inbox == Silence && Owed(s)
    requires s.server.phase == S.WaitOnAck ==> s.server.eof.Some? && s.server.waits < S.RETRIES
    ensures Owed(Apply(s, st))
  {
    hide S.SenderOk;
    if st.pick != NoPick { assert |s.toServer - multiset{st.pick.p}| == |s.toServer| - 1; }
    var t := Apply(s, st);
    assert t.server.eof == s.server.eof && t.toClient == s.toClient && t.inbox == ArrivalOf(st.pick);
  }

  lemma OwedClient(cfg: Config, s: Sys, l: Lines, p: Packet)
    requires ConfigOk(cfg) && R.ReceiverOk(s.client) && Sequenced(cfg, s, l) && Enabled(s, ClientTurn(Intact(p)))
    requires TakesHead(l, ClientTurn(Intact(p))) && Owed(s)
    ensures Owed(Apply(s, ClientTurn(Intact(p))))
  {
    ClientInOrder(cfg, s, l, p);
    hide Sequenced, R.OnArrival, R.ReceiverOk, S.SenderOk;
  }

  lemma OwedSend(s: Sys)
    requires Enabled(s, ServerSend(true)) && Owed(s) && s.server.ring.middle <= s.server.ring.top
    ensures Owed(Apply(s, ServerSend(true)))
  {
    var out := S.OnSend(s.server, true).1;
    assert |s.toClient + multiset(out)| == |s.toClient| + |out|;
  }

  /** Once eof_index is set, an acknowledgement that is not the last one has another behind it. */
  lemma OwedProcess(cfg: Config, s: Sys, l: Lines)
    requires ConfigOk(cfg) && Sequenced(cfg, s, l) && Inv(cfg, s) && Owed(s) && s.inbox != CrcError
    requires Enabled(s, ServerProcess)
    ensures var t := Apply(s, ServerProcess); Owed(t) || ByeBegun(t.server)
  {
    Facts(cfg, s);
    ProcessSaysNothing(s);
    hide Inv, Apply, Chunks, ChunksInLine, S.SenderOk;
    assert |l.toClient| == |multiset(l.toClient)| && |l.toServer| == |multiset(l.toServer)|;
    if s.server.eof.Some? && s.inbox.packet.seqNum != s.server.eof.value && l.toServer == [] {
      assert s.client.next < s.server.ring.middle;
      ChunksLeft(Chunks(cfg), l.toClient, s.client.next, s.server.ring.middle);
    }
  }

  lemma ChunksLeft(ch: seq<seq<byte>>, line: seq<Packet>, next: nat, sent: nat)
    requires ChunksInLine(ch, line, next, sent) && next < sent
    ensures line != []
  {
  }

  lemma ProcessSaysNothing(s: Sys)
    requires Enabled(s, ServerProcess) && s.inbox.Got? && s.inbox.packet.flag == RR
    ensures var t := Apply(s, ServerProcess);
            && t.toClient == s.toClient && t.toServer == s.toServer && t.inbox == Silence && t.server.eof == s.server.eof
            && (t.server.phase == S.SendData || ByeBegun(t.server))
            && (s.server.eof == Some(s.inbox.packet.seqNum) ==> ByeBegun(t.server))
  {
    assert multiset(S.OnProcess(s.server, s.inbox).1) == multiset{};
  }

  lemma {:induction false} OwedRun(cfg: Config, s: Sys, l: Lines, steps: seq<Step>) returns (k: Lines)
    requires ConfigOk(cfg) && Ordered(cfg, s, l) && KeepsOrder(s, l, steps) && |Chunks(cfg)| < cfg.size
    requires Owed(s) || ByeBegun(s.server)
    ensures IsRun(s, steps) && Ordered(cfg, After(s, steps), k)
    ensures Owed(After(s, steps)) || ByeBegun(After(s, steps).server)
    decreases |steps|
  {
    OrderedIsFaultless(s, l, steps);
    hide Apply, Enabled, NoFault, Ordered, Owed, ByeBegun;
    if steps == [] {
      k := l;
    } else {
      OrderedStep(cfg, s, l, steps[0]);
      if ByeBegun(s.server) { ByeStays(s, steps[0]); } else { OwedStep(cfg, s, l, steps[0]); }
      k := OwedRun(cfg, Apply(s, steps[0]), Next(s, l, steps[0]), steps[1..]);
    }
  }

  lemma OwedCompletes(cfg: Config, s: Sys, l: Lines)
    requires ConfigOk(cfg) && Ordered(cfg, s, l) && |Chunks(cfg)| < cfg.size && !ByeBegun(s.server) && Owed(s)
    ensures Completable(s)
  {
    hide Calm, Inv, Chunks, ChunksInLine, S.SenderOk;
    CalmFacts(cfg, s);
    Facts(cfg, s);
    SomethingHelps(cfg, s, l);
    assert s.inbox.Got? ==> s.inbox.packet.flag == RR;
  }

  /** What is under way, the inbox apart, reaches the client, or is led by an acknowledgement of all that was sent. */
  lemma SomethingHelps(cfg: Config, s: Sys, l: Lines)
    requires ConfigOk(cfg) && Sequenced(cfg, s, l) && s.client.next <= s.server.ring.middle
    ensures s.toClient == multiset{} ==> s.client.next == s.server.ring.middle
    ensures s.toClient != multiset{} || s.toServer != multiset{} ==> HelpInFlight(s)
    ensures s.toClient == s.toServer == multiset{} && s.inbox.Got? ==> s.inbox.packet == Rr(s.server.ring.middle)
  {
    assert |l.toClient| == |multiset(l.toClient)| && |l.toServer| == |multiset(l.toServer)|;
    if l.toServer != [] {
      var p := l.toServer[|l.toServer| - 1];
      assert p in multiset(l.toServer);
    }
  }

  // ---- A run in order that strands the server ----

  /** At most one datagram is under way in each direction throughout, so that none can overtake another. */
  ghost predicate Thin(s: Sys, steps: seq<Step>)
    decreases |steps|
  {
    && |s.toClient| <= 1 && |s.toServer| <= 1
    && (steps == [] || (Enabled(s, steps[0]) && Thin(Apply(s, steps[0]), steps[1..])))
  }

  ghost predicate GoesThin(s: Sys, steps: seq<Step>, t: Sys) { Goes(s, steps, t) && Thin(s, steps) }

  lemma OneThin(s: Sys, st: Step, t: Sys)
    requires Goes(s, [st], t)
    requires |s.toClient| <= 1 && |s.toServer| <= 1 && |t.toClient| <= 1 && |t.toServer| <= 1
    ensures GoesThin(s, [st], t)
  {
    assert [st][1..] == [];
    assert IsRun(s, [st]) && After(s, [st]) == Apply(s, st);
    hide Apply, Enabled;
    assert Thin(t, []);
  }

  lemma {:induction false} ThinAdds(s: Sys, a: seq<Step>, t: Sys, b: seq<Step>)
    requires Moves(s, a, t) && Thin(s, a) && Thin(t, b)
    ensures Thin(s, a + b)
    decreases |a|
  {
    hide Apply, Enabled;
    if a == [] {
      assert a + b == b;
    } else {
      ThinAdds(Apply(s, a[0]), a[1..], t, b);
      assert (a + b)[1..] == a[1..] + b;
    }
  }

  lemma ThinOn(s: Sys, a: seq<Step>, t: Sys, b: seq<Step>, u: Sys)
    requires GoesThin(s, a, t) && GoesThin(t, b, u)
    ensures GoesThin(s, a + b, u)
  {
    hide IsRun, After, Thin;
    GoesOn(s, a, t, b, u);
    ThinAdds(s, a, t, b);
  }

  lemma LoneIsHead(line: seq<Packet>, p: Packet)
    requires |line| <= 1 && p in multiset(line)
    ensures line == [p]
  {
  }

  lemma ThinTakesHead(s: Sys, l: Lines, st: Step)
    requires Lined(s, l) && Enabled(s, st) && |s.toClient| <= 1 && |s.toServer| <= 1
    ensures TakesHead(l, st)
  {
    hide S.SenderOk;
    assert |l.toClient| == |multiset(l.toClient)| && |l.toServer| == |multiset(l.toServer)|;
    match st
    case ClientTurn(pick) => if pick != NoPick { LoneIsHead(l.toClient, pick.p); }
    case ServerPoll(pick) => if pick != NoPick { LoneIsHead(l.toServer, pick.p); }
    case ServerWait(pick) => if pick != NoPick { LoneIsHead(l.toServer, pick.p); }
    case ServerByeWait(pick) => if pick != NoPick { LoneIsHead(l.toServer, pick.p); }
    case _ =>
  }

  lemma {:induction false} ThinKeepsOrder(s: Sys, l: Lines, steps: seq<Step>)
    requires Lined(s, l) && Thin(s, steps) && NoFaults(steps)
    ensures KeepsOrder(s, l, steps)
    decreases |steps|
  {
    hide Apply, Enabled, NoFault, Lined;
    if steps != [] {
      assert NoFault(steps[0]);
      ThinTakesHead(s, l, steps[0]);
      NextLined(s, l, steps[0]);
      assert forall i :: 0 <= i < |steps[1..]| ==> steps[1..][i] == steps[i + 1];
      ThinKeepsOrder(Apply(s, steps[0]), Next(s, l, steps[0]), steps[1..]);
    }
  }

  lemma ThinAck(cfg: Config, s: Sys, k: nat) returns (t: Sys, steps: seq<Step>)
    requires ConfigOk(cfg) && Inv(cfg, s) && s.server.phase == S.Polling && s.server.eof == None
    requires s.toClient == multiset{} && s.toServer == multiset{Rr(k)}
    requires k == s.client.next == s.server.ring.middle == s.server.ring.bottom + 1
    ensures Inv(cfg, t) && t.client == s.client && t.toClient == t.toServer == multiset{} && t.inbox == Silence
    ensures t.server.phase == S.SendData && t.server.file == s.server.file && t.server.eof == None
    ensures t.server.ring.bottom == t.server.ring.middle == k
    ensures GoesThin(s, steps, t)
  {
    var u := PollPick(cfg, s, Rr(k));
    t := Apply(u, ServerProcess);
    StepKeepsInv(cfg, u, ServerProcess);
    OneStep(u, ServerProcess);
    hide Goes;
    assert u.toServer == multiset{} && t.toServer == multiset{};
    OneThin(s, ServerPoll(Intact(Rr(k))), u);
    OneThin(u, ServerProcess, t);
    hide GoesThin;
    ThinOn(s, [ServerPoll(Intact(Rr(k)))], u, [ServerProcess], t);
    steps := [ServerPoll(Intact(Rr(k)))] + [ServerProcess];
  }

  lemma ThinChunk(cfg: Config, s: Sys) returns (t: Sys, steps: seq<Step>)
    requires ConfigOk(cfg) && Inv(cfg, s) && Lockstep(s) && s.toServer == multiset{} && s.server.file != []
    ensures Inv(cfg, t) && Lockstep(t) && t.toServer == multiset{} && |t.server.file| < |s.server.file|
    ensures GoesThin(s, steps, t)
  {
    var a, p := LockstepSend(cfg, s);
    var b := LockstepReceive(cfg, a, p);
    hide Goes;
    OneThin(s, ServerSend(true), a);
    OneThin(a, ClientTurn(Intact(p)), b);
    var ack;
    t, ack := ThinAck(cfg, b, b.client.next);
    hide GoesThin;
    ThinOn(s, [ServerSend(true)], a, [ClientTurn(Intact(p))], b);
    steps := [ServerSend(true)] + [ClientTurn(Intact(p))];
    ThinOn(s, steps, b, ack, t);
    steps := steps + ack;
  }

  lemma {:induction false} ThinToEnd(cfg: Config, s: Sys) returns (t: Sys, steps: seq<Step>)
    requires ConfigOk(cfg) && Inv(cfg, s) && Lockstep(s) && s.toServer == multiset{} && |Chunks(cfg)| < cfg.size
    ensures Inv(cfg, t) && Stranded(t) && GoesThin(s, steps, t)
    decreases |s.server.file|
  {
    if s.server.file == [] {
      Facts(cfg, s);
      t := ReadEndAgain(cfg, s);
      assert t.toServer == t.toClient == multiset{};
      OneThin(s, ServerSend(true), t);
      steps := [ServerSend(true)];
      Facts(cfg, t);
    } else {
      var a, chunk := ThinChunk(cfg, s);
      hide Inv, Lockstep, Stranded, GoesThin;
      var rest;
      t, rest := ThinToEnd(cfg, a);
      ThinOn(s, chunk, a, rest, t);
      steps := chunk + rest;
    }
  }

  // ---- The exact condition ----

  /** A faultless run in order after which the transfer can never complete. */
  ghost predicate LostInOrder(s: Sys, l: Lines, steps: seq<Step>) {
    Lined(s, l) && KeepsOrder(s, l, steps) && IsRun(s, steps) && !CanComplete(After(s, steps))
  }

  /**
   * When nothing is overtaken either, a transfer can still be lost exactly for the files with fewer chunks than the
   * window, and then only if no answer to a repeated handshake is in flight at the start.
   */
  lemma FailsInOrderIff(cfg: Config, s: Sys)
    requires ConfigOk(cfg) && Init(cfg, s)
    ensures (exists l, steps :: LostInOrder(s, l, steps)) <==> |Chunks(cfg)| < cfg.size && s.toClient == multiset{}
  {
    hide LostInOrder, Init;
    if |Chunks(cfg)| < cfg.size && s.toClient == multiset{} {
      var l, steps := StrandsInOrder(cfg, s);
    }
    forall l, steps | LostInOrder(s, l, steps) ensures |Chunks(cfg)| < cfg.size && s.toClient == multiset{} {
      LostInOrderNeeds(cfg, s, l, steps);
    }
  }

  lemma StrandsInOrder(cfg: Config, s: Sys) returns (l: Lines, steps: seq<Step>)
    requires ConfigOk(cfg) && Init(cfg, s) && |Chunks(cfg)| < cfg.size && s.toClient == multiset{}
    ensures LostInOrder(s, l, steps)
  {
    InitFacts(cfg, s);
    hide Inv, CanComplete;
    var t;
    t, steps := ThinToEnd(cfg, s);
    l := Lines([], []);
    ThinKeepsOrder(s, l, steps);
    StrandedIsLost(cfg, s, steps);
  }

  lemma LostInOrderNeeds(cfg: Config, s: Sys, l: Lines, steps: seq<Step>)
    requires ConfigOk(cfg) && Init(cfg, s) && LostInOrder(s, l, steps)
    ensures |Chunks(cfg)| < cfg.size && s.toClient == multiset{}
  {
    InitOrdered(cfg, s, l);
    var t := After(s, steps);
    hide Init, IsRun, After, CanComplete, Completable, KeepsOrder;
    if |Chunks(cfg)| >= cfg.size {
      var k := OrderedRun(cfg, s, l, steps);
      if !ByeBegun(t.server) { SequencedHasNoRejects(cfg, t, k); }
      CalmCompletes(cfg, t);
      CompletesIff(cfg, t);
    } else if s.toClient != multiset{} {
      StrayIsOwed(cfg, s);
      var k := OwedRun(cfg, s, l, steps);
      if ByeBegun(t.server) { CalmFacts(cfg, t); } else { OwedCompletes(cfg, t, k); }
      CompletesIff(cfg, t);
    }
  }

  lemma StrayIsOwed(cfg: Config, s: Sys)
    requires ConfigOk(cfg) && Init(cfg, s) && s.toClient != multiset{}
    ensures Owed(s)
  {
    InitFacts(cfg, s);
  }
}
