/** Runs in which nothing is lost, duplicated, damaged or late, though datagrams may overtake each other. */
module Faultless {
  import opened Packets
  import opened Windows
  import opened Protocol
  import opened Progress
  import opened Outcome
  import S = Server
  import R = Rcopy

  predicate NoFault(st: Step) {
    match st
    case ServerSend(readOk) => readOk
    case ServerPoll(pick) => !pick.Corrupt?
    case ServerWait(pick) => pick.Intact?
    case ServerByeWait(pick) => pick.Intact?
    case ClientTurn(pick) => pick.Intact?
    case DropToClient(_) | DropToServer(_) | DupToClient(_) | DupToServer(_) => false
    case ServerProcess | ServerBye => true
  }

  ghost predicate NoFaults(steps: seq<Step>) {
    forall i :: 0 <= i < |steps| ==> NoFault(steps[i])
  }

  /** A faultless run from s to t. */
  ghost predicate Goes(s: Sys, steps: seq<Step>, t: Sys) {
    Moves(s, steps, t) && NoFaults(steps)
  }

  lemma OneStep(s: Sys, st: Step)
    requires Enabled(s, st) && NoFault(st)
    ensures Goes(s, [st], Apply(s, st))
  {
    OneMove(s, st);
  }

  lemma GoesOn(s: Sys, a: seq<Step>, t: Sys, b: seq<Step>, u: Sys)
    requires Goes(s, a, t) && Goes(t, b, u)
    ensures Goes(s, a + b, u)
  {
    hide IsRun, After, Apply, Enabled;
    MovesCompose(s, a, t, b, u);
  }

  // ---- What a faultless run keeps ----

  predicate ByePending(s: S.Sender) { s.phase == S.Bye || s.phase == S.ByeWait }

  /** The server waits only behind a full window or after the end of the file, and with its counter reset. */
  ghost predicate ServerCalm(s: S.Sender) {
    && (s.phase == S.WaitOnAck ==> s.waits == 0 && (s.ring.middle > s.ring.top || s.eof.Some?))
    && (s.phase == S.Bye ==> s.byes == 0) && (s.phase == S.ByeWait ==> s.byes == 1)
    && s.phase != S.Done(S.ReadError) && s.phase != S.Done(S.NoAck) && s.phase != S.Done(S.NoByeAck)
  }

  ghost predicate ClientCalm(c: R.Receiver) {
    && (R.Live(c) || c.phase == R.Done(R.EndOfFile))
    && (c.phase == R.Missing ==> c.early != map[])
  }

  ghost predicate Calm(cfg: Config, s: Sys)
    requires ConfigOk(cfg)
  {
    && Inv(cfg, s) && ServerCalm(s.server) && ClientCalm(s.client) && s.inbox != CrcError
    && (s.client.phase == R.Done(R.EndOfFile) && ByePending(s.server) ==> Rr(|Chunks(cfg)| + 2) in s.toServer)
  }

  lemma ClientStaysCalm(c: R.Receiver, p: Packet)
    requires R.ReceiverOk(c) && R.Live(c) && ClientCalm(c)
    requires p.flag == END_OF_FILE ==> p.seqNum == c.next
    requires p.seqNum < c.next + c.size
    ensures ClientCalm(R.OnArrival(c, Got(p)).0)
    ensures R.OnArrival(c, Got(p)).0.phase == R.Done(R.EndOfFile) ==> Rr(p.seqNum + 1) in R.OnArrival(c, Got(p)).1
    ensures R.OnArrival(c, Got(p)).0.phase == R.Done(R.EndOfFile) ==> p.flag == END_OF_FILE
  {
    if c.phase == R.RecvData && c.next < p.seqNum < c.next + c.size {
      assert p.seqNum in c.early[p.seqNum := p];
    }
  }

  lemma ClientTurnStaysCalm(cfg: Config, s: Sys, p: Packet)
    requires ConfigOk(cfg) && Calm(cfg, s) && Enabled(s, ClientTurn(Intact(p)))
    ensures Calm(cfg, Apply(s, ClientTurn(Intact(p))))
  {
    hide Inv, R.OnArrival, ClientCalm, ServerCalm, R.ReceiverOk, S.SenderOk, Chunks;
    var st, c := ClientTurn(Intact(p)), s.client;
    StepKeepsInv(cfg, s, st);
    ArrivesCalm(cfg, s, p);
    ClientStaysCalm(c, p);
    var out := R.OnArrival(c, Got(p)).1;
    assert forall q :: q in out ==> q in multiset(out);
  }

  lemma ArrivesCalm(cfg: Config, s: Sys, p: Packet)
    requires ConfigOk(cfg) && Inv(cfg, s) && Enabled(s, ClientTurn(Intact(p)))
    ensures R.ReceiverOk(s.client) && p.seqNum < s.client.next + s.client.size
    ensures p.flag == END_OF_FILE ==> p == Eof(|Chunks(cfg)| + 1) && s.client.next == |Chunks(cfg)| + 1
  {
    WhatArrives(cfg, s, Intact(p));
    if ByeBegun(s.server) { ByeMeansAllReceived(cfg, s); }
  }

  lemma ServerStaysCalm(cfg: Config, s: Sys, st: Step)
    requires ConfigOk(cfg) && Calm(cfg, s) && Enabled(s, st) && NoFault(st) && !st.ClientTurn?
    ensures Calm(cfg, Apply(s, st))
  {
    StepKeepsInv(cfg, s, st);
    if st.ServerByeWait? { assert ToServerOk(cfg, s, st.pick.p); }
    ServerStepCalm(cfg, s, st);
  }

  lemma SenderStaysCalm(s: S.Sender, ready: bool, ev: Arrival)
    requires S.SenderOk(s) && ServerCalm(s)
    requires s.phase == S.SendData || s.phase == S.Polling || s.phase == S.Process ==> s.waits == 0 && s.byes == 0
    ensures s.phase == S.SendData ==> ServerCalm(S.OnSend(s, true).0)
    ensures s.phase == S.Polling ==> ServerCalm(S.OnPoll(s, ready))
    ensures s.phase == S.Process && ev != CrcError ==> ServerCalm(S.OnProcess(s, ev).0)
    ensures s.phase == S.WaitOnAck ==> ServerCalm(S.OnWait(s, true).0)
    ensures s.phase == S.Bye ==> ServerCalm(S.OnBye(s).0)
    ensures s.phase == S.ByeWait && ev.Got? ==> ServerCalm(S.OnByeWait(s, ev))
  {
    hide Index;
  }

  lemma ServerStepCalm(cfg: Config, s: Sys, st: Step)
    requires ConfigOk(cfg) && Calm(cfg, s) && Enabled(s, st) && NoFault(st) && !st.ClientTurn?
    ensures ServerCalm(Apply(s, st).server)
  {
    SenderStaysCalm(s.server, st.ServerPoll? && st.pick != NoPick,
                    if st.ServerByeWait? then ArrivalOf(st.pick) else s.inbox);
    hide LinkInv, ClientInv, RingInv, ServerCalm, S.SenderOk;
    hide S.OnSend, S.OnPoll, S.OnProcess, S.OnWait, S.OnBye, S.OnByeWait;
  }

  // ---- When no reject is ever sent ----

  /** Nobody has asked for a number, and the server has not aborted. */
  ghost predicate NoRejects(s: Sys) {
    && (forall p :: p in s.toServer ==> p.flag != SREJ)
    && (s.inbox.Got? ==> s.inbox.packet.flag != SREJ)
    && s.server.phase != S.Aborted
  }

  /** Where rejects cannot arise: a window of at most two, whose gap once filled is full, or no second chunk to overtake. */
  ghost predicate Rejectless(cfg: Config)
    requires ConfigOk(cfg)
  {
    cfg.size <= 2 || |Chunks(cfg)| <= 1
  }

  lemma NoRejectFrom(c: R.Receiver, p: Packet)
    requires R.ReceiverOk(c) && R.Live(c) && ClientCalm(c)
    requires c.size <= 2 || c.phase == R.RecvData
    ensures forall q :: q in R.OnArrival(c, Got(p)).1 ==> q.flag != SREJ
  {
    if c.phase == R.Missing && p.flag != END_OF_FILE && c.next <= p.seqNum < c.next + c.size {
      var n :| n in c.early;
      var held := c.early[p.seqNum := p];
      assert c.size == 2 && n == c.next + 1 && n in held;
    }
  }

  /** A lone chunk has no other to wait for, so the client is never in MISSING. */
  lemma LoneChunkNeverMissing(cfg: Config, s: Sys)
    requires ConfigOk(cfg) && Calm(cfg, s) && (cfg.file == [] || |Chunks(cfg)| <= 1)
    ensures s.client.phase != R.Missing
  {
    assert forall n :: n !in s.client.early;
  }

  lemma NoRejectsStep(cfg: Config, s: Sys, st: Step)
    requires ConfigOk(cfg) && Calm(cfg, s) && Rejectless(cfg) && NoRejects(s) && Enabled(s, st) && NoFault(st)
    ensures NoRejects(Apply(s, st))
  {
    if st.ClientTurn? {
      if |Chunks(cfg)| <= 1 { LoneChunkNeverMissing(cfg, s); }
      NoRejectFrom(s.client, st.pick.p);
    }
    assert s.inbox != CrcError;
    NoRejectsApplied(s, st);
  }

  lemma NoRejectsApplied(s: Sys, st: Step)
    requires NoRejects(s) && Enabled(s, st) && NoFault(st) && s.inbox != CrcError
    requires st.ClientTurn? ==> forall q :: q in R.OnArrival(s.client, Got(st.pick.p)).1 ==> q.flag != SREJ
    ensures NoRejects(Apply(s, st))
  {
    var t := Apply(s, st);
    if st.ClientTurn? {
      hide R.OnArrival;
      forall p | p in t.toServer ensures p.flag != SREJ {
        assert p in s.toServer || p in R.OnArrival(s.client, Got(st.pick.p)).1;
      }
    } else {
      PoolShrinks(s, st);
      ServerNotAborted(s, st);
      hide Apply, Enabled, NoFault;
      assert forall p :: p in t.toServer ==> p.flag != SREJ;
    }
  }

  lemma PoolShrinks(s: Sys, st: Step)
    requires Enabled(s, st) && NoFault(st) && !st.ClientTurn?
    ensures forall p :: p in Apply(s, st).toServer ==> p in s.toServer
    ensures Apply(s, st).inbox.Got? ==> Apply(s, st).inbox == s.inbox || Apply(s, st).inbox.packet in s.toServer
  {
    hide S.SenderOk, S.OnProcess, S.OnSend, S.OnWait, S.OnBye, S.OnByeWait, S.OnPoll;
  }

  /** Only a reject read in PROCESS or a nudge aborts. */
  lemma SenderNotAborted(s: S.Sender, readOk: bool, ready: bool, ev: Arrival)
    requires S.SenderOk(s) && s.phase != S.Aborted
    ensures S.OnSend(s, readOk).0.phase != S.Aborted && S.OnPoll(s, ready).phase != S.Aborted
    ensures S.OnWait(s, true).0.phase != S.Aborted
    ensures ev != CrcError && (ev.Got? ==> ev.packet.flag != SREJ) ==> S.OnProcess(s, ev).0.phase != S.Aborted
    ensures s.eof.Some? ==> S.OnBye(s).0.phase != S.Aborted && S.OnByeWait(s, ev).phase != S.Aborted
  {
    hide Index;
  }

  lemma ServerNotAborted(s: Sys, st: Step)
    requires Enabled(s, st) && NoFault(st) && !st.ClientTurn? && s.inbox != CrcError
    requires s.server.phase != S.Aborted && (s.inbox.Got? ==> s.inbox.packet.flag != SREJ)
    ensures Apply(s, st).server.phase != S.Aborted
  {
    SenderNotAborted(s.server, true, true, s.inbox);
    match st
    case ServerPoll(pick) => SenderNotAborted(s.server, true, pick != NoPick, s.inbox);
    case ServerByeWait(pick) => SenderNotAborted(s.server, true, true, ArrivalOf(pick));
    case _ =>
    hide S.OnSend, S.OnPoll, S.OnWait, S.OnProcess, S.OnBye, S.OnByeWait, S.SenderOk;
  }

  lemma {:induction false} CalmRun(cfg: Config, s: Sys, steps: seq<Step>)
    requires ConfigOk(cfg) && Calm(cfg, s) && IsRun(s, steps) && NoFaults(steps)
    requires Rejectless(cfg) ==> NoRejects(s)
    ensures Calm(cfg, After(s, steps)) && (Rejectless(cfg) ==> NoRejects(After(s, steps)))
    decreases |steps|
  {
    hide Calm, Apply, Enabled, NoRejects, Rejectless, NoFault;
    if steps != [] {
      assert NoFault(steps[0]);
      CalmStep(cfg, s, steps[0]);
      if Rejectless(cfg) { NoRejectsStep(cfg, s, steps[0]); }
      assert forall i :: 0 <= i < |steps[1..]| ==> steps[1..][i] == steps[i + 1];
      CalmRun(cfg, Apply(s, steps[0]), steps[1..]);
    }
  }

  lemma CalmStep(cfg: Config, s: Sys, st: Step)
    requires ConfigOk(cfg) && Calm(cfg, s) && Enabled(s, st) && NoFault(st)
    ensures Calm(cfg, Apply(s, st))
  {
    if st.ClientTurn? { ClientTurnStaysCalm(cfg, s, st.pick.p); } else { ServerStaysCalm(cfg, s, st); }
  }

  lemma InitCalm(cfg: Config, s: Sys)
    requires ConfigOk(cfg) && Init(cfg, s)
    ensures Calm(cfg, s) && NoRejects(s)
  {
    InitInv(cfg, s);
  }

  lemma InitFacts(cfg: Config, s: Sys)
    requires ConfigOk(cfg) && Init(cfg, s)
    ensures Inv(cfg, s) && s.server.phase == S.SendData && s.client.phase == R.RecvData && s.client.size == cfg.size
    ensures s.server.ring.bottom == s.server.ring.middle == s.client.next == 1 && s.server.ring.top == cfg.size
    ensures s.server.eof == None && s.server.file == cfg.file && s.inbox == Silence && s.toServer == multiset{}
    ensures forall p :: p in s.toClient ==> p == FNAME_OK_ANSWER
  {
    InitInv(cfg, s);
  }

  // ---- Every calm state without rejects can complete ----

  /** A calm server is not waiting in vain, and once in BYE it is answered. */
  lemma CalmFacts(cfg: Config, s: Sys)
    requires ConfigOk(cfg) && Calm(cfg, s)
    ensures Inv(cfg, s) && s.inbox != CrcError
    ensures ByeBegun(s.server) ==> Completable(s)
    ensures !ByeBegun(s.server) ==> R.Live(s.client) && !s.server.phase.Done?
    ensures s.server.phase == S.WaitOnAck ==>
              s.server.waits == 0 && (s.server.eof.Some? || s.server.ring.bottom < s.server.ring.middle)
  {
    Facts(cfg, s);
    if ByeBegun(s.server) { ByeMeansAllReceived(cfg, s); }
    hide Inv;
    if s.server.phase.Done? {
      var end := s.server.phase.end;
      assert end.ReadError? || end.NoAck? || end.NoByeAck? || end.Acked?;
    }
  }

  /** When the file is at least as long as the window, something is outstanding, unread, or in the slot to nudge from. */
  lemma CalmCompletes(cfg: Config, s: Sys)
    requires ConfigOk(cfg) && Calm(cfg, s) && (NoRejects(s) || ByeBegun(s.server)) && |Chunks(cfg)| >= cfg.size
    ensures Completable(s)
  {
    Facts(cfg, s);
    CalmFacts(cfg, s);
    if s.server.ring.middle <= |Chunks(cfg)| { UnreadLeft(cfg, s); }
    assert s.server.eof.Some? ==> s.server.ring.middle == |Chunks(cfg)| + 1;
    hide Inv;
  }

  lemma UnreadLeft(cfg: Config, s: Sys)
    requires ConfigOk(cfg) && Inv(cfg, s) && s.server.ring.middle <= |Chunks(cfg)|
    ensures s.server.file != []
  {
    assert Chunks(cfg)[s.server.ring.middle - 1..] != [];
  }

  // ---- The empty file ----

  /** A stray answer to the handshake has not been lost: it is in flight, answered, or has started BYE. */
  ghost predicate StrayCounts(s: Sys) {
    || ByeBegun(s.server) || FNAME_OK_ANSWER in s.toClient || Rr(1) in s.toServer || s.inbox == Got(Rr(1))
  }

  /** A transfer of the empty file, while a stray answer still counts. */
  ghost predicate EmptyWithStray(cfg: Config, s: Sys)
    requires ConfigOk(cfg)
  {
    && cfg.file == [] && Calm(cfg, s) && NoRejects(s) && StrayCounts(s)
    && s.server.phase != S.Polling
    && (s.server.phase == S.WaitOnAck || s.server.phase == S.Process ==> s.server.eof == Some(1))
  }

  lemma EmptyFacts(cfg: Config, s: Sys)
    requires ConfigOk(cfg) && EmptyWithStray(cfg, s)
    ensures s.client.phase != R.Missing && s.client.next == s.server.ring.middle == s.server.ring.bottom == 1
    ensures s.server.file == [] && s.server.ring.top >= 1
    ensures !ByeBegun(s.server) ==> R.Live(s.client) && forall p :: p in s.toServer ==> p == Rr(1)
    ensures s.server.phase == S.Process ==> s.inbox == Got(Rr(1))
    ensures forall p :: p in s.toClient ==> p == FNAME_OK_ANSWER || ByeBegun(s.server)
    ensures s.inbox != CrcError && (s.inbox != Silence <==> s.server.phase == S.Process)
  {
    hide Calm, Inv, NoRejects, StrayCounts, Index, Ahead, S.SenderOk, Chunks;
    CalmIsInv(cfg, s);
    LoneChunkNeverMissing(cfg, s);
    Facts(cfg, s);
    EmptyRing(cfg, s);
    if !ByeBegun(s.server) { EmptyTraffic(cfg, s); }
  }

  lemma CalmIsInv(cfg: Config, s: Sys)
    requires ConfigOk(cfg) && Calm(cfg, s)
    ensures Inv(cfg, s) && s.inbox != CrcError
    ensures s.client.phase.Done? ==> ByeBegun(s.server)
  {
  }

  lemma EmptyRing(cfg: Config, s: Sys)
    requires ConfigOk(cfg) && Inv(cfg, s) && cfg.file == []
    ensures |Chunks(cfg)| == 0 && s.server.ring.middle == 1 && s.server.file == []
  {
  }

  lemma EmptyTraffic(cfg: Config, s: Sys)
    requires ConfigOk(cfg) && Calm(cfg, s) && cfg.file == [] && NoRejects(s) && !ByeBegun(s.server)
    ensures forall p :: p in s.toServer ==> p == Rr(1)
    ensures s.server.phase == S.Process ==> s.inbox == Got(Rr(1))
    ensures forall p :: p in s.toClient ==> p == FNAME_OK_ANSWER
  {
    hide Calm, Inv, Index, Ahead, S.SenderOk;
    CalmIsInv(cfg, s);
    Facts(cfg, s);
    EmptyRing(cfg, s);
    forall p | p in s.toClient ensures p == FNAME_OK_ANSWER { EmptyToClient(cfg, s, p); }
  }

  lemma EmptyToClient(cfg: Config, s: Sys, p: Packet)
    requires ConfigOk(cfg) && Inv(cfg, s) && !ByeBegun(s.server) && p in s.toClient && s.server.ring.middle == 1
    ensures p == FNAME_OK_ANSWER
  {
    assert ToClientOk(cfg, s, p);
  }

  lemma StrayAnswered(c: R.Receiver)
    requires R.ReceiverOk(c) && c.phase == R.RecvData && c.next == 1
    ensures R.OnArrival(c, Got(FNAME_OK_ANSWER)) == (c, [Rr(1)])
  {
  }

  lemma EmptyStep(cfg: Config, s: Sys, st: Step)
    requires ConfigOk(cfg) && EmptyWithStray(cfg, s) && Enabled(s, st) && NoFault(st)
    ensures EmptyWithStray(cfg, Apply(s, st))
  {
    CalmStep(cfg, s, st);
    NoRejectsStep(cfg, s, st);
    EmptyFacts(cfg, s);
    StrayStillCounts(cfg, s, st);
  }

  lemma StrayStillCounts(cfg: Config, s: Sys, st: Step)
    requires ConfigOk(cfg) && EmptyWithStray(cfg, s) && Enabled(s, st) && NoFault(st)
    ensures var t := Apply(s, st);
            && StrayCounts(t) && t.server.phase != S.Polling
            && (t.server.phase == S.WaitOnAck || t.server.phase == S.Process ==> t.server.eof == Some(1))
  {
    hide Calm, NoRejects, EmptyWithStray, R.OnArrival, S.SenderOk, StrayCounts;
    EmptyFacts(cfg, s);
    if st.ClientTurn? { StrayTurn(cfg, s, st.pick.p); } else { StrayAtServer(cfg, s, st); }
  }

  lemma StrayTurn(cfg: Config, s: Sys, p: Packet)
    requires ConfigOk(cfg) && EmptyWithStray(cfg, s) && Enabled(s, ClientTurn(Intact(p)))
    ensures var t := Apply(s, ClientTurn(Intact(p)));
            && t.server == s.server && StrayCounts(t) && t.server.phase != S.Polling
            && (t.server.phase == S.WaitOnAck || t.server.phase == S.Process ==> t.server.eof == Some(1))
  {
    hide Calm, NoRejects, Index, S.SenderOk;
    EmptyFacts(cfg, s);
    EmptyClient(cfg, s);
    if !ByeBegun(s.server) {
      StrayAnswered(s.client);
      assert Rr(1) in multiset([Rr(1)]);
    }
    hide R.OnArrival;
  }

  lemma EmptyClient(cfg: Config, s: Sys)
    requires ConfigOk(cfg) && Calm(cfg, s)
    ensures R.ReceiverOk(s.client)
  {
  }

  lemma StrayAtServer(cfg: Config, s: Sys, st: Step)
    requires ConfigOk(cfg) && EmptyWithStray(cfg, s) && Enabled(s, st) && NoFault(st) && !st.ClientTurn?
    ensures var t := Apply(s, st);
            && StrayCounts(t) && t.server.phase != S.Polling
            && (t.server.phase == S.WaitOnAck || t.server.phase == S.Process ==> t.server.eof == Some(1))
  {
    hide Calm, NoRejects, Index, R.OnArrival, S.SenderOk;
    EmptyFacts(cfg, s);
    if ByeBegun(s.server) {
      ByeStays(s, st);
    } else {
      EmptySender(s.server);
      StrayStep(s, st);
    }
  }

  lemma ByeStays(s: Sys, st: Step)
    requires Enabled(s, st) && ByeBegun(s.server)
    ensures ByeBegun(Apply(s, st).server)
  {
    hide R.OnArrival;
  }

  /** The server of an empty file: it reads the end of the file, waits, and enters BYE on RR 1. */
  lemma EmptySender(s: S.Sender)
    requires S.SenderOk(s) && s.file == [] && s.ring.middle == s.ring.bottom == 1 <= s.ring.top
    ensures S.OnSend(s, true).0 == s.(phase := S.WaitOnAck, eof := Some(1))
    ensures s.eof == Some(1) ==> S.OnProcess(s, Got(Rr(1))).0.phase == S.Bye
    ensures S.OnWait(s, true).0.phase == S.Process || S.OnWait(s, true).0.phase == S.Done(S.NoAck)
    ensures S.OnWait(s, true).0.eof == s.eof
  {
  }

  lemma StrayStep(s: Sys, st: Step)
    requires Enabled(s, st) && NoFault(st) && !st.ClientTurn? && !ByeBegun(s.server) && StrayCounts(s)
    requires s.server.phase != S.Polling && s.inbox != CrcError
    requires forall p :: p in s.toServer ==> p == Rr(1)
    requires s.server.phase == S.WaitOnAck || s.server.phase == S.Process ==> s.server.eof == Some(1)
    requires s.server.phase == S.Process ==> s.inbox == Got(Rr(1))
    requires s.inbox != Silence ==> s.server.phase == S.Process
    requires S.OnSend(s.server, true).0 == s.server.(phase := S.WaitOnAck, eof := Some(1))
    requires s.server.eof == Some(1) ==> S.OnProcess(s.server, Got(Rr(1))).0.phase == S.Bye
    requires S.OnWait(s.server, true).0.phase == S.Process || S.OnWait(s.server, true).0.phase == S.Done(S.NoAck)
    requires S.OnWait(s.server, true).0.eof == s.server.eof
    ensures var t := Apply(s, st);
            && StrayCounts(t) && t.server.phase != S.Polling
            && (t.server.phase == S.WaitOnAck || t.server.phase == S.Process ==> t.server.eof == Some(1))
  {
    hide S.SenderOk, S.OnSend, S.OnProcess, S.OnWait;
  }

  lemma {:induction false} EmptyRun(cfg: Config, s: Sys, steps: seq<Step>)
    requires ConfigOk(cfg) && EmptyWithStray(cfg, s) && IsRun(s, steps) && NoFaults(steps)
    ensures EmptyWithStray(cfg, After(s, steps))
    decreases |steps|
  {
    hide EmptyWithStray, Apply, Enabled, NoFault;
    if steps != [] {
      assert NoFault(steps[0]);
      EmptyStep(cfg, s, steps[0]);
      assert forall i :: 0 <= i < |steps[1..]| ==> steps[1..][i] == steps[i + 1];
      EmptyRun(cfg, Apply(s, steps[0]), steps[1..]);
    }
  }

  /** The client answers a stray with RR 1. */
  lemma AnswerStray(cfg: Config, s: Sys) returns (t: Sys)
    requires ConfigOk(cfg) && Inv(cfg, s) && s.client.phase == R.RecvData && s.client.next == 1
    requires FNAME_OK_ANSWER in s.toClient
    ensures Inv(cfg, t)
    ensures t == s.(toClient := s.toClient - multiset{FNAME_OK_ANSWER}, toServer := s.toServer + multiset{Rr(1)})
    ensures Goes(s, [ClientTurn(Intact(FNAME_OK_ANSWER))], t)
  {
    var st := ClientTurn(Intact(FNAME_OK_ANSWER));
    t := Apply(s, st);
    StepKeepsInv(cfg, s, st);
    OneStep(s, st);
    StrayAnswered(s.client);
    assert multiset([Rr(1)]) == multiset{Rr(1)};
  }

  lemma EmptyCompletes(cfg: Config, s: Sys)
    requires ConfigOk(cfg) && EmptyWithStray(cfg, s)
    ensures Completable(s)
  {
    EmptyFacts(cfg, s);
    CalmFacts(cfg, s);
    hide Inv;
    if Rr(1) in s.toServer { assert Helps(s.server, Rr(1)); }
  }

  /** From every initial state: a transfer can complete exactly when there is a chunk to send or a stray to answer. */
  lemma CanCompleteFromInitIff(cfg: Config, s: Sys)
    requires ConfigOk(cfg) && Init(cfg, s)
    ensures CanComplete(s) <==> cfg.file != [] || s.toClient != multiset{}
  {
    hide Inv, CanComplete, Completable;
    InitFacts(cfg, s);
    CompletesIff(cfg, s);
    SendCompletable(s);
    StartHelp(s);
  }

  /** At the start the only thing that can help is a stray. */
  lemma StartHelp(s: Sys)
    requires s.toServer == multiset{}
    ensures HelpInFlight(s) <==> s.toClient != multiset{}
  {
  }

  // ---- Lockstep: every acknowledgement is read before the next chunk ----

  /** Only repeated acknowledgements of number 1 are in flight. */
  ghost predicate Leftovers(pool: multiset<Packet>) { forall p :: p in pool ==> p == Rr(1) }

  ghost predicate Lockstep(s: Sys) {
    && s.server.phase == S.SendData && s.client.phase == R.RecvData
    && s.server.ring.bottom == s.server.ring.middle == s.client.next
    && s.server.eof == None
    && s.toClient == multiset{} && Leftovers(s.toServer)
  }

  /** The client answers the strays before anything else. */
  lemma {:induction false} AnswerStrays(cfg: Config, s: Sys) returns (t: Sys, steps: seq<Step>)
    requires ConfigOk(cfg) && Inv(cfg, s) && s.client.phase == R.RecvData && s.client.next == 1
    requires (forall p :: p in s.toClient ==> p == FNAME_OK_ANSWER) && Leftovers(s.toServer)
    ensures Inv(cfg, t) && t == s.(toClient := multiset{}, toServer := t.toServer) && Leftovers(t.toServer)
    ensures s.toClient == multiset{} ==> t == s
    ensures Goes(s, steps, t)
    decreases |s.toClient|
  {
    if s.toClient == multiset{} {
      t, steps := s, [];
    } else {
      var p :| p in s.toClient;
      var a := AnswerStray(cfg, s);
      assert |a.toClient| == |s.toClient| - 1;
      var rest;
      t, rest := AnswerStrays(cfg, a);
      GoesOn(s, [ClientTurn(Intact(FNAME_OK_ANSWER))], a, rest, t);
      steps := [ClientTurn(Intact(FNAME_OK_ANSWER))] + rest;
    }
  }

  lemma LockstepSend(cfg: Config, s: Sys) returns (t: Sys, p: Packet)
    requires ConfigOk(cfg) && Inv(cfg, s) && Lockstep(s) && s.server.file != []
    ensures Inv(cfg, t) && t.server.phase == S.Polling && |t.server.file| < |s.server.file| && t.server.eof == None
    ensures t.server.ring.bottom == s.client.next && t.server.ring.middle == s.client.next + 1
    ensures t.client == s.client && t.toClient == multiset{p} && t.toServer == s.toServer && t.inbox == Silence
    ensures p.flag == DATA && p.seqNum == s.client.next
    ensures Goes(s, [ServerSend(true)], t)
  {
    ReadIsNextChunk(cfg, s.server);
    p := DataPacket(Chunks(cfg), s.server.ring.middle);
    t := Apply(s, ServerSend(true));
    StepKeepsInv(cfg, s, ServerSend(true));
    OneStep(s, ServerSend(true));
    assert t.toClient == multiset{p};
  }

  lemma ExpectedArrives(c: R.Receiver, p: Packet)
    requires c.size >= 1 && c.phase == R.RecvData && p.flag == DATA && p.seqNum == c.next
    ensures var (d, out) := R.OnArrival(c, Got(p));
            d.phase == R.RecvData && d.next == p.seqNum + 1 && out == [Rr(p.seqNum + 1)]
  {
  }

  lemma LockstepReceive(cfg: Config, s: Sys, p: Packet) returns (t: Sys)
    requires ConfigOk(cfg) && Inv(cfg, s) && s.client.phase == R.RecvData
    requires s.toClient == multiset{p} && p.flag == DATA && p.seqNum == s.client.next
    ensures Inv(cfg, t) && t.server == s.server && t.inbox == s.inbox && t.toClient == multiset{}
    ensures t.client.phase == R.RecvData && t.client.next == p.seqNum + 1
    ensures t.toServer == s.toServer + multiset{Rr(t.client.next)}
    ensures Goes(s, [ClientTurn(Intact(p))], t)
  {
    var st := ClientTurn(Intact(p));
    ExpectedArrives(s.client, p);
    t := Apply(s, st);
    StepKeepsInv(cfg, s, st);
    OneStep(s, st);
    assert multiset([Rr(p.seqNum + 1)]) == multiset{Rr(p.seqNum + 1)};
  }

  lemma LockstepAck(cfg: Config, s: Sys, k: nat, left: multiset<Packet>) returns (t: Sys)
    requires ConfigOk(cfg) && Inv(cfg, s) && s.server.phase == S.Polling && s.server.eof == None
    requires s.toServer == left + multiset{Rr(k)} && k == s.client.next == s.server.ring.middle == s.server.ring.bottom + 1
    ensures Inv(cfg, t) && t.client == s.client && t.toClient == s.toClient && t.toServer == left && t.inbox == Silence
    ensures t.server.phase == S.SendData && t.server.file == s.server.file && t.server.eof == None
    ensures t.server.ring.bottom == t.server.ring.middle == k
    ensures Goes(s, [ServerPoll(Intact(Rr(k))), ServerProcess], t)
  {
    var u := PollPick(cfg, s, Rr(k));
    t := Apply(u, ServerProcess);
    StepKeepsInv(cfg, u, ServerProcess);
    OneStep(u, ServerProcess);
    hide Goes;
    GoesOn(s, [ServerPoll(Intact(Rr(k)))], u, [ServerProcess], t);
    assert [ServerPoll(Intact(Rr(k)))] + [ServerProcess] == [ServerPoll(Intact(Rr(k))), ServerProcess];
  }

  /** One chunk is sent, received and acknowledged, and the acknowledgement is read before the next read(). */
  lemma LockstepChunk(cfg: Config, s: Sys) returns (t: Sys, steps: seq<Step>)
    requires ConfigOk(cfg) && Inv(cfg, s) && Lockstep(s) && s.server.file != []
    ensures Inv(cfg, t) && Lockstep(t) && |t.server.file| < |s.server.file| && t.client.next == s.client.next + 1
    ensures Goes(s, steps, t)
  {
    hide Moves;
    var a, p := LockstepSend(cfg, s);
    var b := LockstepReceive(cfg, a, p);
    t := LockstepAck(cfg, b, b.client.next, s.toServer);
    var ack := [ServerPoll(Intact(Rr(b.client.next))), ServerProcess];
    GoesOn(s, [ServerSend(true)], a, [ClientTurn(Intact(p))], b);
    steps := [ServerSend(true)] + [ClientTurn(Intact(p))];
    GoesOn(s, steps, b, ack, t);
    steps := steps + ack;
  }

  // ---- Stranding ----

  /** The server waits with nothing in flight and an unwritten slot to nudge from. */
  ghost predicate Stranded(s: Sys) {
    s.server.phase == S.WaitOnAck && s.toClient == s.toServer == multiset{} && BottomUnused(s.server.ring)
  }

  /** The end of the file has been read after every acknowledgement. */
  ghost predicate Abandoned(s: Sys) {
    && s.server.phase == S.WaitOnAck && s.server.waits == 0
    && s.server.ring.bottom == s.server.ring.middle && s.server.eof == Some(s.server.ring.middle)
    && s.toClient == multiset{} && Leftovers(s.toServer) && s.server.file == []
  }

  lemma {:induction false} LockstepToEnd(cfg: Config, s: Sys) returns (t: Sys, steps: seq<Step>)
    requires ConfigOk(cfg) && Inv(cfg, s) && Lockstep(s)
    requires s.server.file == [] ==> s.server.ring.middle <= s.server.ring.top
    ensures Inv(cfg, t) && Abandoned(t) && Goes(s, steps, t)
    ensures cfg.file == [] ==> t.toServer == s.toServer
    decreases |s.server.file|
  {
    if s.server.file == [] {
      t := Apply(s, ServerSend(true));
      OneStep(s, ServerSend(true));
      StepKeepsInv(cfg, s, ServerSend(true));
      steps := [ServerSend(true)];
    } else {
      var a, chunk := LockstepChunk(cfg, s);
      var rest;
      t, rest := LockstepToEnd(cfg, a);
      GoesOn(s, chunk, a, rest, t);
      steps := chunk + rest;
      assert Chunks(cfg)[s.server.ring.middle - 1..] != [];
    }
  }

  /** A leftover RR 1 is read to no effect; the end of the file is read again and the server waits again. */
  lemma ReadLeftover(cfg: Config, s: Sys) returns (t: Sys, steps: seq<Step>)
    requires ConfigOk(cfg) && Inv(cfg, s) && Abandoned(s) && Rr(1) in s.toServer && s.server.ring.middle > 1
    ensures Inv(cfg, t) && Abandoned(t) && t.server.ring == s.server.ring
    ensures t.toServer == s.toServer - multiset{Rr(1)}
    ensures Goes(s, steps, t)
  {
    assert 1 <= s.client.next && s.server.ring.middle <= s.server.ring.top && 1 <= s.server.ring.bottom;
    LeftoversLess(s.toServer, Rr(1));
    hide Inv, Moves, Leftovers;
    var a := Acknowledge(cfg, s, 1);
    t := ReadEndAgain(cfg, a);
    var ack := [ServerWait(Intact(Rr(1))), ServerProcess];
    GoesOn(s, ack, a, [ServerSend(true)], t);
    steps := ack + [ServerSend(true)];
  }

  lemma LeftoversLess(pool: multiset<Packet>, p: Packet)
    requires Leftovers(pool)
    ensures Leftovers(pool - multiset{p})
  {
    assert forall q :: q in pool - multiset{p} ==> q in pool;
  }

  lemma ReadEndAgain(cfg: Config, s: Sys) returns (t: Sys)
    requires ConfigOk(cfg) && Inv(cfg, s) && s.server.phase == S.SendData && s.server.waits == 0
    requires s.server.ring.middle <= s.server.ring.top && s.server.file == []
    ensures Inv(cfg, t) && t == s.(server := s.server.(phase := S.WaitOnAck, eof := Some(s.server.ring.middle)))
    ensures Goes(s, [ServerSend(true)], t)
  {
    t := Apply(s, ServerSend(true));
    StepKeepsInv(cfg, s, ServerSend(true));
    OneStep(s, ServerSend(true));
  }

  lemma {:induction false} ReadLeftovers(cfg: Config, s: Sys) returns (t: Sys, steps: seq<Step>)
    requires ConfigOk(cfg) && Inv(cfg, s) && Abandoned(s)
    requires s.server.ring.middle > 1 || s.toServer == multiset{}
    ensures Inv(cfg, t) && Abandoned(t) && t.server.ring == s.server.ring && t.toServer == multiset{}
    ensures Goes(s, steps, t)
    decreases |s.toServer|
  {
    if s.toServer == multiset{} {
      t, steps := s, [];
    } else {
      var p :| p in s.toServer;
      var a, first := ReadLeftover(cfg, s);
      assert |a.toServer| == |s.toServer| - 1;
      var rest;
      t, rest := ReadLeftovers(cfg, a);
      GoesOn(s, first, a, rest, t);
      steps := first + rest;
    }
  }

  /** A lockstep run to the end of the file, once the strays have been answered. */
  lemma AbandonRun(cfg: Config, s: Sys) returns (t: Sys, steps: seq<Step>)
    requires ConfigOk(cfg) && Init(cfg, s)
    requires cfg.file != [] || s.toClient == multiset{}
    ensures Inv(cfg, t) && Abandoned(t) && Goes(s, steps, t)
    ensures t.server.ring.middle == |Chunks(cfg)| + 1 && (t.server.ring.middle > 1 || t.toServer == multiset{})
  {
    InitFacts(cfg, s);
    hide Init;
    var a, strays := AnswerStrays(cfg, s);
    var run;
    t, run := LockstepToEnd(cfg, a);
    assert t.server.ring.middle == |Chunks(cfg)| + 1 && (cfg.file != [] ==> t.server.ring.middle > 1);
    hide Goes;
    GoesOn(s, strays, a, run, t);
    steps := strays + run;
  }

  lemma StrandRun(cfg: Config, s: Sys) returns (t: Sys, steps: seq<Step>)
    requires ConfigOk(cfg) && Init(cfg, s) && |Chunks(cfg)| < cfg.size
    requires cfg.file != [] || s.toClient == multiset{}
    ensures Goes(s, steps, t) && Stranded(t)
  {
    var a, run := AbandonRun(cfg, s);
    hide Inv, Init, Goes, Leftovers;
    var rest;
    t, rest := ReadLeftovers(cfg, a);
    GoesOn(s, run, a, rest, t);
    steps := run + rest;
    Facts(cfg, t);
  }

  // ---- An SREJ for a number not sent yet ----

  lemma SendChunk(cfg: Config, s: Sys) returns (t: Sys, p: Packet)
    requires ConfigOk(cfg) && Inv(cfg, s) && s.server.phase == S.SendData
    requires s.server.ring.middle <= |Chunks(cfg)| && s.server.ring.middle <= s.server.ring.top
    ensures Inv(cfg, t) && t == s.(server := t.server, toClient := s.toClient + multiset{p})
    ensures p.flag == DATA && p.seqNum == s.server.ring.middle <= |Chunks(cfg)| && p == DataPacket(Chunks(cfg), p.seqNum)
    ensures t.server.ring.middle == s.server.ring.middle + 1 && t.server.ring.bottom == s.server.ring.bottom
    ensures t.server.ring.top == s.server.ring.top && t.server.phase == S.Polling && t.inbox == Silence
    ensures Goes(s, [ServerSend(true)], t)
  {
    UnreadLeft(cfg, s);
    ReadIsNextChunk(cfg, s.server);
    p := DataPacket(Chunks(cfg), s.server.ring.middle);
    t := Apply(s, ServerSend(true));
    StepKeepsInv(cfg, s, ServerSend(true));
    OneStep(s, ServerSend(true));
    assert multiset([p]) == multiset{p};
  }

  /** A chunk goes out and the server goes straight on. */
  lemma SendOn(cfg: Config, s: Sys) returns (t: Sys, p: Packet)
    requires ConfigOk(cfg) && Inv(cfg, s) && s.server.phase == S.SendData
    requires s.server.ring.middle <= |Chunks(cfg)| && s.server.ring.middle <= s.server.ring.top
    ensures Inv(cfg, t) && t.client == s.client && t.toServer == s.toServer && t.inbox == Silence
    ensures t.toClient == s.toClient + multiset{p} && p.flag == DATA && p.seqNum == s.server.ring.middle
    ensures p.seqNum <= |Chunks(cfg)| && p == DataPacket(Chunks(cfg), p.seqNum)
    ensures t.server.ring.middle == s.server.ring.middle + 1 && t.server.ring.bottom == s.server.ring.bottom
    ensures t.server.ring.top == s.server.ring.top && t.server.phase == S.SendData
    ensures Goes(s, [ServerSend(true), ServerPoll(NoPick)], t)
  {
    var a;
    a, p := SendChunk(cfg, s);
    hide Goes;
    t := Apply(a, ServerPoll(NoPick));
    StepKeepsInv(cfg, a, ServerPoll(NoPick));
    OneStep(a, ServerPoll(NoPick));
    GoesOn(s, [ServerSend(true)], a, [ServerPoll(NoPick)], t);
    assert [ServerSend(true)] + [ServerPoll(NoPick)] == [ServerSend(true), ServerPoll(NoPick)];
  }

  /** Number next + 1 overtakes number next: the client holds it and goes to MISSING. */
  lemma Overtakes(c: R.Receiver, p: Packet)
    requires R.ReceiverOk(c) && c.phase == R.RecvData && c.size >= 2 && p.flag == DATA && p.seqNum == c.next + 1
    ensures R.OnArrival(c, Got(p)).0 == c.(phase := R.Missing, early := map[p.seqNum := p])
  {
  }

  /** Number next then closes the gap: both are written, and unless the window is full the number after them is asked for. */
  lemma ClosesGap(c: R.Receiver, p: Packet, q: Packet)
    requires c.size >= 2 && c.phase == R.Missing && c.early == map[c.next + 1 := q]
    requires p.flag == DATA && p.seqNum == c.next
    ensures var (d, out) := R.OnArrival(c, Got(p));
            && d.next == c.next + 2 && d.phase == R.RecvData
            && d.log == c.log + [R.Write(p.payload, |p.payload|), R.Write(q.payload, |p.payload|)]
            && (c.size >= 3 ==> Srej(c.next + 2) in out)
  {
    var held := c.early[p.seqNum := p];
    R.FirstGapIs(held, c.next, c.next + c.size, c.next + 2);
    var ws := R.Drained(held, c.next, c.next + 2, |p.payload|);
    assert ws == [ws[0], ws[1]];
    assert From(held, c.next + 2) == map[];
  }

  lemma Overtake(cfg: Config, s: Sys, q: Packet) returns (t: Sys)
    requires ConfigOk(cfg) && Inv(cfg, s) && s.client.phase == R.RecvData && s.client.size >= 2
    requires q in s.toClient && q.flag == DATA && q.seqNum == s.client.next + 1
    ensures Inv(cfg, t) && t.server == s.server && t.inbox == s.inbox && t.toClient == s.toClient - multiset{q}
    ensures t.client == s.client.(phase := R.Missing, early := map[q.seqNum := q])
    ensures Goes(s, [ClientTurn(Intact(q))], t)
  {
    t := Apply(s, ClientTurn(Intact(q)));
    Overtakes(s.client, q);
    StepKeepsInv(cfg, s, ClientTurn(Intact(q)));
    OneStep(s, ClientTurn(Intact(q)));
  }

  lemma CloseGap(cfg: Config, s: Sys, p: Packet, q: Packet) returns (t: Sys)
    requires ConfigOk(cfg) && Inv(cfg, s) && s.client.phase == R.Missing && s.client.size >= 2
    requires s.client.early == map[s.client.next + 1 := q]
    requires p in s.toClient && p.flag == DATA && p.seqNum == s.client.next
    ensures Inv(cfg, t) && t.server == s.server && t.inbox == s.inbox
    ensures t.client.next == s.client.next + 2 && t.client.phase == R.RecvData
    ensures t.client.log == s.client.log + [R.Write(p.payload, |p.payload|), R.Write(q.payload, |p.payload|)]
    ensures cfg.size >= 3 ==> Srej(s.client.next + 2) in t.toServer
    ensures Goes(s, [ClientTurn(Intact(p))], t)
  {
    ClosesGap(s.client, p, q);
    hide R.OnMissing, R.OnRecvData;
    t := Apply(s, ClientTurn(Intact(p)));
    StepKeepsInv(cfg, s, ClientTurn(Intact(p)));
    OneStep(s, ClientTurn(Intact(p)));
    var out := R.OnArrival(s.client, Got(p)).1;
    assert forall r :: r in out ==> r in multiset(out);
  }

  /** Two packets sent back to back reach the client in the other order. */
  lemma Swap(cfg: Config, s: Sys, p: Packet, q: Packet) returns (t: Sys)
    requires ConfigOk(cfg) && Inv(cfg, s) && s.client.phase == R.RecvData && s.client.size >= 2
    requires s.toClient >= multiset{p} + multiset{q} && p.flag == q.flag == DATA
    requires p.seqNum == s.client.next && q.seqNum == s.client.next + 1
    ensures Inv(cfg, t) && t.server == s.server && t.inbox == s.inbox
    ensures t.client.next == s.client.next + 2 && t.client.phase == R.RecvData
    ensures t.client.log == s.client.log + [R.Write(p.payload, |p.payload|), R.Write(q.payload, |p.payload|)]
    ensures cfg.size >= 3 ==> Srej(s.client.next + 2) in t.toServer
    ensures Goes(s, [ClientTurn(Intact(q)), ClientTurn(Intact(p))], t)
  {
    hide Goes;
    var a := Overtake(cfg, s, q);
    t := CloseGap(cfg, a, p, q);
    GoesOn(s, [ClientTurn(Intact(q))], a, [ClientTurn(Intact(p))], t);
    assert [ClientTurn(Intact(q))] + [ClientTurn(Intact(p))] == [ClientTurn(Intact(q)), ClientTurn(Intact(p))];
  }

  /** The server reads a reject of the number it would send next, whose slot has never been used. */
  lemma ReadUnsentReject(cfg: Config, s: Sys, k: nat) returns (t: Sys)
    requires ConfigOk(cfg) && Inv(cfg, s) && s.server.phase == S.Polling && Srej(k) in s.toServer
    requires k == s.server.ring.middle <= cfg.size
    ensures t.server.phase == S.Aborted
    ensures Goes(s, [ServerPoll(Intact(Srej(k))), ServerProcess], t)
  {
    var st := ServerPoll(Intact(Srej(k)));
    var u := PollPick(cfg, s, Srej(k));
    EmptySlotIff(cfg, u.server.ring, u.server.file, k);
    assert S.OnProcess(u.server, Got(Srej(k))).0.phase == S.Aborted;
    hide RingInv, S.OnProcess, S.Slot;
    t := Apply(u, ServerProcess);
    OneStep(u, ServerProcess);
    hide Goes;
    GoesOn(s, [st], u, [ServerProcess], t);
    assert [st] + [ServerProcess] == [st, ServerProcess];
  }

  lemma PollPick(cfg: Config, s: Sys, p: Packet) returns (t: Sys)
    requires ConfigOk(cfg) && Inv(cfg, s) && s.server.phase == S.Polling && p in s.toServer
    ensures Inv(cfg, t)
    ensures t == s.(server := s.server.(phase := S.Process), toServer := s.toServer - multiset{p}, inbox := Got(p))
    ensures Goes(s, [ServerPoll(Intact(p))], t)
  {
    t := Apply(s, ServerPoll(Intact(p)));
    StepKeepsInv(cfg, s, ServerPoll(Intact(p)));
    OneStep(s, ServerPoll(Intact(p)));
  }

  /** The first two chunks go out back to back. */
  lemma SendTwo(cfg: Config, s: Sys) returns (t: Sys, p: Packet, q: Packet)
    requires ConfigOk(cfg) && Init(cfg, s) && cfg.size >= 3 && |Chunks(cfg)| >= 2
    ensures Inv(cfg, t) && t.client == s.client && t.toClient == s.toClient + multiset{p} + multiset{q}
    ensures t.server.phase == S.Polling && t.server.ring.middle == 3
    ensures p.flag == q.flag == DATA && p.seqNum == 1 && q.seqNum == 2
    ensures Goes(s, [ServerSend(true), ServerPoll(NoPick)] + [ServerSend(true)], t)
  {
    InitFacts(cfg, s);
    hide Init, Inv, ServerInv, ClientInv, LinkInv, DataPacket, Goes, Chunks;
    var a;
    a, p := SendOn(cfg, s);
    t, q := SendChunk(cfg, a);
    GoesOn(s, [ServerSend(true), ServerPoll(NoPick)], a, [ServerSend(true)], t);
  }

  /** Two datagrams that change places abort the server: the client asks for number 3 before it has been sent. */
  lemma SwapAborts(cfg: Config, s: Sys) returns (t: Sys, steps: seq<Step>)
    requires ConfigOk(cfg) && Init(cfg, s) && cfg.size >= 3 && |Chunks(cfg)| >= 2
    ensures Goes(s, steps, t) && t.server.phase == S.Aborted
  {
    var a, p, q := SendTwo(cfg, s);
    hide Inv, Goes;
    var b := Swap(cfg, a, p, q);
    t := ReadUnsentReject(cfg, b, 3);
    var send := [ServerSend(true), ServerPoll(NoPick)] + [ServerSend(true)];
    var swap := [ClientTurn(Intact(q)), ClientTurn(Intact(p))];
    var abort := [ServerPoll(Intact(Srej(3))), ServerProcess];
    GoesOn(s, send, a, swap, b);
    GoesOn(s, send + swap, b, abort, t);
    steps := send + swap + abort;
  }

  // ---- The exact conditions ----

  /**
   * A faultless run can end in a state from which the transfer can never complete exactly when the window is
   * at least 3 or longer than the file, unless an empty file is helped by a stray answer to the handshake.
   */
  lemma FaultlessFailsIff(cfg: Config, s: Sys)
    requires ConfigOk(cfg) && Init(cfg, s)
    ensures (exists steps :: IsRun(s, steps) && NoFaults(steps) && !CanComplete(After(s, steps))) <==>
            (cfg.size >= 3 || |Chunks(cfg)| < cfg.size) && (cfg.file != [] || s.toClient == multiset{})
  {
    hide IsRun, After, NoFaults, CanComplete, Init;
    if cfg.file != [] || s.toClient == multiset{} {
      if |Chunks(cfg)| < cfg.size {
        var steps := StrandedLost(cfg, s);
      } else if cfg.size >= 3 {
        var steps := AbortedLost(cfg, s);
      }
    }
    forall steps | IsRun(s, steps) && NoFaults(steps) && !CanComplete(After(s, steps))
      ensures (cfg.size >= 3 || |Chunks(cfg)| < cfg.size) && (cfg.file != [] || s.toClient == multiset{})
    {
      if !((cfg.size >= 3 || |Chunks(cfg)| < cfg.size) && (cfg.file != [] || s.toClient == multiset{})) {
        FaultlessCompletes(cfg, s, steps);
      }
    }
  }

  lemma StrandedLost(cfg: Config, s: Sys) returns (steps: seq<Step>)
    requires ConfigOk(cfg) && Init(cfg, s) && |Chunks(cfg)| < cfg.size && (cfg.file != [] || s.toClient == multiset{})
    ensures IsRun(s, steps) && NoFaults(steps) && !CanComplete(After(s, steps))
  {
    var t;
    t, steps := StrandRun(cfg, s);
    StrandedIsLost(cfg, s, steps);
  }

  lemma StrandedIsLost(cfg: Config, s: Sys, steps: seq<Step>)
    requires ConfigOk(cfg) && Init(cfg, s) && IsRun(s, steps) && Stranded(After(s, steps))
    ensures !CanComplete(After(s, steps))
  {
    hide Inv, Init, CanComplete, Completable, Index;
    InitInv(cfg, s);
    RunKeepsInv(cfg, s, steps);
    var t := After(s, steps);
    Facts(cfg, t);
    NotAhead(cfg, t);
    CompletesIff(cfg, t);
    WaitCompletable(t);
  }

  lemma NotAhead(cfg: Config, s: Sys)
    requires ConfigOk(cfg) && Inv(cfg, s) && BottomUnused(s.server.ring)
    ensures !Ahead(s.server.ring)
  {
    EmptySlotIff(cfg, s.server.ring, s.server.file, s.server.ring.bottom);
  }

  lemma AbortedLost(cfg: Config, s: Sys) returns (steps: seq<Step>)
    requires ConfigOk(cfg) && Init(cfg, s) && cfg.size >= 3 && |Chunks(cfg)| >= 2
    ensures IsRun(s, steps) && NoFaults(steps) && !CanComplete(After(s, steps))
  {
    hide Inv, Init, CanComplete, Completable;
    var t;
    t, steps := SwapAborts(cfg, s);
    InitInv(cfg, s);
    RunKeepsInv(cfg, s, steps);
    AbortedIsLost(cfg, t);
  }

  lemma AbortedIsLost(cfg: Config, s: Sys)
    requires ConfigOk(cfg) && Inv(cfg, s) && s.server.phase == S.Aborted
    ensures !CanComplete(s)
  {
    hide Inv, CanComplete, Completable;
    CompletesIff(cfg, s);
    StoppedIsLost(s);
  }

  lemma FaultlessCompletes(cfg: Config, s: Sys, steps: seq<Step>)
    requires ConfigOk(cfg) && Init(cfg, s) && IsRun(s, steps) && NoFaults(steps)
    requires (cfg.size <= 2 && |Chunks(cfg)| >= cfg.size) || (cfg.file == [] && s.toClient != multiset{})
    ensures CanComplete(After(s, steps))
  {
    hide IsRun, After, NoFaults, CanComplete, Init;
    if cfg.file == [] && s.toClient != multiset{} {
      EmptyRunCompletes(cfg, s, steps);
    } else {
      CalmRunCompletes(cfg, s, steps);
    }
  }

  lemma CalmRunCompletes(cfg: Config, s: Sys, steps: seq<Step>)
    requires ConfigOk(cfg) && Init(cfg, s) && IsRun(s, steps) && NoFaults(steps)
    requires cfg.size <= 2 && |Chunks(cfg)| >= cfg.size
    ensures CanComplete(After(s, steps))
  {
    InitCalm(cfg, s);
    CalmRun(cfg, s, steps);
    var t := After(s, steps);
    hide Init, IsRun, After, NoFaults, CanComplete, Completable, NoRejects;
    CalmCompletes(cfg, t);
    hide Inv;
    CompletesIff(cfg, t);
  }

  lemma EmptyRunCompletes(cfg: Config, s: Sys, steps: seq<Step>)
    requires ConfigOk(cfg) && Init(cfg, s) && IsRun(s, steps) && NoFaults(steps)
    requires cfg.file == [] && s.toClient != multiset{}
    ensures CanComplete(After(s, steps))
  {
    hide Init, IsRun, After, NoFaults, CanComplete, Completable, EmptyWithStray;
    StrayAtStart(cfg, s);
    EmptyRun(cfg, s, steps);
    var t := After(s, steps);
    EmptyCompletes(cfg, t);
    EmptyInv(cfg, t);
    CompletesIff(cfg, t);
  }

  lemma StrayAtStart(cfg: Config, s: Sys)
    requires ConfigOk(cfg) && Init(cfg, s) && cfg.file == [] && s.toClient != multiset{}
    ensures EmptyWithStray(cfg, s)
  {
    hide Init, Calm, NoRejects, Inv;
    InitCalm(cfg, s);
    InitFacts(cfg, s);
    var p :| p in s.toClient;
  }

  lemma EmptyInv(cfg: Config, s: Sys)
    requires ConfigOk(cfg) && EmptyWithStray(cfg, s)
    ensures Inv(cfg, s)
  {
  }

  /** A faultless run can strand the server in WAIT_ON_ACK exactly for the files with fewer chunks than the window. */
  lemma StrandsIffShorterThanWindow(cfg: Config, s: Sys)
    requires ConfigOk(cfg) && Init(cfg, s)
    ensures (exists steps :: IsRun(s, steps) && NoFaults(steps) && Stranded(After(s, steps))) <==>
            |Chunks(cfg)| < cfg.size && (cfg.file != [] || s.toClient == multiset{})
  {
    hide Init, IsRun, After, NoFaults, Stranded;
    if |Chunks(cfg)| < cfg.size && (cfg.file != [] || s.toClient == multiset{}) {
      var t, steps := StrandRun(cfg, s);
    }
    forall steps | IsRun(s, steps) && NoFaults(steps) && Stranded(After(s, steps))
      ensures |Chunks(cfg)| < cfg.size && (cfg.file != [] || s.toClient == multiset{})
    {
      StrandNeeds(cfg, s, steps);
    }
  }

  lemma StrandNeeds(cfg: Config, s: Sys, steps: seq<Step>)
    requires ConfigOk(cfg) && Init(cfg, s) && IsRun(s, steps) && NoFaults(steps) && Stranded(After(s, steps))
    ensures |Chunks(cfg)| < cfg.size && (cfg.file != [] || s.toClient == multiset{})
  {
    InitCalm(cfg, s);
    CalmRun(cfg, s, steps);
    var t := After(s, steps);
    EmptySlotIff(cfg, t.server.ring, t.server.file, t.server.ring.bottom);
    StrandedIsLost(cfg, s, steps);
    hide IsRun, After, CanComplete;
    if cfg.file == [] && s.toClient != multiset{} {
      FaultlessCompletes(cfg, s, steps);
    }
  }

  /**
   * A faultless run can abort the server, or have the client send a reject at all, exactly when there is a second
   * chunk to overtake the first and a window of at least 3.
   */
  lemma AbortsIff(cfg: Config, s: Sys)
    requires ConfigOk(cfg) && Init(cfg, s)
    ensures (exists steps :: IsRun(s, steps) && NoFaults(steps) && After(s, steps).server.phase == S.Aborted) <==>
            cfg.size >= 3 && |Chunks(cfg)| >= 2
    ensures (exists steps :: IsRun(s, steps) && NoFaults(steps) && !NoRejects(After(s, steps))) <==>
            cfg.size >= 3 && |Chunks(cfg)| >= 2
  {
    hide Init, IsRun, After, NoFaults;
    if cfg.size >= 3 && |Chunks(cfg)| >= 2 {
      var t, steps := SwapAborts(cfg, s);
      assert !NoRejects(After(s, steps));
    }
    forall steps | IsRun(s, steps) && NoFaults(steps) && !NoRejects(After(s, steps))
      ensures cfg.size >= 3 && |Chunks(cfg)| >= 2
    {
      NoRejectsRun(cfg, s, steps);
    }
  }

  lemma NoRejectsRun(cfg: Config, s: Sys, steps: seq<Step>)
    requires ConfigOk(cfg) && Init(cfg, s) && IsRun(s, steps) && NoFaults(steps)
    ensures Rejectless(cfg) ==> NoRejects(After(s, steps))
  {
    InitCalm(cfg, s);
    CalmRun(cfg, s, steps);
  }
}
