/** The exact states from which a transfer can still finish. */
module Outcome {
  import opened Packets
  import opened Windows
  import opened Protocol
  import opened Safety
  import opened Progress
  import S = Server
  import R = Rcopy

  /** A nudge would find a packet in the slot of bottom: one is outstanding, or more than a window has been sent. */
  predicate Ahead(r: Ring) { r.bottom < r.middle || r.middle > |r.slots| }

  /**
   * A message that lets a server with nothing outstanding go on: any answer but a reject of the next number while
   * there is a chunk to read; and after the last chunk a reject that is answered, or the last acknowledgement.
   */
  predicate Helps(s: S.Sender, p: Packet) {
    p != Srej(s.ring.middle) && (s.file != [] || p.flag == SREJ || p == Rr(s.ring.middle))
  }

  /** Something in flight will make the client speak, or helps the server itself. */
  ghost predicate HelpInFlight(s: Sys) {
    s.toClient != multiset{} || exists p :: p in s.toServer && Helps(s.server, p)
  }

  /** The message about to be processed, or what remains after it, keeps the transfer alive. */
  ghost predicate InboxGoesOn(s: Sys) {
    var r := s.server.ring;
    match s.inbox
    case Silence => false
    case CrcError => Ahead(r) || HelpInFlight(s)
    case Got(p) =>
      if p.flag == SREJ then !(p.seqNum == r.middle <= |r.slots|)
      else
        || s.server.eof == Some(p.seqNum) || (r.bottom < r.middle && p.seqNum < r.middle)
        || r.middle > |r.slots| || s.server.file != [] || HelpInFlight(s)
  }

  /** The exact condition, read off the state: who is still there, the two counters, the window and what is in flight. */
  ghost predicate Completable(s: Sys) {
    var live := R.Live(s.client);
    var answered := s.client.phase == R.Done(R.EndOfFile) && Rr(s.server.ring.middle + 1) in s.toServer;
    match s.server.phase
    case SendData => live && (Ahead(s.server.ring) || s.server.file != [] || HelpInFlight(s))
    case Polling => live && (Ahead(s.server.ring) || s.server.file != [] || HelpInFlight(s))
    case Process => live && InboxGoesOn(s)
    case WaitOnAck =>
      && live && s.server.waits < S.RETRIES && (Ahead(s.server.ring) || HelpInFlight(s))
      && (s.server.waits + 2 <= S.RETRIES || s.toClient != multiset{} || s.toServer != multiset{})
    case Bye => s.server.byes < S.RETRIES && (live || answered)
    case ByeWait =>
      || answered
      || (live && (s.server.byes < S.RETRIES || s.toClient != multiset{} || s.toServer != multiset{}))
    case Done(end) => end == S.Acked
    case Aborted => false
  }

  // ---- Outside the condition no run completes ----

  /** Facts of the invariant about a server that has nothing outstanding, and about what is in flight. */
  lemma Facts(cfg: Config, s: Sys)
    requires ConfigOk(cfg) && Inv(cfg, s)
    ensures S.SenderOk(s.server) && |s.server.ring.slots| == cfg.size == s.client.size
    ensures s.server.ring.top + 1 == s.server.ring.bottom + cfg.size
    ensures 1 <= s.server.ring.bottom <= s.client.next <= s.server.ring.middle <= s.server.ring.top + 1
    ensures s.server.eof.Some? ==> s.server.eof == Some(s.server.ring.middle) && s.server.file == []
    ensures !Ahead(s.server.ring) ==> BottomUnused(s.server.ring)
    ensures !ByeBegun(s.server) ==> forall p :: p in s.toServer ==>
              (p == Rr(p.seqNum) || p == Srej(p.seqNum)) && 1 <= p.seqNum <= s.client.next
    ensures !ByeBegun(s.server) && s.inbox.Got? ==>
              var p := s.inbox.packet; (p == Rr(p.seqNum) || p == Srej(p.seqNum)) && 1 <= p.seqNum <= s.client.next
    ensures s.inbox != Silence <==> s.server.phase == S.Process
    ensures s.client.phase.Done? ==> s.client.phase.cause != R.OutOfWindow
    ensures s.server.phase == S.Bye || s.server.phase == S.ByeWait ==> s.server.eof.Some?
  {
    EmptySlotIff(cfg, s.server.ring, s.server.file, s.server.ring.bottom);
    assert s.server.eof.Some? ==> Chunks(cfg)[s.server.ring.middle - 1..] == [];
    hide RingInv, ClientInv;
    if !ByeBegun(s.server) {
      forall p | p in s.toServer
        ensures (p == Rr(p.seqNum) || p == Srej(p.seqNum)) && 1 <= p.seqNum <= s.client.next
      {
        assert ToServerOk(cfg, s, p);
      }
    }
  }

  lemma SendStaysLost(cfg: Config, s: Sys, readOk: bool)
    requires ConfigOk(cfg) && Inv(cfg, s) && Enabled(s, ServerSend(readOk)) && !Completable(s)
    ensures !Completable(Apply(s, ServerSend(readOk)))
  {
    Facts(cfg, s);
    hide Inv;
    assert R.Live(s.client) ==> S.OnSend(s.server, readOk).1 == [];
  }

  lemma PollStaysLost(cfg: Config, s: Sys, pick: Pick)
    requires ConfigOk(cfg) && Inv(cfg, s) && Enabled(s, ServerPoll(pick)) && !Completable(s)
    ensures !Completable(Apply(s, ServerPoll(pick)))
  {
    hide Inv, Index, S.SenderOk, HelpInFlight, InboxGoesOn, Completable;
    Facts(cfg, s);
    SendCompletable(s);
    var t := Apply(s, ServerPoll(pick));
    if pick == NoPick {
      assert t == s.(server := s.server.(phase := S.SendData));
      SendCompletable(t);
      SameHelp(s, t);
    } else {
      ProcessCompletable(t);
      if R.Live(s.client) { InboxNoHelp(s, t, pick); }
    }
  }

  /** Taking messages away helps nobody. */
  lemma LessHelp(s: Sys, pool: multiset<Packet>)
    requires pool <= s.toServer
    ensures HelpInFlight(s.(toServer := pool)) ==> HelpInFlight(s)
  {
  }

  /** An acknowledgement too old to help slides the window shut on nothing, and the last one has been used. */
  lemma RrStaysLost(cfg: Config, s: Sys, n: nat)
    requires ConfigOk(cfg) && Inv(cfg, s) && Enabled(s, ServerProcess) && !Completable(s) && s.inbox == Got(Rr(n))
    ensures !Completable(Apply(s, ServerProcess))
  {
    hide Inv, Index, Cleared, Completable, HelpInFlight, S.SenderOk;
    Facts(cfg, s);
    ProcessCompletable(s);
    var d := S.OnProcess(s.server, s.inbox).0;
    var t := s.(server := d, toClient := s.toClient + multiset([]), inbox := Silence);
    assert Apply(s, ServerProcess) == t && t.toClient == s.toClient;
    if R.Live(s.client) {
      assert d.phase == S.SendData && d.file == s.server.file == [];
      assert d.ring.bottom == d.ring.middle == s.server.ring.middle <= |d.ring.slots|;
      SameMessages(s, t);
      SendCompletable(t);
    } else {
      assert d.phase == S.SendData || d.phase == S.Bye;
      AbsentIsLost(cfg, s, t);
    }
  }

  /** A server that is not in BYE yet needs the client. */
  lemma AbsentIsLost(cfg: Config, s: Sys, t: Sys)
    requires ConfigOk(cfg) && Inv(cfg, s) && !ByeBegun(s.server) && !R.Live(s.client)
    requires t.client == s.client && !t.server.phase.Done?
    ensures !Completable(t)
  {
    Facts(cfg, s);
    assert s.client.phase != R.Done(R.EndOfFile);
    hide Inv, Ahead, HelpInFlight, InboxGoesOn;
  }

  lemma SrejStaysLost(cfg: Config, s: Sys, n: nat)
    requires ConfigOk(cfg) && Inv(cfg, s) && Enabled(s, ServerProcess) && !Completable(s) && s.inbox == Got(Srej(n))
    ensures !Completable(Apply(s, ServerProcess))
  {
    Facts(cfg, s);
    EmptySlotIff(cfg, s.server.ring, s.server.file, n);
    hide Inv, Index, HelpInFlight;
  }

  lemma ProcessStaysLost(cfg: Config, s: Sys)
    requires ConfigOk(cfg) && Inv(cfg, s) && Enabled(s, ServerProcess) && !Completable(s)
    ensures !Completable(Apply(s, ServerProcess))
  {
    Facts(cfg, s);
    hide Inv;
    if s.inbox.Got? {
      hide Completable, Apply;
      var p := s.inbox.packet;
      if p.flag == SREJ { SrejStaysLost(cfg, s, p.seqNum); } else { RrStaysLost(cfg, s, p.seqNum); }
    } else {
      assert s.inbox == CrcError && multiset(S.OnProcess(s.server, CrcError).1) == multiset{};
    }
  }

  /** A wait that ends in a nudge: none is left, or there is no packet to nudge with, or its answer will not be read. */
  lemma NudgeStaysLost(cfg: Config, s: Sys)
    requires ConfigOk(cfg) && Inv(cfg, s) && Enabled(s, ServerWait(NoPick)) && !Completable(s)
    ensures !Completable(Apply(s, ServerWait(NoPick)))
  {
    hide Inv, Index, HelpInFlight, S.SenderOk, Completable;
    Facts(cfg, s);
    WaitCompletable(s);
    var t := Apply(s, ServerWait(NoPick));
    assert t.client == s.client && t.toServer == s.toServer;
    if t.server.phase == S.WaitOnAck {
      WaitCompletable(t);
      assert t.server.waits == s.server.waits + 1;
      if R.Live(s.client) && !Ahead(s.server.ring) { assert false; }
    } else {
      assert t.server.phase == S.Done(S.NoAck) || t.server.phase == S.Aborted;
      StoppedIsLost(t);
    }
  }

  lemma StoppedIsLost(s: Sys)
    requires s.server.phase == S.Done(S.NoAck) || s.server.phase == S.Aborted
    ensures !Completable(s)
  {
  }

  lemma WaitStaysLost(cfg: Config, s: Sys, pick: Pick)
    requires ConfigOk(cfg) && Inv(cfg, s) && Enabled(s, ServerWait(pick)) && !Completable(s)
    ensures !Completable(Apply(s, ServerWait(pick)))
  {
    if pick == NoPick {
      NudgeStaysLost(cfg, s);
    } else {
      ReadStaysLost(cfg, s, pick);
    }
  }

  lemma ReadStaysLost(cfg: Config, s: Sys, pick: Pick)
    requires ConfigOk(cfg) && Inv(cfg, s) && Enabled(s, ServerWait(pick)) && !Completable(s) && pick != NoPick
    ensures !Completable(Apply(s, ServerWait(pick)))
  {
    hide Inv, Index, S.SenderOk, HelpInFlight, InboxGoesOn, Completable;
    Facts(cfg, s);
    var t := s.(server := s.server.(phase := S.Process, waits := 0), toServer := s.toServer - multiset{pick.p},
                inbox := ArrivalOf(pick));
    assert Apply(s, ServerWait(pick)) == t;
    WaitCompletable(s);
    ProcessCompletable(t);
    if R.Live(s.client) { InboxNoHelp(s, t, pick); }
  }

  lemma WaitCompletable(s: Sys)
    requires s.server.phase == S.WaitOnAck
    ensures Completable(s) <==>
              && R.Live(s.client) && s.server.waits < S.RETRIES && (Ahead(s.server.ring) || HelpInFlight(s))
              && (s.server.waits + 2 <= S.RETRIES || s.toClient != multiset{} || s.toServer != multiset{})
  {
    hide Ahead, HelpInFlight;
  }

  lemma ProcessCompletable(s: Sys)
    requires s.server.phase == S.Process
    ensures Completable(s) <==> R.Live(s.client) && InboxGoesOn(s)
  {
    hide InboxGoesOn;
  }

  lemma SendCompletable(s: Sys)
    requires s.server.phase == S.SendData || s.server.phase == S.Polling
    ensures Completable(s) <==> R.Live(s.client) && (Ahead(s.server.ring) || s.server.file != [] || HelpInFlight(s))
  {
    hide Ahead, HelpInFlight;
  }

  /** A message helps in the inbox only if it helped in flight. */
  lemma InboxNoHelp(s: Sys, t: Sys, pick: Pick)
    requires pick != NoPick
    requires t == s.(server := t.server, toServer := s.toServer - multiset{pick.p}, inbox := ArrivalOf(pick))
    requires t.server.ring == s.server.ring && t.server.file == s.server.file && t.server.eof == s.server.eof
    requires pick.p in s.toServer && !Ahead(s.server.ring) && !HelpInFlight(s)
    requires pick.p == Rr(pick.p.seqNum) || pick.p == Srej(pick.p.seqNum)
    requires s.server.eof.Some? ==> s.server.eof == Some(s.server.ring.middle) && s.server.file == []
    requires |s.server.ring.slots| >= 1
    ensures !InboxGoesOn(t)
  {
    LessHelp(s, t.toServer);
    assert HelpInFlight(t) ==> HelpInFlight(s);
    assert !Helps(s.server, pick.p);
  }

  lemma ByeStaysLost(cfg: Config, s: Sys)
    requires ConfigOk(cfg) && Inv(cfg, s) && Enabled(s, ServerBye) && !Completable(s)
    ensures !Completable(Apply(s, ServerBye))
  {
    hide Inv, HelpInFlight, InboxGoesOn;
    ByeMeansAllReceived(cfg, s);
    ByeCount(cfg, s);
  }

  lemma ByeCount(cfg: Config, s: Sys)
    requires ConfigOk(cfg) && Inv(cfg, s) && (s.server.phase == S.Bye || s.server.phase == S.ByeWait)
    ensures s.server.byes <= S.RETRIES
  {
  }

  lemma ByeWaitStaysLost(cfg: Config, s: Sys, pick: Pick)
    requires ConfigOk(cfg) && Inv(cfg, s) && Enabled(s, ServerByeWait(pick)) && !Completable(s)
    ensures !Completable(Apply(s, ServerByeWait(pick)))
  {
    hide Inv, HelpInFlight, InboxGoesOn, S.SenderOk, Ahead;
    ByeMeansAllReceived(cfg, s);
    ByeCount(cfg, s);
    FinalAnswer(cfg, s);
    HeardBye(s, pick);
    hide Apply;
  }

  lemma HeardBye(s: Sys, pick: Pick)
    requires Enabled(s, ServerByeWait(pick)) && s.server.eof == Some(s.server.ring.middle)
    ensures var t := Apply(s, ServerByeWait(pick));
            && t == s.(server := t.server, toServer := t.toServer)
            && t.server == s.server.(phase := t.server.phase, byes := t.server.byes)
            && (t.server.phase == S.Bye ||
                (t.server.phase == S.Done(S.Acked) && pick.p in s.toServer && pick.p.flag == RR &&
                 pick.p.seqNum == s.server.ring.middle + 1))
            && (pick == NoPick ==> t.toServer == s.toServer && t.server.byes == s.server.byes)
            && (pick != NoPick ==> s.toServer != multiset{})
            && (forall p :: p in t.toServer ==> p in s.toServer)
  {
    hide S.SenderOk;
  }

  /** Nothing but the client's answer to END_OF_FILE has that number. */
  lemma FinalAnswer(cfg: Config, s: Sys)
    requires ConfigOk(cfg) && Inv(cfg, s) && ByeBegun(s.server)
    ensures forall p :: p in s.toServer && p.flag == RR && p.seqNum == s.server.ring.middle + 1 ==>
              p == Rr(s.server.ring.middle + 1) && s.client.phase == R.Done(R.EndOfFile)
  {
    ByeMeansAllReceived(cfg, s);
    forall p | p in s.toServer && p.flag == RR && p.seqNum == s.server.ring.middle + 1
      ensures p == Rr(s.server.ring.middle + 1) && s.client.phase == R.Done(R.EndOfFile)
    {
      assert ToServerOk(cfg, s, p);
    }
  }

  /** Lost although the client is still there and will speak: the server has given up, or is about to. */
  ghost predicate ServerGaveUp(s: Sys) {
    match s.server.phase
    case WaitOnAck => s.server.waits >= S.RETRIES
    case Process =>
      s.inbox == Silence ||
      (s.inbox.Got? && s.inbox.packet.flag == SREJ && s.inbox.packet.seqNum == s.server.ring.middle <= |s.server.ring.slots|)
    case Bye => s.server.byes >= S.RETRIES
    case Done(end) => end != S.Acked
    case Aborted => true
    case _ => false
  }

  lemma LostDespiteClient(s: Sys)
    requires R.Live(s.client) && s.toClient != multiset{} && !Completable(s)
    ensures ServerGaveUp(s)
  {
    hide Ahead;
  }

  lemma GaveUpIsLost(s: Sys)
    requires ServerGaveUp(s)
    ensures !Completable(s)
  {
    hide Ahead, HelpInFlight;
  }

  lemma SilentClientLost(s: Sys)
    requires s.client.phase == R.Done(R.TimedOut) && Completable(s)
    ensures s.server.phase == S.Done(S.Acked)
  {
    hide Ahead, HelpInFlight, InboxGoesOn;
  }

  lemma ClientStaysLost(cfg: Config, s: Sys, pick: Pick)
    requires ConfigOk(cfg) && Inv(cfg, s) && Enabled(s, ClientTurn(pick)) && !Completable(s)
    ensures !Completable(Apply(s, ClientTurn(pick)))
  {
    hide Inv, Completable, ServerGaveUp, R.OnArrival, S.SenderOk;
    var t := Apply(s, ClientTurn(pick));
    assert t.server == s.server && t.inbox == s.inbox;
    if pick == NoPick {
      TimesOut(s.client);
      if Completable(t) {
        SilentClientLost(t);
        AckedIsCompletable(s);
      }
    } else {
      LostDespiteClient(s);
      StillGivenUp(s, t);
      GaveUpIsLost(t);
    }
  }

  lemma StillGivenUp(s: Sys, t: Sys)
    requires ServerGaveUp(s) && t.server == s.server && t.inbox == s.inbox
    ensures ServerGaveUp(t)
  {
  }

  lemma AckedIsCompletable(s: Sys)
    requires s.server.phase == S.Done(S.Acked)
    ensures Completable(s)
  {
    hide Ahead, HelpInFlight, InboxGoesOn;
  }

  lemma TimesOut(c: R.Receiver)
    requires c.size >= 1 && R.Live(c)
    ensures R.OnArrival(c, Silence) == (c.(phase := R.Done(R.TimedOut)), [])
  {
  }

  lemma LinkStaysLost(s: Sys, st: Step)
    requires Enabled(s, st) && !Completable(s)
    requires st.DropToClient? || st.DropToServer? || st.DupToClient? || st.DupToServer?
    ensures !Completable(Apply(s, st))
  {
    hide S.SenderOk, Completable, HelpInFlight;
    var t := Apply(s, st);
    LinkMakesNothing(s, st, t);
    SameHelp(s, t);
    if Completable(t) { MoreIsCompletable(s, t); }
  }

  /** Nothing is lost by having more in flight. */
  lemma MoreIsCompletable(s: Sys, t: Sys)
    requires t.server == s.server && t.client == s.client && t.inbox == s.inbox && Completable(t)
    requires (forall p :: p in t.toServer ==> p in s.toServer) && (HelpInFlight(t) ==> HelpInFlight(s))
    requires t.toClient != multiset{} ==> s.toClient != multiset{}
    requires t.toServer != multiset{} ==> s.toServer != multiset{}
    ensures Completable(s)
  {
    hide Ahead, HelpInFlight;
  }

  /** The link brings nothing new. */
  lemma LinkMakesNothing(s: Sys, st: Step, t: Sys)
    requires Enabled(s, st) && t == Apply(s, st)
    requires st.DropToClient? || st.DropToServer? || st.DupToClient? || st.DupToServer?
    ensures t.server == s.server && t.client == s.client && t.inbox == s.inbox
    ensures (forall p :: p in t.toClient ==> p in s.toClient) && (forall p :: p in t.toServer ==> p in s.toServer)
    ensures t.toClient != multiset{} ==> s.toClient != multiset{}
    ensures t.toServer != multiset{} ==> s.toServer != multiset{}
  {
    hide S.SenderOk;
    EmptyStaysEmpty(t.toClient, s.toClient);
    EmptyStaysEmpty(t.toServer, s.toServer);
  }

  lemma EmptyStaysEmpty(a: multiset<Packet>, b: multiset<Packet>)
    requires forall p :: p in a ==> p in b
    ensures a != multiset{} ==> b != multiset{}
  {
    if a != multiset{} { var p :| p in a; }
  }

  lemma SameHelp(s: Sys, t: Sys)
    requires t.server.ring == s.server.ring && t.server.file == s.server.file
    requires t.toClient != multiset{} ==> s.toClient != multiset{}
    requires forall p :: p in t.toServer ==> p in s.toServer
    ensures HelpInFlight(t) ==> HelpInFlight(s)
  {
  }

  lemma LostStaysLost(cfg: Config, s: Sys, st: Step)
    requires ConfigOk(cfg) && Inv(cfg, s) && Enabled(s, st) && !Completable(s)
    ensures !Completable(Apply(s, st))
  {
    hide Inv, Completable;
    match st
    case ServerSend(readOk) => SendStaysLost(cfg, s, readOk);
    case ServerPoll(pick) => PollStaysLost(cfg, s, pick);
    case ServerProcess => ProcessStaysLost(cfg, s);
    case ServerWait(pick) => WaitStaysLost(cfg, s, pick);
    case ClientTurn(pick) => ClientStaysLost(cfg, s, pick);
    case ServerBye => ByeStaysLost(cfg, s);
    case ServerByeWait(pick) => ByeWaitStaysLost(cfg, s, pick);
    case _ => LinkStaysLost(s, st);
  }

  lemma {:induction false} LostNeverCompletes(cfg: Config, s: Sys, steps: seq<Step>)
    requires ConfigOk(cfg) && Inv(cfg, s) && !Completable(s) && IsRun(s, steps)
    ensures !Complete(After(s, steps)) && !Completable(After(s, steps))
    decreases |steps|
  {
    if steps != [] {
      hide Inv, Apply, Enabled, Completable, Complete;
      LostStaysLost(cfg, s, steps[0]);
      StepKeepsInv(cfg, s, steps[0]);
      LostNeverCompletes(cfg, Apply(s, steps[0]), steps[1..]);
    }
  }

  // ---- Within it some run completes ----

  /** A message in flight is duplicated and read as damaged: the wait counter starts again and nothing else changes. */
  lemma Recount(cfg: Config, s: Sys, p: Packet)
    requires ConfigOk(cfg) && Inv(cfg, s) && s.server.phase == S.WaitOnAck && s.server.waits < S.RETRIES
    requires p in s.toServer && CanComplete(s.(server := s.server.(waits := 0)))
    ensures CanComplete(s)
  {
    hide Inv, CanComplete, Moves;
    var a := Duplicate(cfg, s, p);
    var b, t := HearAgain(cfg, a, p);
    assert a.toServer - multiset{p} == s.toServer;
    assert t == s.(server := s.server.(waits := 0));
    MovesBack(b, [ServerProcess], t);
    MovesBack(a, [ServerWait(Corrupt(p))], b);
    MovesBack(s, [DupToServer(p)], a);
  }

  lemma HearAgain(cfg: Config, s: Sys, p: Packet) returns (b: Sys, t: Sys)
    requires ConfigOk(cfg) && Inv(cfg, s) && s.server.phase == S.WaitOnAck && s.server.waits < S.RETRIES && p in s.toServer
    ensures t == s.(server := s.server.(waits := 0), toServer := s.toServer - multiset{p})
    ensures Moves(s, [ServerWait(Corrupt(p))], b) && Moves(b, [ServerProcess], t)
  {
    hide Inv, Moves, S.SenderOk;
    Facts(cfg, s);
    StepKeepsInv(cfg, s, ServerWait(Corrupt(p)));
    b := Apply(s, ServerWait(Corrupt(p)));
    Facts(cfg, b);
    OneMove(s, ServerWait(Corrupt(p)));
    t := Apply(b, ServerProcess);
    OneMove(b, ServerProcess);
    assert s.toClient + multiset([]) == s.toClient;
  }

  /** Whatever reaches a live client before BYE, it says what it then expects. */
  lemma SpeaksUp(c: R.Receiver, p: Packet)
    requires R.ReceiverOk(c) && R.Live(c) && p.flag != END_OF_FILE && p.seqNum < c.next + c.size
    ensures var (d, out) := R.OnArrival(c, Got(p)); R.Live(d) && d.next >= c.next && Rr(d.next) in multiset(out)
  {
    var (d, out) := R.OnArrival(c, Got(p));
    assert out[|out| - 1] == Rr(d.next);
  }

  lemma Speak(cfg: Config, s: Sys) returns (t: Sys, steps: seq<Step>)
    requires ConfigOk(cfg) && Inv(cfg, s) && R.Live(s.client) && s.toClient != multiset{}
    requires exists p :: p in s.toClient && p != Eof(|Chunks(cfg)| + 1)
    ensures Inv(cfg, t) && R.Live(t.client) && t.server == s.server && t.inbox == s.inbox
    ensures t.client.next >= s.client.next && Rr(t.client.next) in t.toServer
    ensures Moves(s, steps, t)
  {
    var p :| p in s.toClient && p != Eof(|Chunks(cfg)| + 1);
    var st := ClientTurn(Intact(p));
    t := Apply(s, st);
    StepKeepsInv(cfg, s, st);
    WhatArrives(cfg, s, Intact(p));
    hide Inv, R.OnArrival;
    SpeaksUp(s.client, p);
    OneMove(s, st);
    steps := [st];
  }

  lemma NoEofYet(cfg: Config, s: Sys)
    requires ConfigOk(cfg) && Inv(cfg, s) && !ByeBegun(s.server) && s.toClient != multiset{}
    ensures exists p :: p in s.toClient && p != Eof(|Chunks(cfg)| + 1)
  {
    var p :| p in s.toClient;
    assert ToClientOk(cfg, s, p);
  }

  /** The server answers a reject of anything but a number whose slot is unused. */
  lemma ReadReject(cfg: Config, s: Sys, k: nat) returns (t: Sys)
    requires ConfigOk(cfg) && Inv(cfg, s) && s.server.phase == S.Process && s.inbox == Got(Srej(k))
    requires !(k == s.server.ring.middle <= cfg.size)
    ensures Inv(cfg, t) && t.client == s.client && t.toClient != multiset{}
    ensures t.server == s.server.(phase := S.SendData)
    ensures Moves(s, [ServerProcess], t)
  {
    Facts(cfg, s);
    EmptySlotIff(cfg, s.server.ring, s.server.file, k);
    t := Apply(s, ServerProcess);
    StepKeepsInv(cfg, s, ServerProcess);
    OneMove(s, ServerProcess);
    var out := S.OnProcess(s.server, s.inbox).1;
    assert out[0] in multiset(out);
  }

  lemma FromWaitingReject(cfg: Config, s: Sys, k: nat)
    requires ConfigOk(cfg) && Inv(cfg, s) && R.Live(s.client) && s.server.phase == S.WaitOnAck
    requires s.server.waits < S.RETRIES && Srej(k) in s.toServer && k != s.server.ring.middle
    ensures CanComplete(s)
  {
    var st := ServerWait(Intact(Srej(k)));
    var a := Apply(s, st);
    StepKeepsInv(cfg, s, st);
    OneMove(s, st);
    var b := ReadReject(cfg, a, k);
    hide CanComplete, Moves;
    FromSpeaking(cfg, b);
    MovesBack(a, [ServerProcess], b);
    MovesBack(s, [st], a);
  }

  /** From SEND_DATA with something in flight to the client. */
  lemma FromSpeaking(cfg: Config, s: Sys)
    requires ConfigOk(cfg) && Inv(cfg, s) && R.Live(s.client) && s.server.phase == S.SendData && s.toClient != multiset{}
    ensures CanComplete(s)
  {
    Facts(cfg, s);
    if s.server.ring.bottom < s.server.ring.middle || s.server.file != [] {
      FromSending(cfg, s);
    } else {
      NoEofYet(cfg, s);
      var t, steps := Speak(cfg, s);
      Facts(cfg, t);
      FromSendData(cfg, t);
      MovesBack(s, steps, t);
    }
  }

  lemma FromSendPhase(cfg: Config, s: Sys)
    requires ConfigOk(cfg) && Inv(cfg, s) && s.server.phase == S.SendData && Completable(s)
    ensures CanComplete(s)
  {
    Facts(cfg, s);
    hide Inv, CanComplete, Moves;
    var m := s.server.ring.middle;
    if s.server.ring.bottom < m || s.server.file != [] {
      FromSending(cfg, s);
    } else if s.toClient != multiset{} {
      FromSpeaking(cfg, s);
    } else if m > cfg.size {
      var t, steps := SendTurn(cfg, s);
      FromIdleWait(cfg, t);
      MovesBack(s, steps, t);
    } else if Rr(m) in s.toServer {
      FromSendData(cfg, s);
    } else {
      var p :| p in s.toServer && Helps(s.server, p);
      var t, steps := SendTurn(cfg, s);
      FromWaitingReject(cfg, t, p.seqNum);
      MovesBack(s, steps, t);
    }
  }

  /** All that was sent has been acknowledged, and one more acknowledgement of it is in flight. */
  lemma FromLastAck(cfg: Config, s: Sys)
    requires ConfigOk(cfg) && Inv(cfg, s) && R.Live(s.client) && s.server.phase == S.WaitOnAck
    requires s.server.waits < S.RETRIES && s.server.ring.bottom == s.server.ring.middle
    requires Rr(s.server.ring.middle) in s.toServer
    ensures CanComplete(s)
  {
    Facts(cfg, s);
    var k := s.server.ring.middle;
    var a := Duplicate(cfg, s, Rr(k));
    var b := Acknowledge(cfg, a, k);
    hide Inv, CanComplete, Moves;
    if b.server.phase == S.Bye { FinishBye(cfg, b); } else { FromSendData(cfg, b); }
    MovesBack(a, [ServerWait(Intact(Rr(k))), ServerProcess], b);
    MovesBack(s, [DupToServer(Rr(k))], a);
  }

  /** From WAIT_ON_ACK with two turns left. */
  lemma FromPatientWait(cfg: Config, s: Sys)
    requires ConfigOk(cfg) && Inv(cfg, s) && s.server.phase == S.WaitOnAck && s.server.waits + 2 <= S.RETRIES
    requires Completable(s)
    ensures CanComplete(s)
  {
    Facts(cfg, s);
    hide Inv, CanComplete, Moves;
    if s.server.ring.bottom < s.server.ring.middle {
      FromWait(cfg, s);
    } else if s.server.ring.middle > cfg.size {
      FromIdleWait(cfg, s);
    } else if s.toClient != multiset{} {
      FromIdleSpeaking(cfg, s);
    } else {
      var p :| p in s.toServer && Helps(s.server, p);
      FromHelp(cfg, s, p);
    }
  }

  lemma FromIdleSpeaking(cfg: Config, s: Sys)
    requires ConfigOk(cfg) && Inv(cfg, s) && R.Live(s.client) && s.server.phase == S.WaitOnAck
    requires s.server.waits < S.RETRIES && s.server.ring.bottom == s.server.ring.middle && s.toClient != multiset{}
    ensures CanComplete(s)
  {
    hide Inv, CanComplete, Moves, Index;
    Facts(cfg, s);
    NoEofYet(cfg, s);
    var t, steps := Speak(cfg, s);
    Facts(cfg, t);
    FromLastAck(cfg, t);
    MovesBack(s, steps, t);
  }

  lemma FromHelp(cfg: Config, s: Sys, p: Packet)
    requires ConfigOk(cfg) && Inv(cfg, s) && R.Live(s.client) && s.server.phase == S.WaitOnAck
    requires s.server.waits < S.RETRIES && s.server.ring.bottom == s.server.ring.middle
    requires p in s.toServer && Helps(s.server, p)
    ensures CanComplete(s)
  {
    Facts(cfg, s);
    hide Inv, CanComplete, Moves;
    if p.flag == SREJ {
      FromWaitingReject(cfg, s, p.seqNum);
    } else if p == Rr(s.server.ring.middle) {
      FromLastAck(cfg, s);
    } else {
      var t := Acknowledge(cfg, s, p.seqNum);
      FromSending(cfg, t);
      MovesBack(s, [ServerWait(Intact(p)), ServerProcess], t);
    }
  }

  lemma FromWaitPhase(cfg: Config, s: Sys)
    requires ConfigOk(cfg) && Inv(cfg, s) && s.server.phase == S.WaitOnAck && Completable(s)
    ensures CanComplete(s)
  {
    hide Inv, CanComplete, Moves, Completable, Helps, HelpInFlight, Index;
    WaitCompletable(s);
    if s.server.waits + 2 <= S.RETRIES {
      FromPatientWait(cfg, s);
    } else if s.toServer != multiset{} {
      FromHeard(cfg, s);
    } else {
      NoEofYet(cfg, s);
      var t, steps := Speak(cfg, s);
      Facts(cfg, s);
      Facts(cfg, t);
      if !Ahead(t.server.ring) { AnswerHelps(t); }
      WaitCompletable(t);
      FromHeard(cfg, t);
      MovesBack(s, steps, t);
    }
  }

  lemma AnswerHelps(s: Sys)
    requires Rr(s.server.ring.middle) in s.toServer
    ensures HelpInFlight(s)
  {
    assert Helps(s.server, Rr(s.server.ring.middle));
  }

  lemma FromHeard(cfg: Config, s: Sys)
    requires ConfigOk(cfg) && Inv(cfg, s) && s.server.phase == S.WaitOnAck && Completable(s) && s.toServer != multiset{}
    ensures CanComplete(s)
  {
    var p :| p in s.toServer;
    var t := s.(server := s.server.(waits := 0));
    assert Inv(cfg, t) by {
      assert LinkInv(cfg, s);
      assert forall q :: ToClientOk(cfg, t, q) == ToClientOk(cfg, s, q);
      assert forall q :: ToServerOk(cfg, t, q) == ToServerOk(cfg, s, q);
    }
    FromPatientWait(cfg, t);
    Recount(cfg, s, p);
  }

  lemma FromProcessPhase(cfg: Config, s: Sys)
    requires ConfigOk(cfg) && Inv(cfg, s) && s.server.phase == S.Process && Completable(s)
    ensures CanComplete(s)
  {
    Facts(cfg, s);
    if s.inbox.Got? && s.inbox.packet.flag == SREJ {
      var t := ReadReject(cfg, s, s.inbox.packet.seqNum);
      FromSpeaking(cfg, t);
      MovesBack(s, [ServerProcess], t);
    } else {
      var t := Apply(s, ServerProcess);
      StepKeepsInv(cfg, s, ServerProcess);
      OneMove(s, ServerProcess);
      AfterProcess(cfg, s);
      hide CanComplete, Moves, Apply, Completable;
      if t.server.phase == S.Bye { FinishBye(cfg, t); }
      else if t.server.phase == S.SendData { FromSendPhase(cfg, t); }
      else { FromPatientWait(cfg, t); }
      MovesBack(s, [ServerProcess], t);
    }
  }

  lemma AfterProcess(cfg: Config, s: Sys)
    requires ConfigOk(cfg) && Inv(cfg, s) && s.server.phase == S.Process && Completable(s)
    requires !(s.inbox.Got? && s.inbox.packet.flag == SREJ) && Enabled(s, ServerProcess)
    ensures var t := Apply(s, ServerProcess);
            && t.server.waits == 0 && t.server.byes == 0 && Completable(t)
            && (t.server.phase == S.Bye || t.server.phase == S.SendData || t.server.phase == S.WaitOnAck)
            && R.Live(t.client)
  {
    hide Inv, Index, Cleared, S.SenderOk, Completable, HelpInFlight;
    Facts(cfg, s);
    ProcessCounts(cfg, s);
    ProcessCompletable(s);
    var d := S.OnProcess(s.server, s.inbox).0;
    var t := s.(server := d, toClient := s.toClient + multiset([]), inbox := Silence);
    assert Apply(s, ServerProcess) == t && t.toClient == s.toClient;
    assert d.ring.middle == s.server.ring.middle && |d.ring.slots| == |s.server.ring.slots|;
    SameMessages(s, t);
    if d.phase == S.WaitOnAck { WaitCompletable(t); }
    else if d.phase == S.SendData { SendCompletable(t); }
    else { LiveByeCompletable(t); }
  }

  lemma ProcessCounts(cfg: Config, s: Sys)
    requires ConfigOk(cfg) && Inv(cfg, s) && s.server.phase == S.Process
    ensures s.server.waits == s.server.byes == 0
  {
  }

  lemma SameMessages(s: Sys, t: Sys)
    requires t.toClient == s.toClient && t.toServer == s.toServer
    requires t.server.file == s.server.file && t.server.ring.middle == s.server.ring.middle
    ensures HelpInFlight(t) == HelpInFlight(s)
  {
    assert forall p :: Helps(s.server, p) == Helps(t.server, p);
  }

  lemma LiveByeCompletable(s: Sys)
    requires s.server.phase == S.Bye && s.server.byes < S.RETRIES && R.Live(s.client)
    ensures Completable(s)
  {
  }

  /** From BYE with a client that lives or has answered. */
  lemma FromBye(cfg: Config, s: Sys)
    requires ConfigOk(cfg) && Inv(cfg, s) && s.server.phase == S.Bye && Completable(s)
    ensures CanComplete(s)
  {
    if R.Live(s.client) {
      FinishBye(cfg, s);
    } else {
      var t := SayEof(cfg, s);
      ByeMeansAllReceived(cfg, s);
      FromAnswered(cfg, t);
      MovesBack(s, [ServerBye], t);
    }
  }

  lemma FromAnswered(cfg: Config, s: Sys)
    requires ConfigOk(cfg) && Inv(cfg, s) && s.server.phase == S.ByeWait
    requires s.client.phase == R.Done(R.EndOfFile) && Rr(|Chunks(cfg)| + 2) in s.toServer
    ensures CanComplete(s)
  {
    var st := ServerByeWait(Intact(Rr(|Chunks(cfg)| + 2)));
    ByeMeansAllReceived(cfg, s);
    var t := Apply(s, st);
    OneMove(s, st);
    assert Moves(t, [], t) && Complete(t);
    MovesBack(s, [st], t);
  }

  /** The server hears nothing, or something damaged, and is back in BYE. */
  lemma FromByeAgain(cfg: Config, s: Sys, pick: Pick)
    requires ConfigOk(cfg) && Inv(cfg, s) && s.server.phase == S.ByeWait && R.Live(s.client)
    requires if pick == NoPick then s.server.byes < S.RETRIES else pick.Corrupt? && pick.p in s.toServer
    ensures CanComplete(s)
  {
    var st := ServerByeWait(pick);
    StepKeepsInv(cfg, s, st);
    OneMove(s, st);
    FinishBye(cfg, Apply(s, st));
    MovesBack(s, [st], Apply(s, st));
  }

  lemma FromByeWait(cfg: Config, s: Sys)
    requires ConfigOk(cfg) && Inv(cfg, s) && s.server.phase == S.ByeWait && Completable(s)
    ensures CanComplete(s)
  {
    ByeMeansAllReceived(cfg, s);
    if !R.Live(s.client) {
      FromAnswered(cfg, s);
    } else if s.server.byes < S.RETRIES {
      FromByeAgain(cfg, s, NoPick);
    } else if s.toServer != multiset{} {
      var p :| p in s.toServer;
      FromByeAgain(cfg, s, Corrupt(p));
    } else if Eof(|Chunks(cfg)| + 1) in s.toClient {
      var t := AnswerEof(cfg, s);
      FromAnswered(cfg, t);
      MovesBack(s, [ClientTurn(Intact(Eof(|Chunks(cfg)| + 1)))], t);
    } else {
      var t, steps := Speak(cfg, s);
      FromByeAgain(cfg, t, Corrupt(Rr(t.client.next)));
      MovesBack(s, steps, t);
    }
  }

  lemma FromPolling(cfg: Config, s: Sys)
    requires ConfigOk(cfg) && Inv(cfg, s) && s.server.phase == S.Polling && Completable(s)
    ensures CanComplete(s)
  {
    var st := ServerPoll(NoPick);
    StepKeepsInv(cfg, s, st);
    OneMove(s, st);
    var t := Apply(s, st);
    Facts(cfg, s);
    assert t == s.(server := s.server.(phase := S.SendData));
    hide Inv, Apply, CanComplete, Moves;
    FromSendPhase(cfg, t);
    MovesBack(s, [st], t);
  }

  lemma FromCompletable(cfg: Config, s: Sys)
    requires ConfigOk(cfg) && Inv(cfg, s) && Completable(s)
    ensures CanComplete(s)
  {
    match s.server.phase
    case SendData => FromSendPhase(cfg, s);
    case Polling => FromPolling(cfg, s);
    case Process => FromProcessPhase(cfg, s);
    case WaitOnAck => FromWaitPhase(cfg, s);
    case Bye => FromBye(cfg, s);
    case ByeWait => FromByeWait(cfg, s);
    case Done(_) => assert Moves(s, [], s) && Complete(s);
    case Aborted =>
  }

  /**
   * Of every state that a transfer can reach: whether some run from it finishes the transfer is decided by who is
   * still there, the two counters, the window and the messages in flight.
   */
  lemma CanCompleteIff(cfg: Config, s: Sys)
    requires Reachable(cfg, s)
    ensures CanComplete(s) <==> Completable(s)
  {
    ReachableInv(cfg, s);
    CompletesIff(cfg, s);
  }

  lemma CompletesIff(cfg: Config, s: Sys)
    requires ConfigOk(cfg) && Inv(cfg, s)
    ensures CanComplete(s) <==> Completable(s)
  {
    hide Inv, Completable, Complete;
    if Completable(s) {
      FromCompletable(cfg, s);
    } else {
      forall steps | IsRun(s, steps) ensures !Complete(After(s, steps)) {
        LostNeverCompletes(cfg, s, steps);
      }
    }
  }
}
