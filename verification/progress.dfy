/** Moves and completing runs: nudge and reject rounds, and when an answer comes from an unused slot. */
module Progress {
  import opened Packets
  import opened Windows
  import opened Protocol
  import opened Safety
  import S = Server
  import R = Rcopy

  /** Both ends have stopped the way they should. */
  ghost predicate Complete(s: Sys) {
    s.client.phase == R.Done(R.EndOfFile) && s.server.phase == S.Done(S.Acked)
  }

  ghost predicate CanComplete(s: Sys) {
    exists steps :: IsRun(s, steps) && Complete(After(s, steps))
  }

  /** The steps are a run from s to t. */
  ghost predicate Moves(s: Sys, steps: seq<Step>, t: Sys) {
    IsRun(s, steps) && After(s, steps) == t
  }

  lemma OneMove(s: Sys, st: Step)
    requires Enabled(s, st)
    ensures Moves(s, [st], Apply(s, st))
  {
    assert [st][1..] == [];
  }

  lemma {:induction false} MovesCompose(s: Sys, a: seq<Step>, t: Sys, b: seq<Step>, u: Sys)
    requires Moves(s, a, t) && Moves(t, b, u)
    ensures Moves(s, a + b, u)
    decreases |a|
  {
    hide Apply, Enabled;
    if a == [] {
      assert a + b == b;
    } else {
      MovesCompose(Apply(s, a[0]), a[1..], t, b, u);
      assert (a + b)[1..] == a[1..] + b;
    }
  }

  /** Completion is inherited backwards along a run. */
  lemma MovesBack(s: Sys, steps: seq<Step>, t: Sys)
    requires Moves(s, steps, t) && CanComplete(t)
    ensures CanComplete(s)
  {
    var rest :| IsRun(t, rest) && Complete(After(t, rest));
    MovesCompose(s, steps, t, rest, After(t, rest));
  }

  // ---- Single moves ----

  /** A nudge with something in the slot puts that packet in flight. */
  lemma Nudge(cfg: Config, s: Sys) returns (t: Sys)
    requires ConfigOk(cfg) && Inv(cfg, s) && s.server.phase == S.WaitOnAck && s.server.waits < S.RETRIES
    requires S.Slot(s.server.ring, s.server.ring.bottom).Some?
    ensures Inv(cfg, t)
    ensures t == s.(server := s.server.(waits := s.server.waits + 1),
                    toClient := s.toClient + multiset{S.Slot(s.server.ring, s.server.ring.bottom).value})
    ensures Moves(s, [ServerWait(NoPick)], t)
  {
    var st := ServerWait(NoPick);
    t := Apply(s, st);
    StepKeepsInv(cfg, s, st);
    var p := S.Slot(s.server.ring, s.server.ring.bottom).value;
    assert multiset([p]) == multiset{p};
    OneMove(s, st);
  }

  /** A live client that is delivered a number it has passed or expects says how far it has got. */
  lemma Reply(cfg: Config, s: Sys, p: Packet) returns (t: Sys)
    requires ConfigOk(cfg) && Inv(cfg, s) && R.Live(s.client)
    requires p in s.toClient && p.flag == DATA && p.seqNum <= s.client.next
    ensures Inv(cfg, t) && R.Live(t.client)
    ensures t.server == s.server && t.inbox == s.inbox && t.toClient == s.toClient - multiset{p}
    ensures t.client.next >= s.client.next && t.client.next > p.seqNum
    ensures p.seqNum < s.client.next ==> t.client.next == s.client.next
    ensures t.toServer >= s.toServer + multiset{Rr(t.client.next)}
    ensures Moves(s, [ClientTurn(Intact(p))], t)
  {
    var st := ClientTurn(Intact(p));
    t := Apply(s, st);
    StepKeepsInv(cfg, s, st);
    assert ToClientOk(cfg, s, p);
    RepliesWithNext(s.client, p);
    OneMove(s, st);
  }

  lemma RepliesWithNext(c: R.Receiver, p: Packet)
    requires R.ReceiverOk(c) && R.Live(c) && p.flag != END_OF_FILE && p.seqNum <= c.next
    ensures var (d, out) := R.OnArrival(c, Got(p));
            && R.Live(d) && d.next > p.seqNum && d.next >= c.next
            && (p.seqNum < c.next ==> d.next == c.next)
            && Rr(d.next) in out && multiset(out) >= multiset{Rr(d.next)}
  {
    var (d, out) := R.OnArrival(c, Got(p));
    if c.phase == R.Missing && p.seqNum == c.next {
      var held := c.early[p.seqNum := p];
      assert c.next in held;
      assert d.next > c.next;
    }
    assert out[|out| - 1] == Rr(d.next);
  }

  /** The server reads an acknowledgement and slides to it. */
  lemma Acknowledge(cfg: Config, s: Sys, k: nat) returns (t: Sys)
    requires ConfigOk(cfg) && Inv(cfg, s) && s.server.phase == S.WaitOnAck && s.server.waits < S.RETRIES
    requires Rr(k) in s.toServer && 1 <= k <= s.client.next
    ensures Inv(cfg, t)
    ensures t.client == s.client && t.toClient == s.toClient && t.toServer == s.toServer - multiset{Rr(k)}
    ensures t.server.ring.bottom == if k > s.server.ring.bottom then k else s.server.ring.bottom
    ensures t.server.ring.middle == s.server.ring.middle && t.server.ring.top + 1 == t.server.ring.bottom + cfg.size
    ensures k <= s.server.ring.bottom ==> t.server.ring == s.server.ring && t.inbox == s.inbox
    ensures t.server.eof == s.server.eof && t.server.file == s.server.file && t.server.waits == t.server.byes == 0
    ensures t.server.phase == if s.server.eof == Some(k) then S.Bye else S.SendData
    ensures Moves(s, [ServerWait(Intact(Rr(k))), ServerProcess], t)
  {
    var st := ServerWait(Intact(Rr(k)));
    var u := Apply(s, st);
    StepKeepsInv(cfg, s, st);
    t := Apply(u, ServerProcess);
    StepKeepsInv(cfg, u, ServerProcess);
    OneMove(s, st);
    OneMove(u, ServerProcess);
    MovesCompose(s, [st], u, [ServerProcess], t);
    assert [st] + [ServerProcess] == [st, ServerProcess];
  }

  lemma SayEof(cfg: Config, s: Sys) returns (t: Sys)
    requires ConfigOk(cfg) && Inv(cfg, s) && s.server.phase == S.Bye && s.server.byes < S.RETRIES
    ensures Inv(cfg, t) && t.server.phase == S.ByeWait && t.client == s.client && t.server.eof == s.server.eof
    ensures t.toServer == s.toServer
    ensures Eof(|Chunks(cfg)| + 1) in t.toClient
    ensures Moves(s, [ServerBye], t)
  {
    t := Apply(s, ServerBye);
    StepKeepsInv(cfg, s, ServerBye);
    assert Eof(|Chunks(cfg)| + 1) in multiset([Eof(|Chunks(cfg)| + 1)]);
    OneMove(s, ServerBye);
  }

  lemma AnswerEof(cfg: Config, s: Sys) returns (t: Sys)
    requires ConfigOk(cfg) && Inv(cfg, s) && s.server.phase == S.ByeWait && R.Live(s.client)
    requires Eof(|Chunks(cfg)| + 1) in s.toClient
    ensures Inv(cfg, t) && t.server == s.server && t.client.phase == R.Done(R.EndOfFile)
    ensures Rr(|Chunks(cfg)| + 2) in t.toServer
    ensures Moves(s, [ClientTurn(Intact(Eof(|Chunks(cfg)| + 1)))], t)
  {
    var n := |Chunks(cfg)| + 1;
    var st := ClientTurn(Intact(Eof(n)));
    t := Apply(s, st);
    StepKeepsInv(cfg, s, st);
    assert R.OnArrival(s.client, Got(Eof(n))) == (s.client.(phase := R.Done(R.EndOfFile)), [Rr(n + 1)]);
    assert Rr(n + 1) in multiset([Rr(n + 1)]);
    OneMove(s, st);
  }

  /** Once the server is in BYE with a live client, one undisturbed exchange finishes the transfer. */
  lemma FinishBye(cfg: Config, s: Sys)
    requires ConfigOk(cfg) && Inv(cfg, s) && s.server.phase == S.Bye && s.server.byes < S.RETRIES && R.Live(s.client)
    ensures CanComplete(s)
  {
    var a := SayEof(cfg, s);
    var b := AnswerEof(cfg, a);
    var st := ServerByeWait(Intact(Rr(|Chunks(cfg)| + 2)));
    OneMove(b, st);
    assert CanComplete(b);
    MovesBack(a, [ClientTurn(Intact(Eof(|Chunks(cfg)| + 1)))], b);
    MovesBack(s, [ServerBye], a);
  }

  // ---- Completing runs ----

  lemma Duplicate(cfg: Config, s: Sys, p: Packet) returns (t: Sys)
    requires ConfigOk(cfg) && Inv(cfg, s) && p in s.toServer
    ensures Inv(cfg, t) && t == s.(toServer := s.toServer + multiset{p})
    ensures Moves(s, [DupToServer(p)], t)
  {
    t := Apply(s, DupToServer(p));
    StepKeepsInv(cfg, s, DupToServer(p));
    OneMove(s, DupToServer(p));
  }

  /** One nudge, answered and the answer duplicated: two acknowledgements of what the client then expects. */
  lemma NudgeAnswered(cfg: Config, s: Sys, p: Packet) returns (t: Sys, steps: seq<Step>)
    requires ConfigOk(cfg) && Inv(cfg, s) && R.Live(s.client)
    requires s.server.phase == S.WaitOnAck && s.server.waits + 2 <= S.RETRIES
    requires S.Slot(s.server.ring, s.server.ring.bottom) == Some(p) && p.seqNum <= s.client.next
    ensures Inv(cfg, t) && R.Live(t.client)
    ensures t.server == s.server.(waits := s.server.waits + 1)
    ensures t.client.next >= s.client.next && t.client.next > p.seqNum
    ensures t.toServer[Rr(t.client.next)] >= 2
    ensures Moves(s, steps, t)
  {
    hide Moves, Apply;
    SlotIsOriginal(cfg, s.server.ring, s.server.file, s.server.ring.bottom);
    var a := Nudge(cfg, s);
    var b := Reply(cfg, a, p);
    t := Duplicate(cfg, b, Rr(b.client.next));
    MovesCompose(s, [ServerWait(NoPick)], a, [ClientTurn(Intact(p))], b);
    steps := [ServerWait(NoPick)] + [ClientTurn(Intact(p))];
    MovesCompose(s, steps, b, [DupToServer(Rr(b.client.next))], t);
    steps := steps + [DupToServer(Rr(b.client.next))];
  }

  /** One undisturbed turn of send_data(): a chunk goes out, or the server starts to wait. */
  lemma SendTurn(cfg: Config, s: Sys) returns (t: Sys, steps: seq<Step>)
    requires ConfigOk(cfg) && Inv(cfg, s) && s.server.phase == S.SendData
    ensures Inv(cfg, t) && t.client == s.client && t.toServer == s.toServer && t.toClient >= s.toClient
    ensures t.server.ring.bottom == s.server.ring.bottom && t.server.waits == 0
    ensures || (t.server.phase == S.SendData && |t.server.file| < |s.server.file| &&
                t.server.ring.middle == s.server.ring.middle + 1)
            || (t.server.phase == S.WaitOnAck && t.server.ring == s.server.ring &&
                (s.server.ring.middle == s.server.ring.top + 1 || t.server.eof == Some(s.server.ring.middle)))
    ensures Moves(s, steps, t) && forall i :: 0 <= i < |steps| ==> steps[i].ServerSend? || steps[i].ServerPoll?
  {
    hide Inv, Moves, Index, S.SenderOk;
    SendEnabled(cfg, s);
    var st := ServerSend(true);
    t := Apply(s, st);
    StepKeepsInv(cfg, s, st);
    OneMove(s, st);
    steps := [st];
    if t.server.phase == S.Polling {
      var u := t;
      t := PollNothing(cfg, u);
      MovesCompose(s, steps, u, [ServerPoll(NoPick)], t);
      steps := steps + [ServerPoll(NoPick)];
    }
  }

  lemma SendEnabled(cfg: Config, s: Sys)
    requires ConfigOk(cfg) && Inv(cfg, s) && s.server.phase == S.SendData
    ensures Enabled(s, ServerSend(true)) && s.server.waits == 0 && s.server.bufSize >= 1
    ensures s.server.ring.middle <= s.server.ring.top + 1
  {
  }

  lemma PollNothing(cfg: Config, s: Sys) returns (t: Sys)
    requires ConfigOk(cfg) && Inv(cfg, s) && s.server.phase == S.Polling
    ensures Inv(cfg, t) && t == s.(server := s.server.(phase := S.SendData), inbox := Silence)
    ensures Moves(s, [ServerPoll(NoPick)], t)
  {
    t := Apply(s, ServerPoll(NoPick));
    StepKeepsInv(cfg, s, ServerPoll(NoPick));
    OneMove(s, ServerPoll(NoPick));
  }

  /** From WAIT_ON_ACK with data outstanding some run finishes the transfer. */
  lemma FromWait(cfg: Config, s: Sys)
    requires ConfigOk(cfg) && Inv(cfg, s) && R.Live(s.client)
    requires s.server.phase == S.WaitOnAck && s.server.waits + 2 <= S.RETRIES
    requires s.server.ring.bottom < s.server.ring.middle
    ensures CanComplete(s)
    decreases |Chunks(cfg)| + 1 - s.server.ring.bottom, 0, 0
  {
    var a, steps := NudgeAnswered(cfg, s, DataPacket(Chunks(cfg), s.server.ring.bottom));
    var k := a.client.next;
    var b := Acknowledge(cfg, a, k);
    if b.server.phase == S.Bye {
      FinishBye(cfg, b);
    } else {
      FromSendData(cfg, b);
    }
    MovesBack(a, [ServerWait(Intact(Rr(k))), ServerProcess], b);
    MovesBack(s, steps, a);
  }

  /**
   * From SEND_DATA with everything the client has acknowledged and one more acknowledgement in flight:
   * send until the window closes or the file ends, then wait; the spare acknowledgement covers the case
   * that nothing is outstanding.
   */
  lemma FromSendData(cfg: Config, s: Sys)
    requires ConfigOk(cfg) && Inv(cfg, s) && R.Live(s.client)
    requires s.server.phase == S.SendData && s.server.ring.bottom == s.client.next
    requires Rr(s.client.next) in s.toServer
    ensures CanComplete(s)
    decreases |Chunks(cfg)| + 1 - s.server.ring.bottom, 1, |s.server.file|
  {
    var t, steps := SendTurn(cfg, s);
    if t.server.phase == S.SendData {
      FromSendData(cfg, t);
    } else if t.server.ring.bottom < t.server.ring.middle {
      FromWait(cfg, t);
    } else {
      var k := t.client.next;
      var u := Acknowledge(cfg, t, k);
      FinishBye(cfg, u);
      MovesBack(t, [ServerWait(Intact(Rr(k))), ServerProcess], u);
    }
    MovesBack(s, steps, t);
  }

  /** With nothing outstanding but more than a window sent, the nudge repeats an old packet and is answered too. */
  lemma FromIdleWait(cfg: Config, s: Sys)
    requires ConfigOk(cfg) && Inv(cfg, s) && R.Live(s.client)
    requires s.server.phase == S.WaitOnAck && s.server.waits + 2 <= S.RETRIES
    requires s.server.ring.bottom == s.server.ring.middle > cfg.size
    ensures CanComplete(s)
  {
    SlotIsOriginal(cfg, s.server.ring, s.server.file, s.server.ring.bottom);
    var a, steps := NudgeAnswered(cfg, s, S.Slot(s.server.ring, s.server.ring.bottom).value);
    var k := a.client.next;
    var b := Acknowledge(cfg, a, k);
    if b.server.phase == S.Bye {
      FinishBye(cfg, b);
    } else {
      FromSendData(cfg, b);
    }
    MovesBack(a, [ServerWait(Intact(Rr(k))), ServerProcess], b);
    MovesBack(s, steps, a);
  }

  /** With data outstanding and a live client, one intact nudge and its answer bring the server up to the client. */
  lemma NudgeRound(cfg: Config, s: Sys) returns (p: Packet, k: nat, t: Sys)
    requires Reachable(cfg, s) && R.Live(s.client)
    requires s.server.phase == S.WaitOnAck && s.server.waits + 2 <= S.RETRIES
    requires s.server.ring.bottom < s.server.ring.middle
    ensures p.seqNum == s.server.ring.bottom && p.flag == DATA
    ensures Moves(s, [ServerWait(NoPick), ClientTurn(Intact(p)), ServerWait(Intact(Rr(k))), ServerProcess], t)
    ensures t.server.ring.bottom == t.client.next == k > s.server.ring.bottom
  {
    hide Moves, Apply;
    ReachableInv(cfg, s);
    p := DataPacket(Chunks(cfg), s.server.ring.bottom);
    var a := Nudge(cfg, s);
    var b := Reply(cfg, a, p);
    k := b.client.next;
    t := Acknowledge(cfg, b, k);
    MovesThrice(s, ServerWait(NoPick), a, ClientTurn(Intact(p)), b, [ServerWait(Intact(Rr(k))), ServerProcess], t);
    assert [ServerWait(NoPick), ClientTurn(Intact(p))] + [ServerWait(Intact(Rr(k))), ServerProcess]
        == [ServerWait(NoPick), ClientTurn(Intact(p)), ServerWait(Intact(Rr(k))), ServerProcess];
  }

  lemma MovesThrice(s: Sys, x: Step, a: Sys, y: Step, b: Sys, rest: seq<Step>, t: Sys)
    requires Moves(s, [x], a) && Moves(a, [y], b) && Moves(b, rest, t)
    ensures Moves(s, [x, y] + rest, t)
  {
    MovesCompose(s, [x], a, [y], b);
    assert [x] + [y] == [x, y];
    MovesCompose(s, [x, y], b, rest, t);
  }

  /** The server reads a reject of an outstanding number and answers with that number's original packet. */
  lemma AnswerReject(cfg: Config, s: Sys, k: nat) returns (t: Sys)
    requires ConfigOk(cfg) && Inv(cfg, s) && s.server.phase == S.WaitOnAck && s.server.waits < S.RETRIES
    requires Srej(k) in s.toServer && s.server.ring.bottom <= k < s.server.ring.middle
    ensures k <= |Chunks(cfg)| && DataPacket(Chunks(cfg), k) in t.toClient
    ensures Inv(cfg, t) && t.client == s.client && t.server.phase == S.SendData
    ensures Moves(s, [ServerWait(Intact(Srej(k))), ServerProcess], t)
  {
    var st := ServerWait(Intact(Srej(k)));
    var u := Apply(s, st);
    StepKeepsInv(cfg, s, st);
    OneMove(s, st);
    t := ProcessReject(cfg, u, k);
    MovesCompose(s, [st], u, [ServerProcess], t);
    assert [st] + [ServerProcess] == [st, ServerProcess];
  }

  lemma ProcessReject(cfg: Config, s: Sys, k: nat) returns (t: Sys)
    requires ConfigOk(cfg) && Inv(cfg, s) && s.server.phase == S.Process && s.inbox == Got(Srej(k))
    requires s.server.ring.bottom <= k < s.server.ring.middle
    ensures k <= |Chunks(cfg)| && DataPacket(Chunks(cfg), k) in t.toClient
    ensures Inv(cfg, t) && t.client == s.client && t.server.phase == S.SendData
    ensures Moves(s, [ServerProcess], t)
  {
    t := Apply(s, ServerProcess);
    StepKeepsInv(cfg, s, ServerProcess);
    OneMove(s, ServerProcess);
    var p := DataPacket(Chunks(cfg), k);
    assert S.Slot(s.server.ring, k) == Some(p);
    assert p in multiset([p]);
  }

  /** A damaged arrival in RECV_DATA makes the client ask for the number it expects. */
  lemma Reject(cfg: Config, s: Sys, q: Packet) returns (t: Sys)
    requires ConfigOk(cfg) && Inv(cfg, s) && s.client.phase == R.RecvData && q in s.toClient
    ensures Inv(cfg, t) && t.client == s.client.(phase := R.Missing) && t.server == s.server
    ensures Srej(s.client.next) in t.toServer
    ensures Moves(s, [ClientTurn(Corrupt(q))], t)
  {
    var st := ClientTurn(Corrupt(q));
    t := Apply(s, st);
    StepKeepsInv(cfg, s, st);
    OneMove(s, st);
    assert Srej(s.client.next) in multiset([Srej(s.client.next)]);
  }

  /**
   * With the expected number outstanding, a damaged arrival is repaired without waiting for a nudge: the client
   * rejects, the server answers the reject from its ring, and the answer takes the client past that number.
   */
  lemma RejectRound(cfg: Config, s: Sys, q: Packet) returns (p: Packet, t: Sys)
    requires Reachable(cfg, s) && s.client.phase == R.RecvData && q in s.toClient
    requires s.server.phase == S.WaitOnAck && s.server.waits < S.RETRIES && s.client.next < s.server.ring.middle
    ensures p.seqNum == s.client.next && p.flag == DATA
    ensures Moves(s, [ClientTurn(Corrupt(q)), ServerWait(Intact(Srej(s.client.next))), ServerProcess,
                      ClientTurn(Intact(p))], t)
    ensures t.client.next > s.client.next
  {
    hide Moves, Apply;
    ReachableInv(cfg, s);
    var k := s.client.next;
    var a := Reject(cfg, s, q);
    var b := AnswerReject(cfg, a, k);
    p := DataPacket(Chunks(cfg), k);
    t := Reply(cfg, b, p);
    var ask, answer, take := [ClientTurn(Corrupt(q))], [ServerWait(Intact(Srej(k))), ServerProcess], [ClientTurn(Intact(p))];
    MovesCompose(s, ask, a, answer, b);
    MovesCompose(s, ask + answer, b, take, t);
    assert ask + answer + take
        == [ClientTurn(Corrupt(q)), ServerWait(Intact(Srej(k))), ServerProcess, ClientTurn(Intact(p))];
  }

  // ---- When the server's answers come from a slot that was never written ----

  lemma EmptySlotIff(cfg: Config, r: Ring, file: seq<byte>, n: nat)
    requires ConfigOk(cfg) && RingInv(cfg, r, file) && 1 <= n <= r.middle
    ensures S.Slot(r, n).None? <==> n == r.middle <= cfg.size
  {
    if n <= cfg.size { FirstLapSlot(n, cfg.size); }
  }

  /** A nudge aborts the server exactly when nothing is outstanding and the next number's slot has never been used. */
  lemma NudgeAbortsIff(cfg: Config, s: Sys)
    requires Reachable(cfg, s) && s.server.phase == S.WaitOnAck && s.server.waits < S.RETRIES
    ensures Enabled(s, ServerWait(NoPick))
    ensures (Apply(s, ServerWait(NoPick)).server.phase == S.Aborted) <==>
            (s.server.ring.bottom == s.server.ring.middle <= cfg.size)
  {
    ReachableInv(cfg, s);
    EmptySlotIff(cfg, s.server.ring, s.server.file, s.server.ring.bottom);
  }

  /** An SREJ aborts the server exactly when it names the next number to be sent and that slot has never been used. */
  lemma SrejAbortsIff(cfg: Config, s: Sys)
    requires Reachable(cfg, s) && Enabled(s, ServerProcess) && s.inbox.Got? && s.inbox.packet.flag == SREJ
    ensures (Apply(s, ServerProcess).server.phase == S.Aborted) <==>
            (s.inbox.packet.seqNum == s.server.ring.middle <= cfg.size)
  {
    ReachableInv(cfg, s);
    EmptySlotIff(cfg, s.server.ring, s.server.file, s.inbox.packet.seqNum);
  }

  ghost predicate BottomUnused(r: Ring) {
    |r.slots| >= 1 && 1 <= r.bottom && S.Slot(r, r.bottom).None?
  }

  /** From SEND_DATA with something outstanding or left to read some run finishes the transfer. */
  lemma {:induction false} FromSending(cfg: Config, s: Sys)
    requires ConfigOk(cfg) && Inv(cfg, s) && R.Live(s.client) && s.server.phase == S.SendData
    requires s.server.ring.bottom < s.server.ring.middle || s.server.file != []
    ensures CanComplete(s)
    decreases |s.server.file|
  {
    var t, steps := SendTurn(cfg, s);
    if t.server.phase == S.SendData {
      FromSending(cfg, t);
    } else {
      if s.server.file == [] { assert s.server.ring.bottom < s.server.ring.middle; }
      FromWait(cfg, t);
    }
    MovesBack(s, steps, t);
  }
}
