/** How often the server repeats itself before it gives up. */
module Patience {
  import opened Packets
  import opened Protocol
  import opened Safety
  import opened Progress
  import opened Outcome
  import S = Server

  function Times(n: nat, lap: seq<Step>): seq<Step> {
    if n == 0 then [] else lap + Times(n - 1, lap)
  }

  function Copies(p: Packet, n: nat): multiset<Packet> { multiset{}[p := n] }

  lemma OneMoreCopy(pool: multiset<Packet>, p: Packet, n: nat)
    ensures pool + multiset{p} + Copies(p, n) == pool + Copies(p, n + 1)
  {
  }

  lemma Nowhere(s: Sys)
    ensures Moves(s, [], s) && s.toClient + multiset{} == s.toClient
  {
  }

  /** The server after n silent turns of wait_on_ack. */
  ghost function Nudged(s: Sys, p: Packet, n: nat): Sys {
    s.(server := s.server.(waits := s.server.waits + n), toClient := s.toClient + Copies(p, n))
  }

  lemma {:induction false} Nudges(cfg: Config, s: Sys, p: Packet, n: nat)
    requires ConfigOk(cfg) && Inv(cfg, s) && s.server.phase == S.WaitOnAck && s.server.waits + n <= 10
    requires s.server.ring.bottom >= 1 && |s.server.ring.slots| >= 1
    requires S.Slot(s.server.ring, s.server.ring.bottom) == Some(p)
    ensures Moves(s, Times(n, [ServerWait(NoPick)]), Nudged(s, p, n)) && Inv(cfg, Nudged(s, p, n))
    decreases n
  {
    hide Inv, Moves, S.Slot;
    if n == 0 {
      Nowhere(s);
      assert Nudged(s, p, 0) == s;
    } else {
      var t := Nudge(cfg, s);
      Nudges(cfg, t, p, n - 1);
      OneMoreCopy(s.toClient, p, n - 1);
      assert Nudged(t, p, n - 1) == Nudged(s, p, n);
      MovesCompose(s, [ServerWait(NoPick)], t, Times(n - 1, [ServerWait(NoPick)]), Nudged(s, p, n));
    }
  }

  /**
   * A server that waits in silence, with a packet to nudge with, sends that packet until it has done so ten times
   * since it last heard anything, and is still waiting then; its eleventh turn sends nothing and ends the session.
   */
  lemma TenNudges(cfg: Config, s: Sys) returns (p: Packet, t: Sys)
    requires Reachable(cfg, s) && s.server.phase == S.WaitOnAck
    requires s.server.ring.bottom < s.server.ring.middle || s.server.ring.middle > cfg.size
    ensures s.server.waits <= 10
    ensures s.server.ring.bottom < s.server.ring.middle ==>
              1 <= s.server.ring.bottom <= |Chunks(cfg)| && p == DataPacket(Chunks(cfg), s.server.ring.bottom)
    ensures Moves(s, Times(10 - s.server.waits, [ServerWait(NoPick)]), t)
    ensures t == s.(server := s.server.(waits := 10), toClient := s.toClient + Copies(p, 10 - s.server.waits))
    ensures Moves(t, [ServerWait(NoPick)], t.(server := t.server.(phase := S.Done(S.NoAck), waits := 11)))
  {
    hide Inv, Moves, S.Slot, Reachable;
    ReachableInv(cfg, s);
    WaitFacts(cfg, s);
    p := S.Slot(s.server.ring, s.server.ring.bottom).value;
    Nudges(cfg, s, p, 10 - s.server.waits);
    t := Nudged(s, p, 10 - s.server.waits);
    GivesUp(cfg, t);
  }

  lemma WaitFacts(cfg: Config, s: Sys)
    requires ConfigOk(cfg) && Inv(cfg, s) && s.server.phase == S.WaitOnAck
    requires s.server.ring.bottom < s.server.ring.middle || s.server.ring.middle > cfg.size
    ensures s.server.waits <= 10 && s.server.ring.bottom >= 1 && |s.server.ring.slots| >= 1
    ensures S.Slot(s.server.ring, s.server.ring.bottom).Some?
    ensures s.server.ring.bottom < s.server.ring.middle ==>
              s.server.ring.bottom <= |Chunks(cfg)| &&
              S.Slot(s.server.ring, s.server.ring.bottom).value == DataPacket(Chunks(cfg), s.server.ring.bottom)
  {
    EmptySlotIff(cfg, s.server.ring, s.server.file, s.server.ring.bottom);
  }

  lemma GivesUp(cfg: Config, s: Sys)
    requires ConfigOk(cfg) && Inv(cfg, s) && s.server.phase == S.WaitOnAck && s.server.waits == 10
    ensures Moves(s, [ServerWait(NoPick)], s.(server := s.server.(phase := S.Done(S.NoAck), waits := 11)))
  {
    hide Inv, Moves;
    Facts(cfg, s);
    OneMove(s, ServerWait(NoPick));
    Nowhere(s);
  }

  // ---- bye() ----

  /** The system after n rounds of END_OF_FILE and silence. */
  ghost function Dismissed(s: Sys, e: Packet, n: nat): Sys {
    s.(server := s.server.(byes := s.server.byes + n), toClient := s.toClient + Copies(e, n))
  }

  lemma ByeRound(cfg: Config, s: Sys) returns (t: Sys)
    requires ConfigOk(cfg) && Inv(cfg, s) && s.server.phase == S.Bye && s.server.byes < 10 && s.inbox == Silence
    ensures Inv(cfg, t)
    ensures t == s.(server := s.server.(byes := s.server.byes + 1),
                    toClient := s.toClient + multiset{Eof(|Chunks(cfg)| + 1)})
    ensures Moves(s, [ServerBye, ServerByeWait(NoPick)], t)
  {
    hide Inv, Moves;
    ByeMeansAllReceived(cfg, s);
    Facts(cfg, s);
    var a := Apply(s, ServerBye);
    StepKeepsInv(cfg, s, ServerBye);
    Facts(cfg, a);
    t := Apply(a, ServerByeWait(NoPick));
    StepKeepsInv(cfg, a, ServerByeWait(NoPick));
    OneMove(s, ServerBye);
    OneMove(a, ServerByeWait(NoPick));
    MovesCompose(s, [ServerBye], a, [ServerByeWait(NoPick)], t);
    assert [ServerBye] + [ServerByeWait(NoPick)] == [ServerBye, ServerByeWait(NoPick)];
    assert multiset([Eof(|Chunks(cfg)| + 1)]) == multiset{Eof(|Chunks(cfg)| + 1)};
  }

  lemma {:induction false} ByeRounds(cfg: Config, s: Sys, n: nat)
    requires ConfigOk(cfg) && Inv(cfg, s) && s.server.phase == S.Bye && s.server.byes + n <= 10 && s.inbox == Silence
    ensures var e := Eof(|Chunks(cfg)| + 1);
            Moves(s, Times(n, [ServerBye, ServerByeWait(NoPick)]), Dismissed(s, e, n)) && Inv(cfg, Dismissed(s, e, n))
    decreases n
  {
    hide Inv, Moves, Chunks;
    var e, lap := Eof(|Chunks(cfg)| + 1), [ServerBye, ServerByeWait(NoPick)];
    if n == 0 {
      Nowhere(s);
      assert Dismissed(s, e, 0) == s;
    } else {
      var t := ByeRound(cfg, s);
      ByeRounds(cfg, t, n - 1);
      OneMoreCopy(s.toClient, e, n - 1);
      assert Dismissed(t, e, n - 1) == Dismissed(s, e, n);
      MovesCompose(s, lap, t, Times(n - 1, lap), Dismissed(s, e, n));
    }
  }

  /**
   * In silence bye() sends END_OF_FILE ten times since it last heard anything, and is called again; the eleventh call
   * sends it once more and stops.
   */
  lemma TenByes(cfg: Config, s: Sys) returns (t: Sys)
    requires Reachable(cfg, s) && s.server.phase == S.Bye
    ensures s.server.byes <= 10
    ensures Moves(s, Times(10 - s.server.byes, [ServerBye, ServerByeWait(NoPick)]), t)
    ensures t == s.(server := s.server.(byes := 10),
                    toClient := s.toClient + Copies(Packet(|Chunks(cfg)| + 1, 8, []), 10 - s.server.byes))
    ensures Moves(t, [ServerBye], t.(server := t.server.(phase := S.Done(S.NoByeAck), byes := 11),
                                     toClient := t.toClient + multiset{Packet(|Chunks(cfg)| + 1, 8, [])}))
  {
    hide Inv, Moves, Reachable, Chunks;
    ReachableInv(cfg, s);
    ByeCount(cfg, s);
    Facts(cfg, s);
    ByeRounds(cfg, s, 10 - s.server.byes);
    t := Dismissed(s, Eof(|Chunks(cfg)| + 1), 10 - s.server.byes);
    LastBye(cfg, t);
  }

  lemma LastBye(cfg: Config, s: Sys)
    requires ConfigOk(cfg) && Inv(cfg, s) && s.server.phase == S.Bye && s.server.byes == 10
    ensures Moves(s, [ServerBye], s.(server := s.server.(phase := S.Done(S.NoByeAck), byes := 11),
                                     toClient := s.toClient + multiset{Eof(|Chunks(cfg)| + 1)}))
  {
    hide Inv, Moves;
    ByeMeansAllReceived(cfg, s);
    Facts(cfg, s);
    OneMove(s, ServerBye);
    assert multiset([Eof(|Chunks(cfg)| + 1)]) == multiset{Eof(|Chunks(cfg)| + 1)};
  }
}
