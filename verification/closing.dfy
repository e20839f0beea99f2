/** The BYE phase ends: over a link that does not duplicate, bye() is called a bounded number of times. */
module Closing {
  import opened Packets
  import opened Windows
  import opened Protocol
  import opened Safety
  import opened Progress
  import opened Faultless
  import S = Server
  import R = Rcopy

  predicate Duplicates(st: Step) { st.DupToClient? || st.DupToServer? }

  /** How many more messages END_OF_FILE packets can still draw from the client. */
  function Say(c: R.Receiver): nat {
    match c.phase
    case RecvData => 2
    case Missing => 1
    case Done(_) => 0
  }

  /** Answers in flight, stale packets that can still draw one, and what the client can say of itself. */
  ghost function Backlog(cfg: Config, s: Sys): int
    requires ConfigOk(cfg)
  {
    |s.toServer| + |s.toClient| - s.toClient[Eof(|Chunks(cfg)| + 1)] + Say(s.client)
  }

  /** A bound on the calls of bye() still to come. */
  ghost function ByesLeft(cfg: Config, s: Sys): int
    requires ConfigOk(cfg)
  {
    if s.server.phase == S.Bye || s.server.phase == S.ByeWait
    then (S.RETRIES + 1) * (Backlog(cfg, s) + 1) - s.server.byes
    else 0
  }

  lemma TakeOne(pool: multiset<Packet>, p: Packet, e: Packet)
    requires p in pool
    ensures |pool - multiset{p}| == |pool| - 1
    ensures |pool - multiset{p}| - (pool - multiset{p})[e] == |pool| - pool[e] - (if p == e then 0 else 1)
  {
  }

  lemma {:induction false} EofsAreSome(pool: multiset<Packet>, e: Packet)
    ensures |pool| >= pool[e]
    decreases |pool|
  {
    if e in pool {
      EofsAreSome(pool - multiset{e}, e);
    }
  }

  lemma BacklogNotNegative(cfg: Config, s: Sys)
    requires ConfigOk(cfg)
    ensures Backlog(cfg, s) >= 0
  {
    EofsAreSome(s.toClient, Eof(|Chunks(cfg)| + 1));
  }

  /** In the BYE phase the client answers a stale packet at most once, and END_OF_FILE at most as often as it can say. */
  lemma ClientSaysLess(c: R.Receiver, ev: Arrival, e: nat)
    requires R.ReceiverOk(c) && R.Live(c) && c.next == e
    requires ev.Got? ==> ev.packet == Eof(e) || (ev.packet.flag != END_OF_FILE && ev.packet.seqNum < e)
    ensures var (d, out) := R.OnArrival(c, ev);
            |out| + Say(d) <= Say(c) + (if ev.Got? && ev.packet != Eof(e) then 1 else 0) && |out| <= 1
  {
  }

  lemma ClientTurnBacklog(cfg: Config, s: Sys, pick: Pick)
    requires ConfigOk(cfg) && Inv(cfg, s) && ByeBegun(s.server) && Enabled(s, ClientTurn(pick))
    ensures Backlog(cfg, Apply(s, ClientTurn(pick))) <= Backlog(cfg, s)
  {
    var n := |Chunks(cfg)| + 1;
    WhatArrives(cfg, s, pick);
    ByeMeansAllReceived(cfg, s);
    hide Inv, R.OnRecvData, R.OnMissing;
    if pick != NoPick { TakeOne(s.toClient, pick.p, Eof(n)); }
    ClientSaysLess(s.client, ArrivalOf(pick), n);
    var out := R.OnArrival(s.client, ArrivalOf(pick)).1;
    assert |s.toServer + multiset(out)| == |s.toServer| + |out|;
  }

  lemma ServerByeBacklog(cfg: Config, s: Sys)
    requires ConfigOk(cfg) && Inv(cfg, s) && Enabled(s, ServerBye)
    ensures Backlog(cfg, Apply(s, ServerBye)) == Backlog(cfg, s) && ByeBegun(Apply(s, ServerBye).server)
  {
    var e := Eof(|Chunks(cfg)| + 1);
    ByeMeansAllReceived(cfg, s);
    assert multiset([e]) == multiset{e};
  }

  lemma ServerByeWaitBacklog(cfg: Config, s: Sys, pick: Pick)
    requires ConfigOk(cfg) && Inv(cfg, s) && Enabled(s, ServerByeWait(pick))
    ensures Backlog(cfg, Apply(s, ServerByeWait(pick))) == Backlog(cfg, s) - (if pick != NoPick then 1 else 0)
    ensures ByeBegun(Apply(s, ServerByeWait(pick)).server)
  {
    hide Inv;
    if pick != NoPick { TakeOne(s.toServer, pick.p, pick.p); }
  }

  lemma DropBacklog(cfg: Config, s: Sys, p: Packet)
    requires ConfigOk(cfg)
    ensures p in s.toClient ==> Backlog(cfg, s.(toClient := s.toClient - multiset{p})) <= Backlog(cfg, s)
    ensures p in s.toServer ==> Backlog(cfg, s.(toServer := s.toServer - multiset{p})) <= Backlog(cfg, s)
  {
    if p in s.toClient { TakeOne(s.toClient, p, Eof(|Chunks(cfg)| + 1)); }
    if p in s.toServer { TakeOne(s.toServer, p, p); }
  }

  lemma StepBacklog(cfg: Config, s: Sys, st: Step)
    requires ConfigOk(cfg) && Inv(cfg, s) && ByeBegun(s.server) && Enabled(s, st) && !Duplicates(st)
    ensures ByeBegun(Apply(s, st).server)
    ensures Backlog(cfg, Apply(s, st)) <= Backlog(cfg, s) - (if st.ServerByeWait? && st.pick != NoPick then 1 else 0)
  {
    hide Inv, Backlog;
    match st
    case ClientTurn(pick) => ClientTurnBacklog(cfg, s, pick);
    case ServerByeWait(pick) => ServerByeWaitBacklog(cfg, s, pick);
    case ServerBye => ServerByeBacklog(cfg, s);
    case DropToClient(p) => DropBacklog(cfg, s, p);
    case DropToServer(p) => DropBacklog(cfg, s, p);
    case _ =>
  }

  /** Each call of bye() uses up one of those left; no other step adds any. */
  lemma StepByes(cfg: Config, s: Sys, st: Step)
    requires ConfigOk(cfg) && Inv(cfg, s) && ByeBegun(s.server) && Enabled(s, st) && !Duplicates(st)
    ensures ByesLeft(cfg, Apply(s, st)) + (if st.ServerBye? then 1 else 0) <= ByesLeft(cfg, s)
  {
    StepBacklog(cfg, s, st);
    BacklogNotNegative(cfg, s);
    BacklogNotNegative(cfg, Apply(s, st));
  }

  function ByeCalls(steps: seq<Step>): nat {
    if steps == [] then 0 else (if steps[0].ServerBye? then 1 else 0) + ByeCalls(steps[1..])
  }

  lemma {:induction false} RunByes(cfg: Config, s: Sys, steps: seq<Step>)
    requires ConfigOk(cfg) && Inv(cfg, s) && ByeBegun(s.server) && IsRun(s, steps)
    requires forall i :: 0 <= i < |steps| ==> !Duplicates(steps[i])
    ensures ByesLeft(cfg, After(s, steps)) + ByeCalls(steps) <= ByesLeft(cfg, s)
    ensures Inv(cfg, After(s, steps)) && ByeBegun(After(s, steps).server)
    decreases |steps|
  {
    hide Inv, Apply, Enabled, ByesLeft, ByeBegun;
    if steps != [] {
      StepBacklog(cfg, s, steps[0]);
      StepByes(cfg, s, steps[0]);
      StepKeepsInv(cfg, s, steps[0]);
      assert forall i :: 0 <= i < |steps[1..]| ==> steps[1..][i] == steps[i + 1];
      RunByes(cfg, Apply(s, steps[0]), steps[1..]);
    }
  }

  /**
   * From a reachable BYE state, every run without duplication calls bye() at most 11 times for each message
   * still possible and 11 times more; a run that uses them all up has stopped the server.
   */
  lemma ByeEnds(cfg: Config, s: Sys, steps: seq<Step>)
    requires Reachable(cfg, s) && s.server.phase == S.Bye && IsRun(s, steps)
    requires forall i :: 0 <= i < |steps| ==> !Duplicates(steps[i])
    ensures ByeCalls(steps) <= (S.RETRIES + 1) * (Backlog(cfg, s) + 1) - s.server.byes
    ensures ByeCalls(steps) == (S.RETRIES + 1) * (Backlog(cfg, s) + 1) - s.server.byes ==>
              After(s, steps).server.phase.Done?
  {
    ReachableInv(cfg, s);
    RunByes(cfg, s, steps);
    BacklogNotNegative(cfg, After(s, steps));
  }

  // ---- The whole run, not only the calls of bye() ----

  /** A bound on the steps still to come: calls of bye(), datagrams in flight and the client's own end. */
  ghost function StepsLeft(cfg: Config, s: Sys): int
    requires ConfigOk(cfg)
  {
    4 * ByesLeft(cfg, s) + 2 * |s.toClient| + |s.toServer|
    + (if s.server.phase == S.ByeWait then 1 else 0) + (if R.Live(s.client) then 1 else 0)
  }

  /** A client turn turns at most one datagram into one answer, and a silent one ends the client. */
  lemma ClientTurnShortens(cfg: Config, s: Sys, pick: Pick)
    requires ConfigOk(cfg) && Inv(cfg, s) && ByeBegun(s.server) && Enabled(s, ClientTurn(pick))
    ensures var t := Apply(s, ClientTurn(pick));
            2 * |t.toClient| + |t.toServer| + (if R.Live(t.client) then 1 else 0) <
            2 * |s.toClient| + |s.toServer| + (if R.Live(s.client) then 1 else 0)
  {
    WhatArrives(cfg, s, pick);
    ByeMeansAllReceived(cfg, s);
    hide Inv, S.SenderOk;
    if pick == NoPick {
      assert R.OnArrival(s.client, Silence) == (s.client.(phase := R.Done(R.TimedOut)), []);
    } else {
      TakeOne(s.toClient, pick.p, pick.p);
      ClientSaysLess(s.client, ArrivalOf(pick), |Chunks(cfg)| + 1);
      hide R.OnArrival;
      var out := R.OnArrival(s.client, ArrivalOf(pick)).1;
      assert |s.toServer + multiset(out)| == |s.toServer| + |out|;
    }
  }

  lemma StepShortens(cfg: Config, s: Sys, st: Step)
    requires ConfigOk(cfg) && Inv(cfg, s) && ByeBegun(s.server) && Enabled(s, st) && !Duplicates(st)
    ensures StepsLeft(cfg, Apply(s, st)) < StepsLeft(cfg, s)
  {
    StepByes(cfg, s, st);
    match st
    case ClientTurn(pick) => ClientTurnShortens(cfg, s, pick);
    case DropToClient(p) => TakeOne(s.toClient, p, p);
    case DropToServer(p) => TakeOne(s.toServer, p, p);
    case ServerByeWait(pick) => ByeWaitShortens(cfg, s, pick);
    case ServerBye => ByeShortens(cfg, s);
    case _ =>
  }

  lemma ByeWaitShortens(cfg: Config, s: Sys, pick: Pick)
    requires ConfigOk(cfg) && Inv(cfg, s) && Enabled(s, ServerByeWait(pick))
    ensures var t := Apply(s, ServerByeWait(pick));
            t.client == s.client && t.toClient == s.toClient && |t.toServer| <= |s.toServer| && t.server.phase != S.ByeWait
  {
    hide Inv;
    if pick != NoPick { TakeOne(s.toServer, pick.p, pick.p); }
  }

  lemma ByeShortens(cfg: Config, s: Sys)
    requires ConfigOk(cfg) && Inv(cfg, s) && Enabled(s, ServerBye)
    ensures var t := Apply(s, ServerBye);
            t.client == s.client && |t.toClient| == |s.toClient| + 1 && t.toServer == s.toServer
  {
    hide Inv;
    assert |multiset(S.OnBye(s.server).1)| == 1;
  }

  lemma {:induction false} RunShortens(cfg: Config, s: Sys, steps: seq<Step>)
    requires ConfigOk(cfg) && Inv(cfg, s) && ByeBegun(s.server) && IsRun(s, steps)
    requires forall i :: 0 <= i < |steps| ==> !Duplicates(steps[i])
    ensures StepsLeft(cfg, After(s, steps)) + |steps| <= StepsLeft(cfg, s)
    ensures Inv(cfg, After(s, steps))
    decreases |steps|
  {
    hide Inv, Apply, Enabled, StepsLeft, ByeBegun;
    if steps != [] {
      StepBacklog(cfg, s, steps[0]);
      StepShortens(cfg, s, steps[0]);
      StepKeepsInv(cfg, s, steps[0]);
      assert forall i :: 0 <= i < |steps[1..]| ==> steps[1..][i] == steps[i + 1];
      RunShortens(cfg, Apply(s, steps[0]), steps[1..]);
    }
  }

  /** From a reachable BYE state every run without duplication, of whatever steps, is bounded in length. */
  lemma ByeRunsEnd(cfg: Config, s: Sys, steps: seq<Step>)
    requires Reachable(cfg, s) && s.server.phase == S.Bye && IsRun(s, steps)
    requires forall i :: 0 <= i < |steps| ==> !Duplicates(steps[i])
    ensures |steps| <= 4 * ((S.RETRIES + 1) * (Backlog(cfg, s) + 1) - s.server.byes)
                       + 2 * |s.toClient| + |s.toServer| + (if R.Live(s.client) then 1 else 0)
  {
    ReachableInv(cfg, s);
    RunShortens(cfg, s, steps);
    StepsLeftNotNegative(cfg, After(s, steps));
  }

  lemma StepsLeftNotNegative(cfg: Config, s: Sys)
    requires ConfigOk(cfg) && Inv(cfg, s)
    ensures StepsLeft(cfg, s) >= 0
  {
    BacklogNotNegative(cfg, s);
  }

  // ---- With duplication, when is there a bound? ----

  /** Some run calls bye() k times or more. */
  ghost predicate CallsBye(s: Sys, k: nat) {
    exists steps :: IsRun(s, steps) && ByeCalls(steps) >= k
  }

  /** Any number of calls of bye() can follow. */
  ghost predicate ByesUnbounded(s: Sys) { forall k: nat :: CallsBye(s, k) }

  function Lap(p: Packet): seq<Step> { [DupToServer(p), ServerBye, ServerByeWait(Corrupt(p))] }

  /** A pending message is duplicated, END_OF_FILE sent, and one copy read as damaged: BYE again, the count reset. */
  lemma ByeLap(cfg: Config, s: Sys, p: Packet) returns (t: Sys)
    requires ConfigOk(cfg) && Inv(cfg, s) && s.server.phase == S.Bye && s.server.byes < S.RETRIES && p in s.toServer
    ensures Inv(cfg, t) && t.server.phase == S.Bye && t.server.byes == 0 && p in t.toServer
    ensures Moves(s, Lap(p), t)
  {
    var a := Duplicate(cfg, s, p);
    var b := SayEof(cfg, a);
    t := HearDamaged(cfg, b, p);
    hide Moves;
    var st := ServerByeWait(Corrupt(p));
    MovesCompose(s, [DupToServer(p)], a, [ServerBye], b);
    MovesCompose(s, [DupToServer(p)] + [ServerBye], b, [st], t);
    assert [DupToServer(p)] + [ServerBye] + [st] == Lap(p);
  }

  lemma HearDamaged(cfg: Config, s: Sys, p: Packet) returns (t: Sys)
    requires ConfigOk(cfg) && Inv(cfg, s) && s.server.phase == S.ByeWait && p in s.toServer
    ensures Inv(cfg, t) && t == s.(server := s.server.(phase := S.Bye, byes := 0), toServer := s.toServer - multiset{p})
    ensures Moves(s, [ServerByeWait(Corrupt(p))], t)
  {
    var st := ServerByeWait(Corrupt(p));
    t := Apply(s, st);
    StepKeepsInv(cfg, s, st);
    OneMove(s, st);
  }

  lemma {:induction false} ByeCallsAdd(a: seq<Step>, b: seq<Step>)
    ensures ByeCalls(a + b) == ByeCalls(a) + ByeCalls(b)
  {
    if a == [] {
      assert a + b == b;
    } else {
      ByeCallsAdd(a[1..], b);
      assert (a + b)[1..] == a[1..] + b;
    }
  }

  lemma OneCallPerLap(p: Packet)
    ensures ByeCalls(Lap(p)) == 1
  {
    ByeCallsAdd([DupToServer(p)], [ServerBye]);
    ByeCallsAdd([DupToServer(p)] + [ServerBye], [ServerByeWait(Corrupt(p))]);
    assert [DupToServer(p)] + [ServerBye] + [ServerByeWait(Corrupt(p))] == Lap(p);
  }

  /** One message in flight, the final answer included, is enough for any number of calls. */
  lemma {:induction false} Laps(cfg: Config, s: Sys, p: Packet, laps: nat) returns (steps: seq<Step>)
    requires ConfigOk(cfg) && Inv(cfg, s) && s.server.phase == S.Bye && s.server.byes < S.RETRIES && p in s.toServer
    ensures IsRun(s, steps) && ByeCalls(steps) == laps
    decreases laps
  {
    hide Apply, Enabled;
    if laps == 0 {
      steps := [];
    } else {
      var t := ByeLap(cfg, s, p);
      var rest := Laps(cfg, t, p, laps - 1);
      MovesCompose(s, Lap(p), t, rest, After(t, rest));
      ByeCallsAdd(Lap(p), rest);
      OneCallPerLap(p);
      steps := Lap(p) + rest;
    }
  }

  /** A live client supplies a message: its answer to END_OF_FILE, duplicated and read as damaged. */
  lemma LiveSupplies(cfg: Config, s: Sys) returns (t: Sys, steps: seq<Step>, p: Packet)
    requires ConfigOk(cfg) && Inv(cfg, s) && s.server.phase == S.Bye && s.server.byes < S.RETRIES && R.Live(s.client)
    ensures Inv(cfg, t) && t.server.phase == S.Bye && t.server.byes < S.RETRIES && p in t.toServer
    ensures Moves(s, steps, t)
  {
    var n := |Chunks(cfg)| + 1;
    p := Rr(n + 1);
    var a := SayEof(cfg, s);
    var b := AnswerEof(cfg, a);
    var c := Duplicate(cfg, b, p);
    t := HearDamaged(cfg, c, p);
    hide Moves;
    MovesCompose(s, [ServerBye], a, [ClientTurn(Intact(Eof(n)))], b);
    steps := [ServerBye] + [ClientTurn(Intact(Eof(n)))];
    MovesCompose(s, steps, b, [DupToServer(p)], c);
    MovesCompose(s, steps + [DupToServer(p)], c, [ServerByeWait(Corrupt(p))], t);
    steps := steps + [DupToServer(p)] + [ServerByeWait(Corrupt(p))];
  }

  /** Nobody is left to say anything to a server in BYE. */
  ghost predicate Silent(s: Sys) {
    && (s.server.phase == S.Bye || s.server.phase == S.ByeWait || s.server.phase.Done?)
    && s.toServer == multiset{} && !R.Live(s.client)
    && (s.server.phase != S.Done(S.NoByeAck) ==> s.server.byes <= S.RETRIES)
  }

  lemma SilentStep(s: Sys, st: Step)
    requires Silent(s) && Enabled(s, st)
    ensures var t := Apply(s, st);
            && Silent(t) && t.server.byes == s.server.byes + (if st.ServerBye? then 1 else 0)
            && (st.ServerBye? ==> s.server.byes <= S.RETRIES)
  {
  }

  lemma {:induction false} SilentRun(s: Sys, steps: seq<Step>)
    requires Silent(s) && IsRun(s, steps)
    ensures ByeCalls(steps) == 0 || ByeCalls(steps) + s.server.byes <= S.RETRIES + 1
    decreases |steps|
  {
    hide Apply, Enabled;
    if steps != [] {
      SilentStep(s, steps[0]);
      SilentRun(Apply(s, steps[0]), steps[1..]);
    }
  }

  /** At the limit of the silent count one call ends the server. */
  lemma {:induction false} LastCall(s: Sys, steps: seq<Step>)
    requires IsRun(s, steps) && (s.server.phase.Done? || (s.server.phase == S.Bye && s.server.byes >= S.RETRIES))
    ensures ByeCalls(steps) <= if s.server.phase.Done? then 0 else 1
    decreases |steps|
  {
    if steps != [] {
      LastCallStep(s, steps[0]);
      hide Apply, Enabled;
      LastCall(Apply(s, steps[0]), steps[1..]);
    }
  }

  lemma LastCallStep(s: Sys, st: Step)
    requires Enabled(s, st) && (s.server.phase.Done? || (s.server.phase == S.Bye && s.server.byes >= S.RETRIES))
    ensures Apply(s, st).server == s.server || (st.ServerBye? && Apply(s, st).server.phase.Done?)
    ensures st.ServerBye? ==> s.server.phase == S.Bye && Apply(s, st).server.phase.Done?
  {
  }

  /**
   * In every reachable BYE state of a link that may duplicate: any number of calls of bye() can follow exactly when
   * the silent count has not reached its limit and a message is in flight to the server or the client is still there.
   */
  lemma ByesUnboundedIff(cfg: Config, s: Sys)
    requires Reachable(cfg, s) && s.server.phase == S.Bye
    ensures ByesUnbounded(s) <==> s.server.byes < S.RETRIES && (s.toServer != multiset{} || R.Live(s.client))
    ensures !ByesUnbounded(s) ==> forall steps | IsRun(s, steps) :: ByeCalls(steps) + s.server.byes <= S.RETRIES + 1
  {
    ReachableInv(cfg, s);
    hide Inv, Reachable, IsRun, R.Live;
    if s.server.byes < S.RETRIES && (s.toServer != multiset{} || R.Live(s.client)) {
      forall k: nat ensures CallsBye(s, k) {
        var steps := ManyByes(cfg, s, k);
      }
    } else {
      forall steps | IsRun(s, steps) ensures ByeCalls(steps) + s.server.byes <= S.RETRIES + 1 {
        FewByes(cfg, s, steps);
      }
      assert !CallsBye(s, S.RETRIES + 2);
    }
  }

  lemma ManyByes(cfg: Config, s: Sys, k: nat) returns (steps: seq<Step>)
    requires ConfigOk(cfg) && Inv(cfg, s) && s.server.phase == S.Bye && s.server.byes < S.RETRIES
    requires s.toServer != multiset{} || R.Live(s.client)
    ensures IsRun(s, steps) && ByeCalls(steps) >= k
  {
    hide Inv, Apply, Enabled;
    if s.toServer != multiset{} {
      var p :| p in s.toServer;
      steps := Laps(cfg, s, p, k);
    } else {
      var t, first, p := LiveSupplies(cfg, s);
      var rest := Laps(cfg, t, p, k);
      MovesCompose(s, first, t, rest, After(t, rest));
      ByeCallsAdd(first, rest);
      steps := first + rest;
    }
  }

  lemma FewByes(cfg: Config, s: Sys, steps: seq<Step>)
    requires ConfigOk(cfg) && Inv(cfg, s) && s.server.phase == S.Bye && IsRun(s, steps)
    requires s.server.byes >= S.RETRIES || (s.toServer == multiset{} && !R.Live(s.client))
    ensures ByeCalls(steps) + s.server.byes <= S.RETRIES + 1
  {
    assert s.server.byes <= S.RETRIES;
    if s.server.byes >= S.RETRIES { LastCall(s, steps); } else { SilentRun(s, steps); }
  }

  // ---- Such a state is reached whenever a transfer can complete ----

  /** A completing run enters BYE with its count at 0 and the client still there. */
  lemma {:induction false} EntersBye(cfg: Config, s: Sys, steps: seq<Step>) returns (t: Sys, first: seq<Step>)
    requires ConfigOk(cfg) && Inv(cfg, s) && !ByeBegun(s.server)
    requires IsRun(s, steps) && Complete(After(s, steps))
    ensures Moves(s, first, t) && Inv(cfg, t) && t.server.phase == S.Bye && t.server.byes == 0 && R.Live(t.client)
    decreases |steps|
  {
    var a := Apply(s, steps[0]);
    StepKeepsInv(cfg, s, steps[0]);
    OneMove(s, steps[0]);
    ByeComesFirst(cfg, s, steps[0]);
    if ByeBegun(a.server) {
      LiveBeforeEnd(cfg, a, steps[1..]);
      t, first := a, [steps[0]];
    } else {
      hide Inv, Apply, Enabled, Complete, ByeBegun;
      var rest;
      t, rest := EntersBye(cfg, a, steps[1..]);
      MovesCompose(s, [steps[0]], a, rest, t);
      first := [steps[0]] + rest;
    }
  }

  lemma ByeComesFirst(cfg: Config, s: Sys, st: Step)
    requires ConfigOk(cfg) && Inv(cfg, s) && !ByeBegun(s.server) && Enabled(s, st)
    ensures var t := Apply(s, st);
            ByeBegun(t.server) ==> t.server.phase == S.Bye && t.server.byes == 0 && t.client == s.client &&
                                   t.client.phase != R.Done(R.EndOfFile)
  {
    assert s.client.phase != R.Done(R.EndOfFile) && s.server.byes == 0;
    if ByeBegun(Apply(s, st).server) {
      OnlyProcessBegins(s, st);
    }
  }

  lemma OnlyProcessBegins(s: Sys, st: Step)
    requires Enabled(s, st) && !ByeBegun(s.server) && ByeBegun(Apply(s, st).server)
    ensures st.ServerProcess? && Apply(s, st).server.phase == S.Bye
  {
    hide Index, SlideTo, Add, R.OnArrival;
  }

  /** A client that has stopped for another reason never reaches END_OF_FILE. */
  lemma {:induction false} LiveBeforeEnd(cfg: Config, s: Sys, steps: seq<Step>)
    requires IsRun(s, steps) && Complete(After(s, steps)) && s.client.phase != R.Done(R.EndOfFile)
    ensures R.Live(s.client)
    decreases |steps|
  {
    if steps != [] && !R.Live(s.client) {
      assert Apply(s, steps[0]).client == s.client;
      hide Apply, Enabled, Complete;
      LiveBeforeEnd(cfg, Apply(s, steps[0]), steps[1..]);
    }
  }

  /** Nothing to send, nothing in flight, and no packet to nudge with; or the server has stopped. */
  ghost predicate Nothing(s: Sys) {
    && s.toClient == s.toServer == multiset{}
    && match s.server.phase
       case SendData => s.server.file == [] && BottomUnused(s.server.ring)
       case WaitOnAck => BottomUnused(s.server.ring)
       case Done(_) => true
       case Aborted => true
       case _ => false
  }

  lemma NothingStep(s: Sys, st: Step)
    requires Nothing(s) && Enabled(s, st)
    ensures Nothing(Apply(s, st)) && !st.ServerBye?
  {
    hide Index;
    match st
    case ServerSend(readOk) => assert S.OnSend(s.server, readOk).1 == [];
    case ServerWait(_) => assert S.OnWait(s.server, false).1 == [];
    case ClientTurn(_) => assert R.OnArrival(s.client, Silence).1 == [];
    case _ =>
  }

  lemma {:induction false} NoByeOfNothing(s: Sys, steps: seq<Step>)
    requires Nothing(s) && IsRun(s, steps)
    ensures ByeCalls(steps) == 0
    decreases |steps|
  {
    if steps != [] {
      NothingStep(s, steps[0]);
      hide Apply, Enabled, Nothing;
      NoByeOfNothing(Apply(s, steps[0]), steps[1..]);
    }
  }

  /** From every initial state: bye() can be called any number of times exactly when the transfer can complete at all. */
  lemma TransferByesUnboundedIff(cfg: Config, s: Sys)
    requires ConfigOk(cfg) && Init(cfg, s)
    ensures ByesUnbounded(s) <==> cfg.file != [] || s.toClient != multiset{}
  {
    InitFacts(cfg, s);
    CanCompleteFromInitIff(cfg, s);
    if CanComplete(s) {
      forall k: nat ensures CallsBye(s, k) {
        var steps := ManyByesFromInit(cfg, s, k);
      }
    } else {
      forall steps | IsRun(s, steps) ensures ByeCalls(steps) == 0 {
        NoByeOfNothing(s, steps);
      }
      assert !CallsBye(s, 1);
    }
  }

  lemma ManyByesFromInit(cfg: Config, s: Sys, k: nat) returns (steps: seq<Step>)
    requires ConfigOk(cfg) && Init(cfg, s) && CanComplete(s)
    ensures IsRun(s, steps) && ByeCalls(steps) >= k
  {
    InitFacts(cfg, s);
    var run :| IsRun(s, run) && Complete(After(s, run));
    var t, first := EntersBye(cfg, s, run);
    hide Inv, Apply, Enabled, Init, Complete;
    var rest := ManyByes(cfg, t, k);
    MovesCompose(s, first, t, rest, After(t, rest));
    ByeCallsAdd(first, rest);
    steps := first + rest;
  }
}
