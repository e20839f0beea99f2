/** When a completed transfer can leave an output file that differs from the source. */
module Padding {
  import opened Packets
  import opened Windows
  import opened Files
  import opened Protocol
  import opened Safety
  import opened Progress
  import opened Faultless
  import S = Server
  import R = Rcopy

  /** There is a chunk before the last, the window has room for both, and the last is short. */
  ghost predicate ShortLastChunk(cfg: Config)
    requires ConfigOk(cfg)
  {
    cfg.size >= 2 && |Chunks(cfg)| >= 2 && |Chunks(cfg)[|Chunks(cfg)| - 1]| < cfg.bufSize
  }

  /** The last chunk is short exactly when the buffer size does not divide the file's. */
  lemma ShortIff(cfg: Config)
    requires ConfigOk(cfg) && cfg.file != []
    ensures |Chunks(cfg)[|Chunks(cfg)| - 1]| < cfg.bufSize <==> |cfg.file| % cfg.bufSize != 0
  {
    FileLength(cfg);
    var n, last := |Chunks(cfg)|, |Chunks(cfg)[|Chunks(cfg)| - 1]|;
    assert (n - 1) * cfg.bufSize == n * cfg.bufSize - cfg.bufSize;
    if last < cfg.bufSize {
      DivModUnique(|cfg.file|, n - 1, last, cfg.bufSize);
    } else {
      DivModUnique(|cfg.file|, n, 0, cfg.bufSize);
    }
  }

  lemma PadsNowNeeds(cfg: Config, c: R.Receiver, sent: nat, p: Packet)
    requires ConfigOk(cfg) && ClientInv(cfg, c, sent) && PadsNow(cfg, c, p)
    ensures ShortLastChunk(cfg)
  {
    assert |Chunks(cfg)| in c.early;
  }

  /** A step pads a write only for a short last chunk, and no step takes a write back. */
  lemma StepPads(cfg: Config, s: Sys, st: Step)
    requires ConfigOk(cfg) && Inv(cfg, s) && Enabled(s, st)
    ensures Padded(Apply(s, st).client.log) ==> Padded(s.client.log) || ShortLastChunk(cfg)
    ensures s.client.log <= Apply(s, st).client.log
  {
    hide Padded, R.OnArrival, Genuine, ShortLastChunk, PadsNow;
    if st.ClientTurn? {
      WhatArrives(cfg, s, st.pick);
      ClientPads(cfg, s.client, s.server.ring.middle, ArrivalOf(st.pick));
      if st.pick.Intact? && PadsNow(cfg, s.client, st.pick.p) {
        PadsNowNeeds(cfg, s.client, s.server.ring.middle, st.pick.p);
      }
      LogGrows(s.client, ArrivalOf(st.pick));
    }
  }

  lemma {:induction false} RunPads(cfg: Config, s: Sys, steps: seq<Step>)
    requires ConfigOk(cfg) && Inv(cfg, s) && IsRun(s, steps)
    ensures Padded(After(s, steps).client.log) ==> Padded(s.client.log) || ShortLastChunk(cfg)
    ensures s.client.log <= After(s, steps).client.log
    decreases |steps|
  {
    hide Inv, Apply, Enabled, Padded, ShortLastChunk;
    if steps != [] {
      StepPads(cfg, s, steps[0]);
      StepKeepsInv(cfg, s, steps[0]);
      RunPads(cfg, Apply(s, steps[0]), steps[1..]);
    }
  }

  lemma LogGrows(c: R.Receiver, ev: Arrival)
    requires c.size >= 1 && R.Live(c)
    ensures c.log <= R.OnArrival(c, ev).0.log
  {
  }

  // ---- A run that pads ----

  /** Lockstep until two chunks are left. */
  lemma {:induction false} LockstepToLastTwo(cfg: Config, s: Sys) returns (t: Sys, steps: seq<Step>)
    requires ConfigOk(cfg) && Inv(cfg, s) && Lockstep(s) && s.server.ring.middle < |Chunks(cfg)|
    ensures Inv(cfg, t) && Lockstep(t) && t.server.ring.middle + 1 == |Chunks(cfg)|
    ensures Moves(s, steps, t)
    decreases |Chunks(cfg)| - s.server.ring.middle
  {
    if s.server.ring.middle + 1 == |Chunks(cfg)| {
      t, steps := s, [];
    } else {
      UnreadLeft(cfg, s);
      var a, chunk := LockstepChunk(cfg, s);
      var rest;
      t, rest := LockstepToLastTwo(cfg, a);
      MovesCompose(s, chunk, a, rest, t);
      steps := chunk + rest;
    }
  }

  /** The last chunk overtakes the one before it. */
  lemma SwapLastTwo(cfg: Config, s: Sys) returns (t: Sys, steps: seq<Step>)
    requires ConfigOk(cfg) && Inv(cfg, s) && Lockstep(s) && ShortLastChunk(cfg)
    requires s.server.ring.middle + 1 == |Chunks(cfg)|
    ensures Inv(cfg, t) && t.client.phase == R.RecvData && Padded(t.client.log)
    ensures t.server.phase == S.SendData && t.server.ring.bottom < t.server.ring.middle
    ensures Moves(s, steps, t)
  {
    hide Moves;
    var a, p := SendOn(cfg, s);
    var b, q := SendOn(cfg, a);
    t := Swap(cfg, b, p, q);
    SwapPads(cfg, s.client, p, q, t.client.log);
    var send, swap := [ServerSend(true), ServerPoll(NoPick)], [ClientTurn(Intact(q)), ClientTurn(Intact(p))];
    MovesCompose(s, send, a, send, b);
    MovesCompose(s, send + send, b, swap, t);
    steps := send + send + swap;
  }

  lemma SwapPads(cfg: Config, c: R.Receiver, p: Packet, q: Packet, log: seq<R.Write>)
    requires ConfigOk(cfg) && ShortLastChunk(cfg)
    requires p == DataPacket(Chunks(cfg), |Chunks(cfg)| - 1) && q == DataPacket(Chunks(cfg), |Chunks(cfg)|)
    requires log == c.log + [R.Write(p.payload, |p.payload|), R.Write(q.payload, |p.payload|)]
    ensures Padded(log)
  {
    assert log[|log| - 1] == R.Write(q.payload, |p.payload|);
  }

  /** A run to a state in which the padded write has been made and the transfer goes on. */
  lemma PaddedReached(cfg: Config, s: Sys) returns (t: Sys, steps: seq<Step>)
    requires ConfigOk(cfg) && Init(cfg, s) && ShortLastChunk(cfg)
    ensures Inv(cfg, t) && Padded(t.client.log) && CanComplete(t)
    ensures Moves(s, steps, t)
  {
    InitFacts(cfg, s);
    hide Init;
    var a, strays := AnswerStrays(cfg, s);
    var b, run := LockstepToLastTwo(cfg, a);
    hide Moves, CanComplete;
    var swap;
    t, swap := SwapLastTwo(cfg, b);
    MovesCompose(s, strays, a, run, b);
    MovesCompose(s, strays + run, b, swap, t);
    steps := strays + run + swap;
    FromSending(cfg, t);
  }

  lemma PaddedRun(cfg: Config, s: Sys) returns (steps: seq<Step>)
    requires ConfigOk(cfg) && Init(cfg, s) && ShortLastChunk(cfg)
    ensures DiffersAfter(cfg, s, steps)
  {
    var t, first := PaddedReached(cfg, s);
    hide Inv, Init, Apply, Enabled, Padded;
    var rest :| IsRun(t, rest) && Complete(After(t, rest));
    MovesCompose(s, first, t, rest, After(t, rest));
    steps := first + rest;
    RunPads(cfg, t, rest);
    PaddedStays(t.client.log, After(t, rest).client.log);
    assert Reachable(cfg, After(s, steps));
    OutputIsFile(cfg, After(s, steps));
  }

  lemma PaddedStays(log: seq<R.Write>, longer: seq<R.Write>)
    requires Padded(log) && log <= longer
    ensures Padded(longer)
  {
    var i :| 0 <= i < |log| && log[i].len != |log[i].payload|;
    assert longer[i] == log[i];
  }

  /**
   * From every initial state: some run that ends by END_OF_FILE leaves an output other than the source file exactly
   * when the window has room for two packets, the file has two chunks, and its size is no multiple of the buffer's.
   */
  lemma OutputCanDifferIff(cfg: Config, s: Sys)
    requires ConfigOk(cfg) && Init(cfg, s)
    ensures (exists steps :: DiffersAfter(cfg, s, steps)) <==>
            cfg.size >= 2 && |Chunks(cfg)| >= 2 && |cfg.file| % cfg.bufSize != 0
  {
    hide DiffersAfter;
    if cfg.file != [] { ShortIff(cfg); }
    if ShortLastChunk(cfg) {
      var steps := PaddedRun(cfg, s);
    }
    forall steps | DiffersAfter(cfg, s, steps) ensures ShortLastChunk(cfg) {
      DiffersNeeds(cfg, s, steps);
    }
  }

  /** A run that ends by END_OF_FILE and leaves another file than the source. */
  ghost predicate DiffersAfter(cfg: Config, s: Sys, steps: seq<Step>) {
    && IsRun(s, steps) && After(s, steps).client.phase == R.Done(R.EndOfFile)
    && OutputFile(After(s, steps).client.log) != cfg.file
  }

  lemma DiffersNeeds(cfg: Config, s: Sys, steps: seq<Step>)
    requires ConfigOk(cfg) && Init(cfg, s) && DiffersAfter(cfg, s, steps)
    ensures ShortLastChunk(cfg)
  {
    InitInv(cfg, s);
    assert Reachable(cfg, After(s, steps));
    OutputIsFile(cfg, After(s, steps));
    RunPads(cfg, s, steps);
    assert !Padded(s.client.log);
  }
}
