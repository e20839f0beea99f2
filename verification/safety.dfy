/** What the invariant says about every run: order, completeness, window bounds, retransmissions and the output file. */
module Safety {
  import opened Packets
  import opened Windows
  import opened Files
  import opened Protocol
  import S = Server
  import R = Rcopy

  ghost predicate Reachable(cfg: Config, s: Sys) {
    ConfigOk(cfg) && exists s0, steps :: Init(cfg, s0) && IsRun(s0, steps) && After(s0, steps) == s
  }

  lemma ReachableInv(cfg: Config, s: Sys)
    requires Reachable(cfg, s)
    ensures ConfigOk(cfg) && Inv(cfg, s)
  {
    var s0, steps :| Init(cfg, s0) && IsRun(s0, steps) && After(s0, steps) == s;
    InitInv(cfg, s0);
    RunKeepsInv(cfg, s0, steps);
  }

  /** The chunks written are the source's chunks 1..next-1, in order, each once. */
  lemma WrittenInOrder(cfg: Config, s: Sys)
    requires Reachable(cfg, s)
    ensures s.client.next >= 1 && |s.client.log| == s.client.next - 1 <= |Chunks(cfg)|
    ensures forall i :: 0 <= i < |s.client.log| ==> s.client.log[i].payload == Chunks(cfg)[i]
  {
    ReachableInv(cfg, s);
  }

  /** A client that stops on END_OF_FILE has written everything, and the server's eof_index is where it stands. */
  lemma EndOfFileIsComplete(cfg: Config, s: Sys)
    requires Reachable(cfg, s) && s.client.phase == R.Done(R.EndOfFile)
    ensures s.server.eof == Some(s.client.next)
    ensures |s.client.log| == |Chunks(cfg)|
  {
    ReachableInv(cfg, s);
  }

  /** A server that leaves BYE on the acknowledgement of END_OF_FILE leaves a finished client behind. */
  lemma AckedIsComplete(cfg: Config, s: Sys)
    requires Reachable(cfg, s) && s.server.phase == S.Done(S.Acked)
    ensures s.client.phase == R.Done(R.EndOfFile) && |s.client.log| == |Chunks(cfg)|
  {
    ReachableInv(cfg, s);
  }

  /** The two windows stay within size of each other and nothing in flight is ahead of what its receiver accepts. */
  lemma WindowBounds(cfg: Config, s: Sys)
    requires Reachable(cfg, s)
    ensures s.server.ring.bottom <= s.client.next <= s.server.ring.middle <= s.server.ring.bottom + cfg.size
    ensures s.client.phase != R.Done(R.OutOfWindow)
    ensures forall p :: p in s.toClient && p.flag == DATA ==> 1 <= p.seqNum < s.client.next + cfg.size
    ensures forall p :: p in s.toServer && s.client.phase != R.Done(R.EndOfFile) ==> 1 <= p.seqNum <= s.client.next
  {
    ReachableInv(cfg, s);
    forall p | p in s.toClient && p.flag == DATA ensures 1 <= p.seqNum < s.client.next + cfg.size {
      assert ToClientOk(cfg, s, p);
    }
    forall p | p in s.toServer && s.client.phase != R.Done(R.EndOfFile) ensures 1 <= p.seqNum <= s.client.next {
      assert ToServerOk(cfg, s, p);
    }
  }

  /** An acknowledgement that reaches process() raises bottom to its number at most, and slide() never bumps middle. */
  lemma AcknowledgementOnlyMovesBottom(cfg: Config, s: Sys)
    requires Reachable(cfg, s) && Enabled(s, ServerProcess) && s.inbox.Got? && s.inbox.packet.flag == RR
    ensures var (was, now) := (s.server.ring, Apply(s, ServerProcess).server.ring);
            && now.bottom == (if s.inbox.packet.seqNum > was.bottom then s.inbox.packet.seqNum else was.bottom)
            && now.bottom <= was.middle == now.middle && now.slots == was.slots
  {
    ReachableInv(cfg, s);
  }

  /** For every unacknowledged number the slot holds the original packet, and only originals are ever in flight. */
  lemma RetransmissionsAreOriginals(cfg: Config, s: Sys)
    requires Reachable(cfg, s)
    ensures s.server.ring.middle <= |Chunks(cfg)| + 1
    ensures forall n: nat :: s.server.ring.bottom <= n < s.server.ring.middle && n >= 1 ==>
              |s.server.ring.slots| >= 1 && S.Slot(s.server.ring, n) == Some(DataPacket(Chunks(cfg), n))
    ensures forall p :: p in s.toClient && p.flag == DATA ==>
              1 <= p.seqNum <= |Chunks(cfg)| && p == DataPacket(Chunks(cfg), p.seqNum)
  {
    ReachableInv(cfg, s);
    forall p | p in s.toClient && p.flag == DATA
      ensures 1 <= p.seqNum <= |Chunks(cfg)| && p == DataPacket(Chunks(cfg), p.seqNum)
    {
      assert ToClientOk(cfg, s, p);
    }
  }

  // ---- The output file, byte by byte ----

  ghost predicate Padded(log: seq<R.Write>) {
    exists i :: 0 <= i < |log| && log[i].len != |log[i].payload|
  }

  lemma {:induction false} OutputPrefix(cfg: Config, log: seq<R.Write>)
    requires ConfigOk(cfg) && LogInv(cfg, log) && !Padded(log)
    ensures OutputFile(log) == Flatten(Chunks(cfg)[..|log|])
    decreases |log|
  {
    if log != [] {
      var k := |log| - 1;
      var ch := Chunks(cfg);
      OutputPrefix(cfg, log[..k]);
      FlattenAppend(ch[..k], ch[k]);
      assert ch[..k] + [ch[k]] == ch[..|log|];
      assert WrittenBytes(log[k]) == ch[k];
    }
  }

  lemma {:induction false} FlattenLength(parts: seq<seq<byte>>, bufSize: nat)
    requires forall i :: 0 <= i < |parts| ==> |parts[i]| == bufSize
    ensures |Flatten(parts)| == |parts| * bufSize
  {
    if parts != [] {
      FlattenLength(parts[1..], bufSize);
      assert (|parts| - 1) * bufSize == |parts| * bufSize - bufSize;
    }
  }

  /** All chunks but the last are full. */
  lemma FileLength(cfg: Config)
    requires ConfigOk(cfg) && cfg.file != []
    ensures var ch := Chunks(cfg);
            |cfg.file| + (cfg.bufSize - |ch[|ch| - 1]|) == |ch| * cfg.bufSize
  {
    var ch := Chunks(cfg);
    var n := |ch| - 1;
    FileEnds(cfg);
    FlattenLength(ch[..n], cfg.bufSize);
    assert (n + 1) * cfg.bufSize == n * cfg.bufSize + cfg.bufSize;
  }

  /** Only the last write of a complete log can be padded, and then it has a full buffer's length. */
  lemma PaddedShape(cfg: Config, log: seq<R.Write>)
    requires ConfigOk(cfg) && LogInv(cfg, log) && |log| == |Chunks(cfg)| && Padded(log)
    ensures var (ch, n) := (Chunks(cfg), |log| - 1);
            && n >= 0 && |ch[n]| < cfg.bufSize && log[n] == R.Write(ch[n], cfg.bufSize)
            && LogInv(cfg, log[..n]) && !Padded(log[..n])
  {
    hide Split;
    var n := |log| - 1;
    var i :| 0 <= i < |log| && log[i].len != |log[i].payload|;
    assert WriteOk(cfg, i, log[i]);
    assert |Chunks(cfg)[n]| <= cfg.bufSize;
    forall j | 0 <= j < n ensures WriteOk(cfg, j, log[..n][j]) && log[..n][j].len == |log[..n][j].payload| {
      assert WriteOk(cfg, j, log[j]);
    }
  }

  /** A complete log with a padded write: every chunk but the last as it is, the last filled up to a full buffer. */
  lemma PaddedOutput(cfg: Config, log: seq<R.Write>)
    requires ConfigOk(cfg) && LogInv(cfg, log) && |log| == |Chunks(cfg)| && Padded(log)
    ensures var ch := Chunks(cfg);
            var k := cfg.bufSize - |ch[|ch| - 1]|;
            1 <= k < cfg.bufSize && OutputFile(log) == cfg.file + Zeros(k)
  {
    var ch := Chunks(cfg);
    var n := |ch| - 1;
    var k := cfg.bufSize - |ch[n]|;
    PaddedShape(cfg, log);
    assert 1 <= k < cfg.bufSize && cfg.file != [] && log[..|log| - 1] == log[..n];
    hide LogInv, Padded, Split, Flatten, Chunks;
    OutputPrefix(cfg, log[..n]);
    LastWrite(log, ch[n], cfg.bufSize);
    FileEnds(cfg);
    ConcatAssociates(Flatten(ch[..n]), ch[n], Zeros(k));
  }

  /** The output grows by the last write; written with a greater length, its payload is followed by zeros. */
  lemma LastWrite(log: seq<R.Write>, chunk: seq<byte>, len: nat)
    requires log != [] && log[|log| - 1] == R.Write(chunk, len) && |chunk| < len
    ensures OutputFile(log) == OutputFile(log[..|log| - 1]) + (chunk + Zeros(len - |chunk|))
  {
  }

  lemma FileEnds(cfg: Config)
    requires ConfigOk(cfg) && cfg.file != []
    ensures var ch := Chunks(cfg); cfg.file == Flatten(ch[..|ch| - 1]) + ch[|ch| - 1]
  {
    var ch := Chunks(cfg);
    assert ch[..|ch| - 1] + [ch[|ch| - 1]] == ch;
    FlattenSplit(cfg.file, cfg.bufSize);
    FlattenAppend(ch[..|ch| - 1], ch[|ch| - 1]);
  }

  lemma ConcatAssociates<T>(a: seq<T>, b: seq<T>, c: seq<T>)
    ensures a + (b + c) == (a + b) + c
  {
  }

  /**
   * After a run that ends by END_OF_FILE the output is the source file when no write was padded, and
   * otherwise the source file followed by zeros up to a multiple of the buffer size.
   */
  lemma OutputIsFile(cfg: Config, s: Sys)
    requires Reachable(cfg, s) && s.client.phase == R.Done(R.EndOfFile)
    ensures OutputFile(s.client.log) == cfg.file <==> !Padded(s.client.log)
    ensures Padded(s.client.log) ==>
              exists k: nat :: 1 <= k < cfg.bufSize && |cfg.file| + k == |Chunks(cfg)| * cfg.bufSize &&
                               OutputFile(s.client.log) == cfg.file + Zeros(k)
  {
    ReachableInv(cfg, s);
    if Padded(s.client.log) {
      PaddedOutput(cfg, s.client.log);
      FileLength(cfg);
      assert |OutputFile(s.client.log)| > |cfg.file|;
    } else {
      OutputPrefix(cfg, s.client.log);
      FlattenSplit(cfg.file, cfg.bufSize);
      assert Chunks(cfg)[..|Chunks(cfg)|] == Chunks(cfg);
    }
  }

  lemma DrainPads(cfg: Config, log: seq<R.Write>, more: seq<R.Write>)
    requires ConfigOk(cfg) && LogInv(cfg, log + more) && more != []
    requires forall i :: 0 <= i < |more| ==> more[i].len == |Chunks(cfg)[|log|]|
    ensures var ch := Chunks(cfg);
            Padded(log + more) <==> Padded(log) || (|more| > 1 && |log + more| == |ch| && |ch[|ch| - 1]| < cfg.bufSize)
  {
    var ch, all := Chunks(cfg), log + more;
    forall i | 0 <= i < |log| ensures log[i].len == |log[i].payload| {
      assert all[i] == log[i];
    }
    if |more| > 1 {
      assert |ch[|log|]| == cfg.bufSize;
      assert all[|all| - 1] == more[|more| - 1];
    } else {
      assert all[|log|] == more[0];
    }
  }

  /** The packet that closes the gap lets the last chunk through exactly when all the chunks between are held. */
  lemma DrainsToTheEnd(cfg: Config, c: R.Receiver, sent: nat, p: Packet)
    requires ConfigOk(cfg) && ClientInv(cfg, c, sent) && c.phase == R.Missing && sent <= |Chunks(cfg)| + 1
    requires Genuine(Chunks(cfg), sent, p) && p.seqNum == c.next < |Chunks(cfg)|
    ensures R.OnArrival(c, Got(p)).0.next == |Chunks(cfg)| + 1 <==>
            forall n: nat :: c.next < n <= |Chunks(cfg)| ==> n in c.early
  {
    hide LogInv;
    var n := |Chunks(cfg)|;
    var held := c.early[p.seqNum := p];
    var gap := R.FirstGap(held, c.next, c.next + c.size);
    assert R.OnArrival(c, Got(p)).0.next == gap;
    if gap == n + 1 {
      forall k: nat | c.next < k <= n ensures k in c.early { assert k in held; }
    }
    if forall k: nat :: c.next < k <= n ==> k in c.early {
      assert n in c.early && n < c.next + c.size;
      assert n + 1 !in held;
      R.FirstGapIs(held, c.next, c.next + c.size, n + 1);
    }
  }

  /** A short last chunk is held, with every chunk between it and the gap, and p closes the gap. */
  ghost predicate PadsNow(cfg: Config, c: R.Receiver, p: Packet)
    requires ConfigOk(cfg)
  {
    var ch := Chunks(cfg);
    && c.phase == R.Missing && p.flag == DATA && p.seqNum == c.next < |ch| && |ch[|ch| - 1]| < cfg.bufSize
    && forall n: nat :: c.next < n <= |ch| ==> n in c.early
  }

  lemma ClientPads(cfg: Config, c: R.Receiver, sent: nat, ev: Arrival)
    requires ConfigOk(cfg) && ClientInv(cfg, c, sent) && R.Live(c)
    requires sent <= c.next + c.size && sent <= |Chunks(cfg)| + 1
    requires ev.Got? ==>
               || ev.packet == FNAME_OK_ANSWER || ev.packet == Eof(|Chunks(cfg)| + 1)
               || Genuine(Chunks(cfg), sent, ev.packet)
    ensures Padded(R.OnArrival(c, ev).0.log) <==> Padded(c.log) || (ev.Got? && PadsNow(cfg, c, ev.packet))
  {
    ClientKeepsInv(cfg, c, sent, ev);
    var d := R.OnArrival(c, ev).0;
    if ev.Got? && ev.packet.flag == DATA && ev.packet.seqNum == c.next {
      var p := ev.packet;
      if c.phase == R.Missing {
        GapClosedPads(cfg, c, sent, p);
      } else {
        DrainPads(cfg, c.log, [R.Write(p.payload, |p.payload|)]);
      }
    } else {
      NoWriteUnlessNext(c, ev);
    }
  }

  lemma GapClosedPads(cfg: Config, c: R.Receiver, sent: nat, p: Packet)
    requires ConfigOk(cfg) && ClientInv(cfg, c, sent) && c.phase == R.Missing && sent <= |Chunks(cfg)| + 1
    requires sent <= c.next + c.size && Genuine(Chunks(cfg), sent, p) && p.seqNum == c.next
    ensures Padded(R.OnArrival(c, Got(p)).0.log) <==> Padded(c.log) || PadsNow(cfg, c, p)
  {
    MissingKeepsInv(cfg, c, sent, p);
    var d := R.OnArrival(c, Got(p)).0;
    var held := c.early[p.seqNum := p];
    assert c.next in held;
    DrainPads(cfg, c.log, R.Drained(held, c.next, d.next, |p.payload|));
    if p.seqNum < |Chunks(cfg)| { DrainsToTheEnd(cfg, c, sent, p); }
  }

  /**
   * The one way a write gets padded: a short last chunk waits behind a gap with every chunk between them, and
   * the packet that fills the gap arrives.
   */
  lemma PaddingIffDrainedBehindGap(cfg: Config, s: Sys, pick: Pick)
    requires Reachable(cfg, s) && Enabled(s, ClientTurn(pick))
    ensures Padded(Apply(s, ClientTurn(pick)).client.log) <==>
            Padded(s.client.log) || (pick.Intact? && PadsNow(cfg, s.client, pick.p))
  {
    hide Inv, ClientInv, Genuine, Padded, R.OnArrival, PadsNow;
    ReachableInv(cfg, s);
    WhatArrives(cfg, s, pick);
    ClientPads(cfg, s.client, s.server.ring.middle, ArrivalOf(pick));
  }

  lemma NoWriteUnlessNext(c: R.Receiver, ev: Arrival)
    requires R.ReceiverOk(c) && R.Live(c)
    requires ev.Got? && ev.packet.flag != END_OF_FILE ==> ev.packet.seqNum != c.next
    ensures R.OnArrival(c, ev).0.log == c.log && R.OnArrival(c, ev).0.next == c.next
  {
  }
}
