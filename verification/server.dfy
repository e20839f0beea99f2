/** server.c: the sending state machine, as functions on values and as methods over the ring. */
module Server {
  import opened Packets
  import opened Windows

  datatype End = ReadError | NoAck | NoByeAck | Acked

  /**
   * The states of server.c. Polling and ByeWait are the points inside send_data() and bye()
   * between the send and select_call. Aborted is the exit taken when a never-written slot is sent.
   */
  datatype Phase = SendData | Polling | Process | WaitOnAck | Bye | ByeWait | Done(end: End) | Aborted

  /** file holds the bytes not read yet; waits and byes are the two static send_count counters. */
  datatype Sender = Sender(phase: Phase, ring: Ring, file: seq<byte>, bufSize: nat,
                           eof: Option<nat>, waits: nat, byes: nat)

  const RETRIES := 10

  ghost predicate SenderOk(s: Sender) {
    && |s.ring.slots| == |s.ring.valid| >= 1 && s.ring.bottom >= 1 && s.ring.middle >= 1
    && 1 <= s.bufSize
    && (s.phase == Bye || s.phase == ByeWait ==> s.eof.Some?)
  }

  /** What read() returns: a full buffer, or all that is left. */
  function ReadLength(file: seq<byte>, bufSize: nat): (n: nat)
    ensures n <= |file|
  {
    if |file| < bufSize then |file| else bufSize
  }

  function Slot(r: Ring, n: nat): Option<Packet>
    requires |r.slots| >= 1 && n >= 1
  {
    r.slots[Index(n, |r.slots|)]
  }

  /** send_data() up to its select_call. */
  ghost function OnSend(s: Sender, readOk: bool): (Sender, seq<Packet>)
    requires SenderOk(s)
  {
    if s.ring.middle > s.ring.top then
      (s.(phase := WaitOnAck), [])
    else if !readOk then
      (s.(phase := Done(ReadError)), [])
    else if s.file == [] then
      (s.(phase := WaitOnAck, eof := Some(s.ring.middle)), [])
    else
      var n := ReadLength(s.file, s.bufSize);
      var p := Packet(s.ring.middle, DATA, s.file[..n]);
      (s.(phase := Polling, file := s.file[n..], ring := Add(s.ring.(middle := s.ring.middle + 1), p)), [p])
  }

  ghost function OnPoll(s: Sender, ready: bool): Sender {
    s.(phase := if ready then Process else SendData)
  }

  ghost function OnProcess(s: Sender, ev: Arrival): (Sender, seq<Packet>)
    requires SenderOk(s)
  {
    match ev
    case Silence => (s, [])
    case CrcError => (s.(phase := WaitOnAck), [])
    case Got(p) =>
      if p.flag == RR then
        (s.(ring := if p.seqNum > s.ring.bottom then SlideTo(s.ring, p.seqNum) else s.ring,
            phase := if s.eof == Some(p.seqNum) then Bye else SendData), [])
      else if p.flag == SREJ then
        if p.seqNum == 0 || Slot(s.ring, p.seqNum).None? then (s.(phase := Aborted), [])
        else (s.(phase := SendData), [Slot(s.ring, p.seqNum).value])
      else
        (s.(phase := SendData), [])
  }

  ghost function OnWait(s: Sender, ready: bool): (Sender, seq<Packet>)
    requires SenderOk(s)
  {
    var t := s.(waits := s.waits + 1);
    if t.waits > RETRIES then (t.(phase := Done(NoAck)), [])
    else if ready then (t.(phase := Process, waits := 0), [])
    else if Slot(s.ring, s.ring.bottom).None? then (t.(phase := Aborted), [])
    else (t.(phase := WaitOnAck), [Slot(s.ring, s.ring.bottom).value])
  }

  /** bye() up to its select_call. */
  ghost function OnBye(s: Sender): (Sender, seq<Packet>)
    requires s.eof.Some?
  {
    (s.(byes := s.byes + 1, phase := if s.byes + 1 > RETRIES then Done(NoByeAck) else ByeWait), [Eof(s.eof.value)])
  }

  ghost function OnByeWait(s: Sender, ev: Arrival): Sender
    requires s.eof.Some?
  {
    match ev
    case Silence => s.(phase := Bye)
    case CrcError => s.(phase := Bye, byes := 0)
    case Got(p) =>
      s.(phase := if p.flag == RR && p.seqNum == s.eof.value + 1 then Done(Acked) else Bye, byes := 0)
  }

  /** Where send_data leads: a closed window first, then what read() says; only a chunk is sent, as the next number. */
  lemma SendIff(s: Sender, readOk: bool)
    requires SenderOk(s) && s.phase == SendData
    ensures var (t, out) := OnSend(s, readOk);
            && (t.phase == WaitOnAck <==> s.ring.middle > s.ring.top || (readOk && s.file == []))
            && (t.phase == Done(ReadError) <==> s.ring.middle <= s.ring.top && !readOk)
            && (t.phase == Polling <==> s.ring.middle <= s.ring.top && readOk && s.file != [])
            && (t.eof != s.eof ==> t.phase == WaitOnAck && s.ring.middle <= s.ring.top && t.eof == Some(s.ring.middle))
            && (t.phase == WaitOnAck && s.ring.middle <= s.ring.top ==> t.eof == Some(s.ring.middle))
            && (t.phase != Polling ==> out == [] && t.ring == s.ring && t.file == s.file)
            && (t.phase == Polling ==>
                  && t.ring.middle == s.ring.middle + 1 && t.ring.bottom == s.ring.bottom
                  && out == [Packet(s.ring.middle, 1, out[0].payload)] && Slot(t.ring, s.ring.middle) == Some(out[0])
                  && s.file == out[0].payload + t.file && 1 <= |out[0].payload| <= s.bufSize
                  && (t.file != [] ==> |out[0].payload| == s.bufSize))
  {
  }

  /** Where process leads, whatever arrives: BYE on the last RR, WAIT_ON_ACK on damage, an abort or a resend on SREJ. */
  lemma ProcessIff(s: Sender, ev: Arrival)
    requires SenderOk(s) && s.phase == Process && ev != Silence
    ensures var (t, out) := OnProcess(s, ev);
            && (t.phase == WaitOnAck <==> ev == CrcError)
            && (t.phase == Bye <==> ev.Got? && ev.packet.flag == 3 && s.eof == Some(ev.packet.seqNum))
            && (t.phase == Aborted <==>
                  ev.Got? && ev.packet.flag == 4 && (ev.packet.seqNum == 0 || Slot(s.ring, ev.packet.seqNum).None?))
            && t.phase in {WaitOnAck, Bye, Aborted, SendData}
            && out == (if ev.Got? && ev.packet.flag == 4 && t.phase == SendData
                       then [Slot(s.ring, ev.packet.seqNum).value] else [])
            && (t.ring != s.ring ==> ev.Got? && ev.packet.flag == 3 && t.ring.bottom == ev.packet.seqNum > s.ring.bottom)
            && (ev.Got? && ev.packet.flag == 3 && ev.packet.seqNum > s.ring.bottom ==> t.ring.bottom == ev.packet.seqNum)
            && t == s.(phase := t.phase, ring := t.ring)
  {
  }

  /** The variables of process_client and the two static counters. */
  class Session {
    const window: Window
    const bufSize: nat
    var phase: Phase
    var file: seq<byte>
    var eofIndex: Option<nat>
    var waitCount: nat
    var byeCount: nat

    ghost predicate Valid()
      reads this, window, window.buffer, window.valid
    {
      window.Valid() && SenderOk(View())
    }

    ghost function View(): Sender
      reads this, window, window.buffer, window.valid
    {
      Sender(phase, window.View(), file, bufSize, eofIndex, waitCount, byeCount)
    }

    constructor (size: nat, bufSize: nat, file: seq<byte>)
      requires size >= 1 && bufSize >= 1
      ensures Valid()
      ensures View() == Sender(SendData, Ring(1, 1, size, seq(size, _ => None), seq(size, _ => false)),
                               file, bufSize, None, 0, 0)
      ensures fresh(window) && fresh(window.buffer) && fresh(window.valid)
    {
      window := new Window(size);
      this.bufSize, this.file, phase := bufSize, file, SendData;
      eofIndex, waitCount, byeCount := None, 0, 0;
    }

    method SendDataState(readOk: bool, ready: bool) returns (sent: seq<Packet>)
      requires Valid() && phase == SendData
      modifies this, window, window.buffer, window.valid
      ensures Valid()
      ensures var (s, out) := OnSend(old(View()), readOk);
              sent == out && View() == if s.phase == Polling then OnPoll(s, ready) else s
    {
      sent := [];
      if window.IsClosed() {
        phase := WaitOnAck;
        return;
      }
      if !readOk {
        phase := Done(ReadError);
        return;
      }
      var n := ReadLength(file, bufSize);
      if n == 0 {
        eofIndex := Some(window.middle);
        phase := WaitOnAck;
        return;
      }
      var p := Packet(window.middle, DATA, file[..n]);
      file := file[n..];
      sent := [p];
      window.middle := window.middle + 1;
      window.AddToBuffer(p);
      phase := if ready then Process else SendData;
    }

    method ProcessState(ev: Arrival) returns (sent: seq<Packet>)
      requires Valid() && phase == Process && ev != Silence
      modifies this, window, window.valid
      ensures Valid() && (View(), sent) == OnProcess(old(View()), ev)
    {
      sent := [];
      if ev == CrcError {
        phase := WaitOnAck;
        return;
      }
      var p := ev.packet;
      if p.flag == RR {
        var rr := p.seqNum;
        if rr > window.bottom {
          window.Slide(rr);
        }
        if eofIndex == Some(rr) {
          phase := Bye;
          return;
        }
      } else if p.flag == SREJ {
        if p.seqNum == 0 {
          phase := Aborted;
          return;
        }
        var resend := window.GetFromBuffer(p.seqNum);
        if resend.None? {
          phase := Aborted;
          return;
        }
        sent := [resend.value];
      }
      phase := SendData;
    }

    method WaitOnAckState(ready: bool) returns (sent: seq<Packet>)
      requires Valid() && phase == WaitOnAck
      modifies this
      ensures Valid() && (View(), sent) == OnWait(old(View()), ready)
      ensures waitCount == 0 || waitCount == old(waitCount) + 1
      ensures phase == Done(NoAck) <==> old(waitCount) >= 10
      ensures old(waitCount) < 10 && phase == WaitOnAck ==> |sent| == 1 && !ready
    {
      sent := [];
      waitCount := waitCount + 1;
      if waitCount > RETRIES {
        phase := Done(NoAck);
        return;
      }
      if !ready {
        var nudge := window.GetFromBuffer(window.bottom);
        if nudge.None? {
          phase := Aborted;
          return;
        }
        sent := [nudge.value];
        return;
      }
      waitCount := 0;
      phase := Process;
    }

    method ByeState(ev: Arrival) returns (sent: seq<Packet>)
      requires Valid() && phase == Bye
      modifies this
      ensures Valid()
      ensures var (s, out) := OnBye(old(View()));
              sent == out && View() == if s.phase == ByeWait then OnByeWait(s, ev) else s
      ensures phase == Done(NoByeAck) <==> old(byeCount) >= 10
      ensures byeCount == if old(byeCount) < 10 && ev != Silence then 0 else old(byeCount) + 1
    {
      sent := [Eof(eofIndex.value)];
      byeCount := byeCount + 1;
      if byeCount > RETRIES {
        phase := Done(NoByeAck);
        return;
      }
      phase := Bye;
      if ev != Silence {
        byeCount := 0;
        if ev == CrcError {
          return;
        }
        if ev.packet.flag == RR && ev.packet.seqNum == eofIndex.value + 1 {
          phase := Done(Acked);
        }
      }
    }
  }
}
