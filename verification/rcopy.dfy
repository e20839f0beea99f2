/** rcopy.c: the receiving state machine, first as a receiver with a map of early packets, then over the ring. */
module Rcopy {
  import opened Packets
  import opened Windows

  datatype Cause = TimedOut | OutOfWindow | EndOfFile
  datatype Phase = RecvData | Missing | Done(cause: Cause)

  /** One call of write(): the stored packet's payload and the length argument. */
  datatype Write = Write(payload: seq<byte>, len: nat)

  /**
   * The simple receiver: it expects number next, holds the packets that came early,
   * and keeps the record of everything written to the output file.
   */
  datatype Receiver = Receiver(phase: Phase, size: nat, next: nat, early: map<nat, Packet>, log: seq<Write>)

  ghost predicate ReceiverOk(c: Receiver) {
    && c.size >= 1 && c.next >= 1
    && (forall n :: n in c.early ==> c.next < n < c.next + c.size)
    && (c.phase == RecvData ==> c.early == map[])
  }

  predicate Live(c: Receiver) { c.phase == RecvData || c.phase == Missing }

  /** The first number from lo on that is not held, or hi when all of lo..hi-1 are held. */
  function FirstGap(m: map<nat, Packet>, lo: nat, hi: nat): (g: nat)
    requires lo <= hi
    ensures lo <= g <= hi
    ensures forall n: nat :: lo <= n < g ==> n in m
    ensures g < hi ==> g !in m
    decreases hi - lo
  {
    if lo == hi || lo !in m then lo else FirstGap(m, lo + 1, hi)
  }

  /** The contiguous run lo..hi-1, every packet written with the same length. */
  function Drained(m: map<nat, Packet>, lo: nat, hi: nat, len: nat): (ws: seq<Write>)
    requires lo <= hi && forall n: nat :: lo <= n < hi ==> n in m
    ensures |ws| == hi - lo
    ensures forall k :: 0 <= k < |ws| ==> ws[k] == Write(m[lo + k].payload, len)
    decreases hi
  {
    if lo == hi then [] else Drained(m, lo, hi - 1, len) + [Write(m[hi - 1].payload, len)]
  }

  ghost function OnRecvData(c: Receiver, ev: Arrival): (Receiver, seq<Packet>)
    requires c.size >= 1
  {
    match ev
    case Silence => (c.(phase := Done(TimedOut)), [])
    case CrcError => (c.(phase := Missing), [Srej(c.next)])
    case Got(p) =>
      if p.flag == END_OF_FILE then
        (c.(phase := Done(EndOfFile)), [Rr(p.seqNum + 1)])
      else if p.seqNum == c.next then
        (c.(next := c.next + 1, log := c.log + [Write(p.payload, |p.payload|)]), [Rr(c.next + 1)])
      else if p.seqNum < c.next then
        (c, [Rr(c.next)])
      else if p.seqNum >= c.next + c.size then
        (c.(phase := Done(OutOfWindow)), [])
      else
        (c.(phase := Missing, early := c.early[p.seqNum := p]), [Rr(c.next)])
  }

  ghost function OnMissing(c: Receiver, ev: Arrival): (Receiver, seq<Packet>)
    requires c.size >= 1
  {
    match ev
    case Silence => (c.(phase := Done(TimedOut)), [])
    case CrcError => (c, [])
    case Got(p) =>
      if p.flag == END_OF_FILE then
        if p.seqNum == c.next then (c.(phase := Done(EndOfFile)), [Rr(c.next + 1)]) else (c, [])
      else if c.next <= p.seqNum < c.next + c.size then
        var held := c.early[p.seqNum := p];
        var gap := FirstGap(held, c.next, c.next + c.size);
        var rest := From(held, gap);
        (c.(phase := if rest == map[] then RecvData else Missing,
            next := gap,
            early := rest,
            log := c.log + Drained(held, c.next, gap, |p.payload|)),
         (if c.next < gap < c.next + c.size then [Srej(gap)] else []) + [Rr(gap)])
      else
        (c, [Rr(c.next)])
  }

  /** One turn of the client's state loop. */
  ghost function OnArrival(c: Receiver, ev: Arrival): (Receiver, seq<Packet>)
    requires c.size >= 1 && Live(c)
  {
    if c.phase == RecvData then OnRecvData(c, ev) else OnMissing(c, ev)
  }

  lemma ArrivalKeepsReceiverOk(c: Receiver, ev: Arrival)
    requires ReceiverOk(c) && Live(c)
    ensures ReceiverOk(OnArrival(c, ev).0)
  {
  }

  /** OnMissing's in-window result, field by field. */
  lemma AcceptedIs(c: Receiver, p: Packet, d: Receiver, sent: seq<Packet>)
    requires c.size >= 1 && p.flag != END_OF_FILE && c.next <= p.seqNum < c.next + c.size
    requires d.size == c.size && d.next == FirstGap(c.early[p.seqNum := p], c.next, c.next + c.size)
    requires d.early == From(c.early[p.seqNum := p], d.next)
    requires d.log == c.log + Drained(c.early[p.seqNum := p], c.next, d.next, |p.payload|)
    requires d.phase == if d.early == map[] then RecvData else Missing
    requires sent == (if c.next < d.next < c.next + c.size then [Srej(d.next)] else []) + [Rr(d.next)]
    ensures (d, sent) == OnMissing(c, Got(p))
  {
  }

  lemma BeyondGap(m: map<nat, Packet>, lo: nat, hi: nat)
    requires lo <= hi && forall n :: n in m ==> lo <= n < hi
    ensures forall n :: n in From(m, FirstGap(m, lo, hi)) ==> FirstGap(m, lo, hi) < n
  {
  }

  /** An SREJ from the gap scan names the number expected next, strictly inside the window and not held. */
  lemma RejectsNameTheGap(c: Receiver, p: Packet, k: nat)
    requires ReceiverOk(c) && c.phase == Missing && Srej(k) in OnMissing(c, Got(p)).1
    ensures c.next < k < c.next + c.size && k == OnMissing(c, Got(p)).0.next
    ensures p.seqNum == c.next && k != p.seqNum && k !in c.early
    ensures forall n: nat :: c.next < n < k ==> n in c.early
  {
    var held := c.early[p.seqNum := p];
    var gap := FirstGap(held, c.next, c.next + c.size);
    assert k == gap && c.next in held;
    forall n: nat | c.next < n < gap ensures n in c.early { assert n in held; }
  }

  /** When and why the client stops; it writes nothing on that turn, and answers END_OF_FILE alone. */
  lemma StopsIff(c: Receiver, ev: Arrival)
    requires ReceiverOk(c) && Live(c)
    ensures var (d, out) := OnArrival(c, ev);
            && (d.phase == Done(TimedOut) <==> ev == Silence)
            && (d.phase == Done(EndOfFile) <==>
                  ev.Got? && ev.packet.flag == 8 && (c.phase == RecvData || ev.packet.seqNum == c.next))
            && (d.phase == Done(OutOfWindow) <==>
                  c.phase == RecvData && ev.Got? && ev.packet.flag != 8 && ev.packet.seqNum >= c.next + c.size)
            && (d.phase.Done? ==> d == c.(phase := d.phase))
            && (d.phase == Done(EndOfFile) ==> out == [Packet(ev.packet.seqNum + 1, 3, [])])
            && (d.phase.Done? && d.phase != Done(EndOfFile) ==> out == [])
  {
  }

  /** The client gets further exactly on the packet it expects, and writes one packet for each number it passes. */
  lemma MovesIff(c: Receiver, ev: Arrival)
    requires ReceiverOk(c) && Live(c)
    ensures var d := OnArrival(c, ev).0;
            && (d.next > c.next <==> ev.Got? && ev.packet.flag != 8 && ev.packet.seqNum == c.next)
            && c.log <= d.log && |d.log| - |c.log| == d.next - c.next >= 0
            && (d.next > c.next ==> d.log[|c.log|] == Write(ev.packet.payload, |ev.packet.payload|))
            && (c.phase == RecvData ==> d.next <= c.next + 1)
  {
    if c.phase == Missing && ev.Got? && ev.packet.seqNum == c.next {
      var held := c.early[c.next := ev.packet];
      assert c.next in held && FirstGap(held, c.next, c.next + c.size) > c.next;
    }
  }

  /**
   * A number is asked for in two cases: the expected one when something damaged arrives in RECV_DATA, and after a gap
   * has been closed the next one missing, while it is still in the window. Otherwise a live client acknowledges what it
   * then expects, and says nothing only to damage and to a stray END_OF_FILE while in MISSING.
   */
  lemma SaysIff(c: Receiver, ev: Arrival)
    requires ReceiverOk(c) && Live(c) && Live(OnArrival(c, ev).0)
    ensures var (d, out) := OnArrival(c, ev);
            && (ev == CrcError && c.phase == RecvData ==> out == [Packet(c.next, 4, [])] && d == c.(phase := Missing))
            && (out == [] <==> c.phase == Missing && (ev == CrcError || ev.packet.flag == 8))
            && (out == [] ==> d == c)
            && (ev.Got? && out != [] ==> out[|out| - 1] == Packet(d.next, 3, []))
            && (ev.Got? && out != [] ==>
                  out[..|out| - 1] ==
                    if c.phase == Missing && c.next < d.next < c.next + c.size then [Packet(d.next, 4, [])] else [])
  {
  }

  /** rcopy.c's variables: the window, the state and the output file. */
  class Client {
    const window: Window
    var phase: Phase
    var log: seq<Write>

    ghost predicate Valid()
      reads this, window, window.buffer, window.valid
    {
      && window.Valid()
      && RingOk(window.View())
      && (Live(View()) ==> window.middle == window.bottom)
      && ReceiverOk(View())
    }

    ghost function View(): Receiver
      requires window.Valid() && RingOk(window.View())
      reads this, window, window.buffer, window.valid
    {
      Receiver(phase, window.size, window.bottom, Early(window.View()), log)
    }

    constructor (size: nat)
      requires size >= 1
      ensures Valid() && View() == Receiver(RecvData, size, 1, map[], [])
      ensures fresh(window) && fresh(window.buffer) && fresh(window.valid)
    {
      window := new Window(size);
      phase, log := RecvData, [];
    }

    method RecvDataState(ev: Arrival) returns (sent: seq<Packet>)
      requires Valid() && phase == RecvData
      modifies this, window, window.buffer, window.valid
      ensures Valid() && (View(), sent) == OnRecvData(old(View()), ev)
    {
      hide Early;
      sent := [];
      if ev == Silence {
        phase := Done(TimedOut);
        return;
      }
      if ev == CrcError {
        window.middle := window.bottom;
        sent := [Srej(window.bottom)];
        phase := Missing;
        return;
      }
      var p := ev.packet;
      if p.flag == END_OF_FILE {
        sent := [Rr(p.seqNum + 1)];
        phase := Done(EndOfFile);
        return;
      }
      if p.seqNum == window.bottom {
        SlideIsDrop(window.View(), window.bottom + 1);
        window.Slide(window.bottom + 1);
        log := log + [Write(p.payload, |p.payload|)];
        sent := [Rr(window.bottom)];
      } else if p.seqNum < window.bottom {
        sent := [Rr(window.bottom)];
      } else if p.seqNum > window.top {
        phase := Done(OutOfWindow);
      } else {
        AddIsUpdate(window.View(), p);
        window.AddToBuffer(p);
        window.middle := window.bottom;
        sent := [Rr(window.bottom)];
        phase := Missing;
      }
    }

    /** The gap scan. Its last probe, at top + 1, aliases bottom's slot. */
    method Scan() returns (sent: seq<Packet>)
      requires window.Valid() && RingOk(window.View())
      modifies window`middle
      ensures window.Valid() && RingOk(window.View()) && Early(window.View()) == old(Early(window.View()))
      ensures window.middle == FirstGap(Early(window.View()), window.bottom, window.top + 1)
      ensures sent == if window.bottom < window.middle <= window.top then [Srej(window.middle)] else []
    {
      sent := [];
      ghost var held := Early(window.View());
      var i := window.bottom;
      while i <= window.top + 1
        invariant window.bottom <= i <= window.top + 2
        invariant forall n: nat :: window.bottom <= n < i && n <= window.top ==> n in held
        invariant window.Valid() && RingOk(window.View()) && Early(window.View()) == held
        invariant i > window.bottom ==> window.middle == i - 1
        invariant sent == []
      {
        window.middle := i;
        if i == window.top + 1 { SameSlot(window.bottom, window.size); }
        if !window.IsValid(i) {
          if window.middle != window.bottom && window.middle != window.top + 1 {
            sent := [Srej(window.middle)];
          }
          break;
        }
        if i <= window.top { assert i in held; }
        i := i + 1;
      }
      FirstGapIs(held, window.bottom, window.top + 1, window.middle);
    }

    /** Write and release the run bottom..middle-1, every packet with the length just received. */
    method DrainRun(len: nat)
      requires window.Valid() && RingOk(window.View()) && window.bottom <= window.middle <= window.top + 1
      requires forall n: nat :: window.bottom <= n < window.middle ==> n in Early(window.View())
      modifies this`log, window.valid
      ensures window.Valid() && RingOk(window.View())
      ensures Early(window.View()) == From(old(Early(window.View())), window.middle)
      ensures log == old(log) + Drained(old(Early(window.View())), window.bottom, window.middle, len)
    {
      hide From, Early;
      ghost var held := Early(window.View());
      AllFromBottom(window.View());
      var i := window.bottom;
      while i < window.middle
        invariant window.bottom <= i <= window.middle
        invariant window.Valid() && RingOk(window.View())
        invariant Early(window.View()) == From(held, i)
        invariant log == old(log) + Drained(held, window.bottom, i, len)
      {
        if i <= window.top {
          DrainOne(window.View(), held, i);
          var p := window.RemoveFromBuffer(i);
          log := log + [Write(p.value.payload, len)];
        }
        i := i + 1;
      }
    }

    /** The tail of missing(): slide past the run just written and choose the next state. */
    method Advance()
      requires window.Valid() && RingOk(window.View()) && window.bottom <= window.middle <= window.top + 1
      requires forall n :: n in Early(window.View()) ==> window.middle < n
      requires phase == Missing
      modifies this`phase, window, window.valid
      ensures window.Valid() && RingOk(window.View())
      ensures window.bottom == window.middle == old(window.middle)
      ensures Early(window.View()) == old(Early(window.View()))
      ensures phase == if Early(window.View()) == map[] then RecvData else Missing
    {
      SlideIsDrop(window.View(), window.middle);
      assert From(Early(window.View()), window.middle) == Early(window.View());
      var empty := window.EmptyBuffer();
      if window.IsClosed() || empty {
        window.Slide(window.middle);
        phase := RecvData;
        return;
      }
      if window.middle > window.bottom {
        window.Slide(window.middle);
      }
    }

    /** Buffer the packet, find the gap and write the run before it. */
    method Fill(p: Packet, ghost held: map<nat, Packet>, ghost gap: nat) returns (sent: seq<Packet>)
      requires window.Valid() && RingOk(window.View()) && window.bottom <= p.seqNum <= window.top
      requires held == Early(window.View())[p.seqNum := p]
      requires gap == FirstGap(held, window.bottom, window.top + 1)
      modifies this`log, window`middle, window.buffer, window.valid
      ensures window.Valid() && RingOk(window.View()) && window.middle == gap
      ensures Early(window.View()) == From(held, gap)
      ensures log == old(log) + Drained(held, window.bottom, gap, |p.payload|)
      ensures sent == if window.bottom < gap <= window.top then [Srej(gap)] else []
    {
      AddIsUpdate(window.View(), p);
      window.AddToBuffer(p);
      sent := Scan();
      DrainRun(|p.payload|);
    }

    /** The in-window branch of missing(). */
    method Accept(p: Packet) returns (sent: seq<Packet>)
      requires Valid() && phase == Missing
      requires p.flag != END_OF_FILE && window.bottom <= p.seqNum <= window.top
      modifies this, window, window.buffer, window.valid
      ensures Valid() && (View(), sent) == OnMissing(old(View()), Got(p))
    {
      hide OnMissing, Drained, Early, RingOk;
      ghost var held := View().early[p.seqNum := p];
      ghost var gap := FirstGap(held, window.bottom, window.top + 1);
      sent := Fill(p, held, gap);
      BeyondGap(held, window.bottom, window.top + 1);
      sent := sent + [Rr(window.middle)];
      Advance();
      AcceptedIs(old(View()), p, View(), sent);
    }

    method MissingState(ev: Arrival) returns (sent: seq<Packet>)
      requires Valid() && phase == Missing
      modifies this, window, window.buffer, window.valid
      ensures Valid() && (View(), sent) == OnMissing(old(View()), ev)
    {
      sent := [];
      if ev == Silence {
        phase := Done(TimedOut);
        return;
      }
      if ev == CrcError {
        return;
      }
      var p := ev.packet;
      if p.flag == END_OF_FILE {
        if window.bottom == p.seqNum {
          sent := [Rr(window.bottom + 1)];
          phase := Done(EndOfFile);
        }
        return;
      }
      if window.IsInWindow(p.seqNum) {
        sent := Accept(p);
        return;
      }
      sent := [Rr(window.middle)];
    }

    /** One turn of main's loop in the data phase. */
    method Turn(ev: Arrival) returns (sent: seq<Packet>)
      requires Valid() && Live(View())
      modifies this, window, window.buffer, window.valid
      ensures Valid() && (View(), sent) == OnArrival(old(View()), ev)
    {
      if phase == RecvData {
        sent := RecvDataState(ev);
      } else {
        sent := MissingState(ev);
      }
    }
  }

  lemma AllFromBottom(r: Ring)
    requires RingOk(r)
    ensures From(Early(r), r.bottom) == Early(r)
  {
  }

  /** Removing number i from a ring that holds the numbers from i on yields its packet and leaves those from i + 1 on. */
  lemma DrainOne(r: Ring, held: map<nat, Packet>, i: nat)
    requires RingOk(r) && r.bottom <= i <= r.top
    requires Early(r) == From(held, i) && i in held
    ensures RingOk(Remove(r, i)) && Early(Remove(r, i)) == From(held, i + 1)
    ensures r.slots[Index(i, |r.slots|)] == Some(held[i])
  {
    RemoveIsDelete(r, i);
    assert i in From(held, i) && From(held, i)[i] == held[i];
    assert i in Early(r) && Early(r)[i] == held[i];
  }

  lemma {:induction false} FirstGapIs(m: map<nat, Packet>, lo: nat, hi: nat, g: nat)
    requires lo <= g <= hi && (forall n: nat :: lo <= n < g ==> n in m) && (g < hi ==> g !in m)
    ensures g == FirstGap(m, lo, hi)
    decreases hi - lo
  {
    if lo < g { FirstGapIs(m, lo + 1, hi, g); }
  }
}
