/** libcpe464: the fault injector between send_packet2 and the socket, and the link it makes. */
module FaultyLink {
  import opened Packets
  import opened Checksum
  import opened PacketCodec
  import opened Protocol
  import opened Safety

  /** The event classes: infoSeqNo, errorDrop (of everything or of listed messages) and errorFlipBits. */
  datatype Event = Info | Drop(all: bool, list: seq<nat>) | FlipBits

  /**
   * The random draws of one call: the byte each standard event would flip, which chance event runs, if any,
   * and the byte that one would flip.
   */
  datatype Draw = Draw(flips: seq<nat>, chance: Option<Chance>)
  datatype Chance = Chance(event: nat, at: nat)

  /** What a call of sendtoErr leads to; Exited is the exit on a zero length. */
  datatype Sent = Exited | Lost | OnWire(datagram: seq<byte>)

  predicate Hits(e: Event, msgNo: nat) { e.Drop? && (e.all || msgNo in e.list) }

  predicate Drawn(standard: seq<Event>, chance: seq<Event>, draw: Draw, len: nat) {
    && |draw.flips| == |standard| && (forall i :: 0 <= i < |draw.flips| ==> draw.flips[i] < len)
    && (draw.chance.Some? ==> draw.chance.value.event < |chance| && draw.chance.value.at < len)
  }

  /** The datagram after one event has run on it. */
  function Touched(e: Event, d: seq<byte>, at: nat): (c: seq<byte>)
    requires at < |d|
    ensures |c| == |d|
  {
    if e.FlipBits? then FlipAt(d, at) else d
  }

  /** The datagram after a list of events, each flip at its own drawn byte. */
  function AllTouched(events: seq<Event>, flips: seq<nat>, d: seq<byte>): (c: seq<byte>)
    requires |events| == |flips| && forall i :: 0 <= i < |flips| ==> flips[i] < |d|
    ensures |c| == |d|
    ensures (forall i :: 0 <= i < |events| ==> !events[i].FlipBits?) ==> c == d
  {
    if events == [] then d
    else var k := |events| - 1; Touched(events[k], AllTouched(events[..k], flips[..k], d), flips[k])
  }

  predicate Dropped(standard: seq<Event>, chance: seq<Event>, msgNo: nat, draw: Draw)
    requires draw.chance.Some? ==> draw.chance.value.event < |chance|
  {
    || (exists i :: 0 <= i < |standard| && Hits(standard[i], msgNo))
    || (msgNo > 1 && draw.chance.Some? && Hits(chance[draw.chance.value.event], msgNo))
  }

  /** The fate of datagram d as message msgNo: no chance event on the first message. */
  function Fate(standard: seq<Event>, chance: seq<Event>, msgNo: nat, draw: Draw, d: seq<byte>): Sent
    requires Drawn(standard, chance, draw, |d|)
  {
    if Dropped(standard, chance, msgNo, draw) then Lost
    else
      var c := AllTouched(standard, draw.flips, d);
      if msgNo <= 1 || draw.chance.None? then OnWire(c)
      else OnWire(Touched(chance[draw.chance.value.event], c, draw.chance.value.at))
  }

  /** What processEvents returns: 2 for a drop; else whether the last events to speak reported a change. */
  function Report(standard: seq<Event>, chance: seq<Event>, msgNo: nat, draw: Draw): nat
    requires draw.chance.Some? ==> draw.chance.value.event < |chance|
  {
    if Dropped(standard, chance, msgNo, draw) then 2
    else if msgNo > 1 && draw.chance.Some? then if chance[draw.chance.value.event].FlipBits? then 1 else 0
    else if exists i :: 0 <= i < |standard| && standard[i].FlipBits? then 1 else 0
  }

  class PacketManager {
    var msgNo: nat
    const standard: seq<Event>
    const chance: seq<Event>

    constructor (standard: seq<Event>, chance: seq<Event>)
      ensures msgNo == 0 && this.standard == standard && this.chance == chance
    {
      msgNo, this.standard, this.chance := 0, standard, chance;
    }

    /** The virtual run(): 0 no change, 1 changed, 2 drop. */
    method RunEvent(e: Event, buf: array<byte>, no: nat, at: nat) returns (result: nat)
      requires at < buf.Length
      modifies buf
      ensures result == if Hits(e, no) then 2 else if e.FlipBits? then 1 else 0
      ensures buf[..] == Touched(e, old(buf[..]), at)
    {
      match e
      case Info => result := 0;
      case Drop(all, list) =>
        var toDrop := all;
        for i := 0 to |list|
          invariant toDrop == (all || no in list[..i])
        {
          if list[i] == no {
            toDrop := true;
            assert no in list[..i + 1];
            break;
          }
        }
        result := if toDrop then 2 else 0;
      case FlipBits =>
        buf[at] := 255 - buf[at];
        result := 1;
    }

    /** Runs the events in order until one drops the message. */
    method RunMsgEvents(events: seq<Event>, flips: seq<nat>, buf: array<byte>, no: nat) returns (result: nat)
      requires |events| == |flips| && forall i :: 0 <= i < |flips| ==> flips[i] < buf.Length
      modifies buf
      ensures result == 2 <==> exists i :: 0 <= i < |events| && Hits(events[i], no)
      ensures result != 2 ==> result == if exists i :: 0 <= i < |events| && events[i].FlipBits? then 1 else 0
      ensures result != 2 ==> buf[..] == AllTouched(events, flips, old(buf[..]))
    {
      var hasChanged := false;
      for i := 0 to |events|
        invariant forall k :: 0 <= k < i ==> !Hits(events[k], no)
        invariant hasChanged <==> exists k :: 0 <= k < i && events[k].FlipBits?
        invariant buf[..] == AllTouched(events[..i], flips[..i], old(buf[..]))
      {
        var r := RunEvent(events[i], buf, no, flips[i]);
        assert events[..i + 1][..i] == events[..i] && flips[..i + 1][..i] == flips[..i];
        if r == 1 {
          hasChanged := true;
        } else if r == 2 {
          return 2;
        }
      }
      assert events[..|events|] == events && flips[..|flips|] == flips;
      result := if hasChanged then 1 else 0;
    }

    method ProcessEvents(buf: array<byte>, no: nat, draw: Draw) returns (result: nat)
      requires Drawn(standard, chance, draw, buf.Length)
      modifies buf
      ensures result == Report(standard, chance, no, draw)
      ensures result != 2 ==> OnWire(buf[..]) == Fate(standard, chance, no, draw, old(buf[..]))
      ensures result == 2 <==> Fate(standard, chance, no, draw, old(buf[..])) == Lost
      ensures result != 2 && (forall i :: 0 <= i < |standard| ==> !standard[i].FlipBits?) ==>
                (result == 1 <==> buf[..] != old(buf[..]))
    {
      var hasChanged, hasDropped := false, false;
      var r := RunMsgEvents(standard, draw.flips, buf, no);
      if r == 2 {
        hasDropped := true;
      } else if r == 1 {
        hasChanged := true;
      }
      if no > 1 && draw.chance.Some? {
        r := RunEvent(chance[draw.chance.value.event], buf, no, draw.chance.value.at);
        if r == 2 {
          hasDropped := true;
        } else {
          hasChanged := r == 1;
        }
      }
      result := if hasDropped then 2 else if hasChanged then 1 else 0;
    }

    /** sendto_Err: faults are applied to a copy; the caller's buffer, which may be a ring slot, stays as it is. */
    method SendtoErr(buf: array<byte>, len: nat, draw: Draw) returns (sent: Sent)
      requires len <= buf.Length && (len > 0 ==> Drawn(standard, chance, draw, len))
      modifies this
      ensures buf[..] == old(buf[..])
      ensures msgNo == old(msgNo) + if len == 0 then 0 else 1
      ensures len == 0 ==> sent == Exited
      ensures len > 0 ==> sent == Fate(standard, chance, msgNo, draw, buf[..len])
    {
      if len == 0 {
        return Exited;
      }
      msgNo := msgNo + 1;
      var tmp := new byte[len](i requires 0 <= i < len reads buf => buf[i]);
      assert tmp[..] == buf[..len];
      var result := ProcessEvents(tmp, msgNo, draw);
      sent := if result == 2 then Lost else OnWire(tmp[..]);
    }
  }

  // ---- What the events do to a datagram ----

  /** A datagram is lost exactly when an event that drops everything, or lists its number, runs on it. */
  lemma LostIff(standard: seq<Event>, chance: seq<Event>, msgNo: nat, draw: Draw, d: seq<byte>)
    requires |draw.flips| == |standard| && forall i :: 0 <= i < |standard| ==> draw.flips[i] < |d|
    requires draw.chance.Some? ==> draw.chance.value.event < |chance| && draw.chance.value.at < |d|
    ensures Fate(standard, chance, msgNo, draw, d) == Lost <==>
              || (exists i :: 0 <= i < |standard| && standard[i].Drop? && (standard[i].all || msgNo in standard[i].list))
              || (msgNo >= 2 && draw.chance.Some? && chance[draw.chance.value.event].Drop? &&
                  (chance[draw.chance.value.event].all || msgNo in chance[draw.chance.value.event].list))
  {
    assert forall i :: 0 <= i < |standard| && Hits(standard[i], msgNo) ==> standard[i].Drop?;
  }

  /** The chance events the program installs, on any message after the first: the drop loses it, whatever its list. */
  lemma InstalledDropLoses(k: nat, chance: seq<Event>, list: seq<nat>, msgNo: nat, at: nat, d: seq<byte>)
    requires k < |chance| && at < |d| && msgNo >= 2
    ensures chance[k] == Drop(true, list) ==> Fate([], chance, msgNo, Draw([], Some(Chance(k, at))), d) == Lost
    ensures chance[k] == Drop(false, list) ==>
              (Fate([], chance, msgNo, Draw([], Some(Chance(k, at))), d) == Lost <==> msgNo in list)
    ensures chance[k] == FlipBits || chance[k] == Info ==> Fate([], chance, msgNo, Draw([], Some(Chance(k, at))), d) != Lost
    ensures Fate([Drop(false, list)], [], msgNo, Draw([at], None), d) == Lost <==> msgNo in list
  {
    LostIff([], chance, msgNo, Draw([], Some(Chance(k, at))), d);
    LostIff([Drop(false, list)], [], msgNo, Draw([at], None), d);
    assert [Drop(false, list)][0] == Drop(false, list);
    hide Fate;
  }

  /** How many of the events flip the byte at offset at. */
  function FlipCount(events: seq<Event>, flips: seq<nat>, at: nat): nat
    requires |events| == |flips|
  {
    if events == [] then 0
    else
      var k := |events| - 1;
      FlipCount(events[..k], flips[..k], at) + (if events[k] == FlipBits && flips[k] == at then 1 else 0)
  }

  /** Each flip complements its own drawn byte: a byte is changed exactly when an odd number of events drew it. */
  lemma {:induction false} TouchedAt(events: seq<Event>, flips: seq<nat>, d: seq<byte>, at: nat)
    requires |events| == |flips| && (forall i :: 0 <= i < |flips| ==> flips[i] < |d|) && at < |d|
    ensures AllTouched(events, flips, d)[at] == if FlipCount(events, flips, at) % 2 == 1 then 255 - d[at] else d[at]
    decreases |events|
  {
    if events != [] {
      var k := |events| - 1;
      TouchedAt(events[..k], flips[..k], d, at);
    }
  }

  /**
   * What goes out when no standard event flips: the datagram, with exactly the drawn byte complemented when a chance
   * flip runs, on any message but the first.
   */
  lemma FlipsOneByte(standard: seq<Event>, chance: seq<Event>, msgNo: nat, draw: Draw, d: seq<byte>)
    requires Drawn(standard, chance, draw, |d|) && Fate(standard, chance, msgNo, draw, d) != Lost
    requires forall i :: 0 <= i < |standard| ==> !standard[i].FlipBits?
    ensures var fate := Fate(standard, chance, msgNo, draw, d);
            && fate.OnWire? && |fate.datagram| == |d|
            && (msgNo >= 2 && draw.chance.Some? && chance[draw.chance.value.event] == FlipBits ==>
                  && fate.datagram[draw.chance.value.at] + d[draw.chance.value.at] == 255
                  && forall i :: 0 <= i < |d| && i != draw.chance.value.at ==> fate.datagram[i] == d[i])
            && (!(msgNo >= 2 && draw.chance.Some? && chance[draw.chance.value.event] == FlipBits) ==> fate.datagram == d)
  {
  }

  /** While no standard event flips, a message that is not lost is reported as changed, 1, exactly when it was. */
  lemma ReportTells(standard: seq<Event>, chance: seq<Event>, msgNo: nat, draw: Draw, d: seq<byte>)
    requires Drawn(standard, chance, draw, |d|)
    requires forall i :: 0 <= i < |standard| ==> !standard[i].FlipBits?
    ensures Report(standard, chance, msgNo, draw) == match Fate(standard, chance, msgNo, draw, d)
                                                     case Lost => 2
                                                     case OnWire(c) => if c == d then 0 else 1
                                                     case Exited => 3
  {
    if Fate(standard, chance, msgNo, draw, d) != Lost { FlipsOneByte(standard, chance, msgNo, draw, d); }
  }

  /**
   * The last word goes to the chance event: one that leaves the datagram alone has it reported as unchanged, though a
   * standard event has complemented a byte; without a chance event the flip is reported.
   */
  lemma ReportForgets(msgNo: nat, at: nat, flip: nat, d: seq<byte>)
    requires msgNo >= 2 && at < |d| && flip < |d|
    ensures var draw := Draw([flip], Some(Chance(0, at)));
            && Report([FlipBits], [Info], msgNo, draw) == 0
            && Fate([FlipBits], [Info], msgNo, draw, d) == OnWire(d[flip := 255 - d[flip]])
            && d[flip := 255 - d[flip]] != d
    ensures var draw := Draw([flip], None);
            && Report([FlipBits], [Info], msgNo, draw) == 1
            && Fate([FlipBits], [Info], msgNo, draw, d) == OnWire(d[flip := 255 - d[flip]])
  {
    OneFlip(flip, d);
    assert [FlipBits][0] == FlipBits && [Info][0] == Info;
  }

  lemma OneFlip(flip: nat, d: seq<byte>)
    requires flip < |d|
    ensures AllTouched([FlipBits], [flip], d) == d[flip := 255 - d[flip]] && d[flip := 255 - d[flip]][flip] != d[flip]
  {
    assert [FlipBits][..0] == [] && [flip][..0] == [];
  }

  /** The chance flip the checksum may miss: at offset 10, the low byte of the size. */
  predicate FlipsSize(chance: seq<Event>, msgNo: nat, draw: Draw)
    requires draw.chance.Some? ==> draw.chance.value.event < |chance|
  {
    msgNo > 1 && draw.chance.Some? && draw.chance.value.at == 10 && chance[draw.chance.value.event].FlipBits?
  }

  /** Whatever the receive buffer held and whatever the hosts' byte orders, d is received as p was sent. */
  ghost predicate Bears(d: seq<byte>, p: Packet) {
    forall stale: seq<byte>, order: Order :: |stale| == FULL_LENGTH ==> ReceivedAsSent(stale, d, order, p)
  }

  /** Whatever the receive buffer held and whatever the hosts' byte orders, d is received as a CRC error. */
  ghost predicate Spoiled(d: seq<byte>) {
    forall stale: seq<byte>, order: Order :: |stale| == FULL_LENGTH ==> Receive(stale, d, order) == Arrived(CrcError)
  }

  /** A datagram in flight that stands for packet p. */
  ghost predicate Carries(d: seq<byte>, p: Packet) { Bears(d, p) || Spoiled(d) }

  /**
   * With the standard events the program installs, none of which flips, the byte-level link does what the protocol's
   * link does: a datagram is lost, or it is received as the packet that was sent, or as a CRC error. The one
   * exception is a chance flip at offset 10, and what is on the wire then is the packet with that byte complemented.
   */
  lemma LinkRefines(standard: seq<Event>, chance: seq<Event>, msgNo: nat, draw: Draw, p: Packet, sender: Order)
    requires Encodable(p) && Drawn(standard, chance, draw, HEADER_LENGTH + |p.payload|)
    requires forall i :: 0 <= i < |standard| ==> !standard[i].FlipBits?
    ensures var fate := Fate(standard, chance, msgNo, draw, Wire(p, sender));
            || (fate == Lost && Dropped(standard, chance, msgNo, draw))
            || (fate.OnWire? && !FlipsSize(chance, msgNo, draw) && Carries(fate.datagram, p))
            || (FlipsSize(chance, msgNo, draw) && fate == OnWire(FlipAt(Wire(p, sender), 10)))
  {
    hide Wire, Receive, ReceivedAsSent, FlipAt;
    forall stale: seq<byte>, order: Order | |stale| == FULL_LENGTH
      ensures ReceivedAsSent(stale, Wire(p, sender), order, p)
    {
      RoundTrip(p, sender, stale, order);
    }
    if draw.chance.Some? && draw.chance.value.at != 10 {
      FlipSpoils(p, sender, draw.chance.value.at);
    }
  }

  lemma FlipSpoils(p: Packet, sender: Order, at: nat)
    requires Encodable(p) && at < HEADER_LENGTH + |p.payload| && at != 10
    ensures Spoiled(FlipAt(Wire(p, sender), at))
  {
    hide Wire, Receive, FlipAt;
    forall stale: seq<byte>, order: Order | |stale| == FULL_LENGTH
      ensures Receive(stale, FlipAt(Wire(p, sender), at), order) == Arrived(CrcError)
    {
      FlipIsRejected(p, sender, at, stale, order);
    }
  }

  /** The first message of a process is never damaged by chance. */
  lemma FirstMessageSafe(standard: seq<Event>, chance: seq<Event>, draw: Draw, p: Packet, sender: Order,
                         stale: seq<byte>, receiver: Order)
    requires Encodable(p) && |stale| == FULL_LENGTH && Drawn(standard, chance, draw, HEADER_LENGTH + |p.payload|)
    requires forall i :: 0 <= i < |standard| ==> !standard[i].FlipBits? && !Hits(standard[i], 1)
    ensures var fate := Fate(standard, chance, 1, draw, Wire(p, sender));
            fate.OnWire? && ReceivedAsSent(stale, fate.datagram, receiver, p)
  {
    RoundTrip(p, sender, stale, receiver);
  }

  /** Every packet of a transfer whose numbers fit in 32 bits can be put on the wire. */
  lemma InFlightEncodable(cfg: Config, s: Sys, p: Packet)
    requires Reachable(cfg, s) && |Chunks(cfg)| + 2 < 0x8000_0000
    requires p in s.toClient || p in s.toServer
    ensures Encodable(p)
  {
    ReachableInv(cfg, s);
    if p in s.toClient {
      assert ToClientOk(cfg, s, p);
    } else {
      assert ToServerOk(cfg, s, p);
    }
  }
}
