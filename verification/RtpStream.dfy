/**
 * The per-source sequence tracker of backend/app/audio/rtp_stream.py, the
 * unbounded-sequence-number tracker it stands for, and the simulator's numbering.
 */
module RtpStream {
  import opened Common
  import opened Rtp

  datatype Disposition = Initial | InOrder | Duplicate | Gap(dropped: nat) | OutOfOrder | SsrcChange

  datatype Stats = Stats(
    received: nat, dropped: nat, duplicates: nat, gaps: nat, outOfOrder: nat, bytes: nat,
    ssrc: Option<nat>, transitions: nat, lastSequence: Option<nat>, lastTimestamp: Option<nat>)

  const FRESH := Stats(0, 0, 0, 0, 0, 0, None, 0, None, None)

  /** `(new - previous) & 0xFFFF`. */
  function SequenceDelta(current: int, previous: int): nat {
    (current - previous) % 0x1_0000
  }

  // ----- specification of one packet

  function Accepted(stats: Stats, packet: Packet, dropped: nat): Stats {
    stats.(received := stats.received + 1,
           dropped := stats.dropped + dropped,
           bytes := stats.bytes + |packet.payload|,
           lastSequence := Some(packet.sequenceNumber),
           lastTimestamp := Some(packet.timestamp))
  }

  function Classify(stats: Stats, packet: Packet): Disposition {
    if stats.ssrc.Some? && packet.ssrc != stats.ssrc.value then SsrcChange
    else if stats.ssrc.None? || stats.lastSequence.None? then Initial
    else
      var delta := SequenceDelta(packet.sequenceNumber, stats.lastSequence.value);
      if delta == 0 then Duplicate
      else if delta == 1 then InOrder
      else if delta < 0x8000 then Gap(delta - 1)
      else OutOfOrder
  }

  function Tracked(stats: Stats, packet: Packet): Stats {
    match Classify(stats, packet)
    case SsrcChange => Accepted(stats.(ssrc := Some(packet.ssrc), transitions := stats.transitions + 1), packet, 0)
    case Initial => Accepted(stats.(ssrc := Some(packet.ssrc)), packet, 0)
    case InOrder => Accepted(stats, packet, 0)
    case Gap(dropped) => Accepted(stats.(gaps := stats.gaps + 1), packet, dropped)
    case Duplicate => stats.(duplicates := stats.duplicates + 1)
    case OutOfOrder => stats.(outOfOrder := stats.outOfOrder + 1)
  }

  function TrackedAll(stats: Stats, packets: seq<Packet>): Stats {
    if packets == [] then stats
    else Tracked(TrackedAll(stats, packets[..|packets| - 1]), packets[|packets| - 1])
  }

  // ----- the tracker

  class RtpStreamTracker {
    var stats: Stats

    constructor ()
      ensures stats == FRESH
    {
      stats := FRESH;
    }

    method OnPacket(packet: Packet) returns (disposition: Disposition)
      modifies this
      ensures disposition == Classify(old(stats), packet)
      ensures stats == Tracked(old(stats), packet)
    {
      if stats.ssrc.Some? && packet.ssrc != stats.ssrc.value {
        stats := stats.(ssrc := Some(packet.ssrc));
        stats := stats.(transitions := stats.transitions + 1);
        stats := stats.(lastSequence := None);
        stats := stats.(lastTimestamp := None);
        Accept(packet, 0);
        return SsrcChange;
      }
      if stats.ssrc.None? {
        stats := stats.(ssrc := Some(packet.ssrc));
        Accept(packet, 0);
        return Initial;
      }
      if stats.lastSequence.None? {
        Accept(packet, 0);
        return Initial;
      }
      var delta := SequenceDelta(packet.sequenceNumber, stats.lastSequence.value);
      if delta == 0 {
        stats := stats.(duplicates := stats.duplicates + 1);
        return Duplicate;
      }
      if delta == 1 {
        Accept(packet, 0);
        return InOrder;
      }
      if delta < 0x8000 {
        stats := stats.(gaps := stats.gaps + 1);
        Accept(packet, delta - 1);
        return Gap(delta - 1);
      }
      stats := stats.(outOfOrder := stats.outOfOrder + 1);
      return OutOfOrder;
    }

    method Accept(packet: Packet, dropped: nat)
      modifies this
      ensures stats == Accepted(old(stats), packet, dropped)
    {
      stats := stats.(received := stats.received + 1);
      stats := stats.(dropped := stats.dropped + dropped);
      stats := stats.(bytes := stats.bytes + |packet.payload|);
      stats := stats.(lastSequence := Some(packet.sequenceNumber));
      stats := stats.(lastTimestamp := Some(packet.timestamp));
    }
  }

  // ----- conservation on any input

  /** Every packet offered is counted once: received, duplicate or out of order. */
  lemma {:induction false} EveryPacketIsCounted(stats: Stats, packets: seq<Packet>)
    ensures var after := TrackedAll(stats, packets);
            after.received + after.duplicates + after.outOfOrder
            == stats.received + stats.duplicates + stats.outOfOrder + |packets|
  {
    if packets != [] {
      EveryPacketIsCounted(stats, packets[..|packets| - 1]);
    }
  }

  // ----- the counters of a run, read off the packets alone

  /** How far a packet's number is ahead in the circle of 2^16 numbers. */
  function Ahead(q: Packet, packet: Packet): nat {
    (packet.sequenceNumber - q.sequenceNumber) % 0x1_0000
  }

  predicate IsRepeat(q: Packet, packet: Packet) {
    q.ssrc == packet.ssrc && Ahead(q, packet) == 0
  }

  predicate IsBehind(q: Packet, packet: Packet) {
    q.ssrc == packet.ssrc && Ahead(q, packet) >= 0x8000
  }

  predicate IsStale(q: Packet, packet: Packet) {
    IsRepeat(q, packet) || IsBehind(q, packet)
  }

  predicate IsGap(q: Packet, packet: Packet) {
    q.ssrc == packet.ssrc && 2 <= Ahead(q, packet) < 0x8000
  }

  predicate IsSwitch(q: Packet, packet: Packet) {
    q.ssrc != packet.ssrc
  }

  /** The packet the next one is held against: the last that was not stale itself. */
  function LastTaken(packets: seq<Packet>): Option<Packet> {
    if packets == [] then None
    else
      var held, last := LastTaken(packets[..|packets| - 1]), packets[|packets| - 1];
      if held.Some? && IsStale(held.value, last) then held else Some(last)
  }

  /** The sum of `amount` over the packets that stand in this relation to the one they are held against. */
  ghost function SumOver(packets: seq<Packet>, test: (Packet, Packet) -> bool, amount: (Packet, Packet) -> nat): nat {
    if packets == [] then 0
    else
      var before, last := packets[..|packets| - 1], packets[|packets| - 1];
      var held := LastTaken(before);
      SumOver(before, test, amount)
      + if held.Some? && test(held.value, last) then amount(held.value, last) else 0
  }

  ghost function Count(packets: seq<Packet>, test: (Packet, Packet) -> bool): nat {
    SumOver(packets, test, (_, _) => 1)
  }

  ghost function PayloadBytes(packets: seq<Packet>): nat {
    if packets == [] then 0 else PayloadBytes(packets[..|packets| - 1]) + |packets[|packets| - 1].payload|
  }

  ghost predicate StandsAt(stats: Stats, held: Option<Packet>) {
    match held
    case None => stats.ssrc == None && stats.lastSequence == None && stats.lastTimestamp == None
    case Some(packet) =>
      && stats.ssrc == Some(packet.ssrc)
      && stats.lastSequence == Some(packet.sequenceNumber)
      && stats.lastTimestamp == Some(packet.timestamp)
  }

  lemma StandsAtNext(stats: Stats, held: Option<Packet>, packet: Packet)
    requires StandsAt(stats, held)
    ensures StandsAt(Tracked(stats, packet),
                     if held.Some? && IsStale(held.value, packet) then held else Some(packet))
  {
  }

  /** The counters of a fresh tracker after a run, each as a count of its own kind of packet. */
  ghost predicate CountersFit(stats: Stats, packets: seq<Packet>) {
    && stats.duplicates == Count(packets, IsRepeat)
    && stats.outOfOrder == Count(packets, IsBehind)
    && stats.gaps == Count(packets, IsGap)
    && stats.dropped + stats.gaps == SumOver(packets, IsGap, Ahead)
    && stats.transitions == Count(packets, IsSwitch)
    && stats.received + stats.duplicates + stats.outOfOrder == |packets|
    && stats.bytes + SumOver(packets, IsStale, (_, packet: Packet) => |packet.payload|) == PayloadBytes(packets)
  }

  lemma CountersFitNext(stats: Stats, packets: seq<Packet>)
    requires packets != [] && CountersFit(stats, packets[..|packets| - 1])
    requires StandsAt(stats, LastTaken(packets[..|packets| - 1]))
    ensures CountersFit(Tracked(stats, packets[|packets| - 1]), packets)
  {
  }

  /**
   * Over any packets: each counter counts its own kind of packet, dropped is the sum of the
   * numbers passed over, bytes are those of the packets that were not stale, and the tracker
   * stands at the last of those.
   */
  lemma {:induction false} CountersOfRun(packets: seq<Packet>)
    ensures CountersFit(TrackedAll(FRESH, packets), packets)
    ensures StandsAt(TrackedAll(FRESH, packets), LastTaken(packets))
  {
    if packets != [] {
      var before, last := packets[..|packets| - 1], packets[|packets| - 1];
      CountersOfRun(before);
      CountersFitNext(TrackedAll(FRESH, before), packets);
      StandsAtNext(TrackedAll(FRESH, before), LastTaken(before), last);
    }
  }

  // ----- the reference: sequence numbers that never wrap

  /** A packet as its sender numbers it: `number` counts on past 2^16 instead of wrapping. */
  datatype Numbered = Numbered(packet: Packet, number: int)

  /**
   * What the reference tracker knows of one epoch, a stretch under one SSRC: the first and
   * the highest number taken, how many were taken, and how many were passed over.
   */
  datatype Epoch = Epoch(ssrc: nat, first: int, highest: int, taken: nat, lost: nat)

  ghost predicate WellNumbered(a: Numbered) {
    a.packet.sequenceNumber == a.number % 0x1_0000
  }

  ghost predicate Continues(epochs: seq<Epoch>, a: Numbered) {
    epochs != [] && epochs[|epochs| - 1].ssrc == a.packet.ssrc
  }

  /** An arrival that continues an epoch lies within half the number space of its highest number. */
  ghost predicate InWindow(epochs: seq<Epoch>, a: Numbered) {
    Continues(epochs, a) ==> -0x8000 <= a.number - epochs[|epochs| - 1].highest < 0x8000
  }

  ghost function Reference(epochs: seq<Epoch>, a: Numbered): seq<Epoch> {
    if !Continues(epochs, a) then
      epochs + [Epoch(a.packet.ssrc, a.number, a.number, 1, 0)]
    else
      var last := epochs[|epochs| - 1];
      if a.number > last.highest then
        epochs[..|epochs| - 1]
        + [last.(highest := a.number, taken := last.taken + 1, lost := last.lost + (a.number - last.highest - 1))]
      else
        epochs
  }

  /** The epochs of a run, in order. */
  ghost function ReferenceAll(arrivals: seq<Numbered>): seq<Epoch> {
    if arrivals == [] then []
    else Reference(ReferenceAll(arrivals[..|arrivals| - 1]), arrivals[|arrivals| - 1])
  }

  /** New, ahead, equal or behind, read off the unbounded numbers alone. */
  ghost function ReferenceVerdict(epochs: seq<Epoch>, a: Numbered): Disposition {
    if epochs == [] then Initial
    else if !Continues(epochs, a) then SsrcChange
    else
      var highest := epochs[|epochs| - 1].highest;
      if a.number == highest then Duplicate
      else if a.number == highest + 1 then InOrder
      else if a.number > highest then Gap(a.number - highest - 1)
      else OutOfOrder
  }

  ghost predicate AllInWindow(arrivals: seq<Numbered>) {
    forall i :: 0 <= i < |arrivals| ==> WellNumbered(arrivals[i]) && InWindow(ReferenceAll(arrivals[..i]), arrivals[i])
  }

  function PacketsOf(arrivals: seq<Numbered>): seq<Packet> {
    seq(|arrivals|, i requires 0 <= i < |arrivals| => arrivals[i].packet)
  }

  ghost function TotalTaken(epochs: seq<Epoch>): nat {
    if epochs == [] then 0 else TotalTaken(epochs[..|epochs| - 1]) + epochs[|epochs| - 1].taken
  }

  ghost function TotalLost(epochs: seq<Epoch>): nat {
    if epochs == [] then 0 else TotalLost(epochs[..|epochs| - 1]) + epochs[|epochs| - 1].lost
  }

  /**
   * The 16-bit state stands for the unbounded one, and in each epoch received plus dropped
   * is the expected count of appendix A.3 of RFC 3550, highest - first + 1.
   */
  ghost predicate Represents(stats: Stats, epochs: seq<Epoch>) {
    && stats.received == TotalTaken(epochs)
    && stats.dropped == TotalLost(epochs)
    && (forall e :: e in epochs ==> e.taken + e.lost == e.highest - e.first + 1)
    && if epochs == [] then stats.ssrc == None && stats.transitions == 0
       else
         && stats.transitions == |epochs| - 1
         && stats.ssrc == Some(epochs[|epochs| - 1].ssrc)
         && stats.lastSequence == Some(epochs[|epochs| - 1].highest % 0x1_0000)
  }

  lemma DeltaOfNumbers(number: int, highest: int)
    requires -0x8000 <= number - highest < 0x8000
    ensures SequenceDelta(number % 0x1_0000, highest % 0x1_0000)
            == if number >= highest then number - highest else number - highest + 0x1_0000
  {
    var difference := number - highest;
    var n, h := number / 0x1_0000, highest / 0x1_0000;
    assert number % 0x1_0000 - highest % 0x1_0000 == difference - 0x1_0000 * (n - h);
  }

  lemma StepRefinesReference(stats: Stats, epochs: seq<Epoch>, a: Numbered)
    requires Represents(stats, epochs)
    requires WellNumbered(a) && InWindow(epochs, a)
    ensures Classify(stats, a.packet) == ReferenceVerdict(epochs, a)
    ensures Represents(Tracked(stats, a.packet), Reference(epochs, a))
  {
    var next := Reference(epochs, a);
    if Continues(epochs, a) {
      var last := epochs[|epochs| - 1];
      DeltaOfNumbers(a.number, last.highest);
      assert last in epochs;
      assert a.number > last.highest ==> next[..|next| - 1] == epochs[..|epochs| - 1];
    } else {
      assert next[..|next| - 1] == epochs;
    }
  }

  lemma PrefixGrows(arrivals: seq<Numbered>, k: nat)
    requires 0 < k <= |arrivals|
    ensures TrackedAll(FRESH, PacketsOf(arrivals[..k]))
            == Tracked(TrackedAll(FRESH, PacketsOf(arrivals[..k - 1])), arrivals[k - 1].packet)
    ensures ReferenceAll(arrivals[..k]) == Reference(ReferenceAll(arrivals[..k - 1]), arrivals[k - 1])
  {
    assert arrivals[..k][..k - 1] == arrivals[..k - 1];
    assert PacketsOf(arrivals[..k])[..k - 1] == PacketsOf(arrivals[..k - 1]);
  }

  /**
   * The 16-bit tracker refines the unbounded one: after every prefix of a run whose arrivals
   * lie in the window it stands for the reference's epochs, and it gives the next arrival the
   * reference's verdict.
   */
  lemma {:induction false} TrackerRefinesReference(arrivals: seq<Numbered>, k: nat)
    requires AllInWindow(arrivals) && k <= |arrivals|
    ensures var stats, epochs := TrackedAll(FRESH, PacketsOf(arrivals[..k])), ReferenceAll(arrivals[..k]);
            && Represents(stats, epochs)
            && (k < |arrivals| ==> Classify(stats, arrivals[k].packet) == ReferenceVerdict(epochs, arrivals[k]))
  {
    if k > 0 {
      TrackerRefinesReference(arrivals, k - 1);
      PrefixGrows(arrivals, k);
      StepRefinesReference(TrackedAll(FRESH, PacketsOf(arrivals[..k - 1])), ReferenceAll(arrivals[..k - 1]),
                           arrivals[k - 1]);
    }
    if k < |arrivals| {
      StepRefinesReference(TrackedAll(FRESH, PacketsOf(arrivals[..k])), ReferenceAll(arrivals[..k]), arrivals[k]);
    }
  }

  // ----- the simulator's numbering, seen by parser and tracker

  datatype SendPacket = SendPacket(
    payloadType: int, sequenceNumber: int, timestamp: int, ssrc: int, marker: bool, payload: seq<Byte>)

  /** A packet with a source in range, as a receiver parses it. */
  function AsParsed(p: SendPacket): Packet
    requires p.ssrc >= 0
  {
    Packet(2, false, false, 0, p.marker, p.payloadType % 128, p.sequenceNumber % 0x1_0000,
           p.timestamp % 0x1_0000_0000, p.ssrc, [], FIXED_HEADER_LENGTH, p.payload)
  }

  lemma SentParses(p: SendPacket)
    requires 0 <= p.ssrc < 0x1_0000_0000
    ensures var built := Build(p.payloadType, p.sequenceNumber, p.timestamp, p.ssrc, p.payload, p.marker, 2);
            built.Some? && Parse(built.value) == Ok(AsParsed(p))
  {
    ParseInvertsBuild(p.payloadType, p.sequenceNumber, p.timestamp, p.ssrc, p.payload, p.marker);
  }

  class RtpSimulator {
    const ssrc: nat
    const payloadType: int
    var nextSequence: nat
    var nextTimestamp: int

    ghost predicate Valid()
      reads this
    {
      ssrc < 0x1_0000_0000 && nextSequence < 0x1_0000
    }

    constructor (ssrc: int, payloadType: int)
      ensures Valid()
      ensures this.ssrc == ssrc % 0x1_0000_0000 && this.payloadType == payloadType
      ensures nextSequence == 0 && nextTimestamp == 0
    {
      this.ssrc := ssrc % 0x1_0000_0000;
      this.payloadType := payloadType;
      nextSequence, nextTimestamp := 0, 0;
    }

    /** `build`: an argument that is None falls back to the simulator's own value. */
    method Prepare(payload: Option<seq<Byte>>, sequence: Option<int>, timestamp: Option<int>, source: Option<int>,
                   marker: bool, kind: Option<int>)
      returns (packet: SendPacket)
      modifies this
      ensures old(Valid()) ==> Valid()
      ensures packet.sequenceNumber == sequence.GetOr(old(nextSequence))
      ensures packet.timestamp == timestamp.GetOr(old(nextTimestamp))
      ensures packet.ssrc == source.GetOr(ssrc) % 0x1_0000_0000
      ensures packet.payloadType == kind.GetOr(payloadType)
      ensures packet.marker == marker && packet.payload == payload.GetOr([])
      ensures nextSequence == (packet.sequenceNumber + 1) % 0x1_0000
      ensures nextTimestamp == packet.timestamp + 160
    {
      var sequenceNumber := sequence.GetOr(nextSequence);
      var stamp := timestamp.GetOr(nextTimestamp);
      nextSequence := (sequenceNumber + 1) % 0x1_0000;
      nextTimestamp := stamp + 160;
      packet := SendPacket(kind.GetOr(payloadType), sequenceNumber, stamp,
                           source.GetOr(ssrc) % 0x1_0000_0000, marker, payload.GetOr([]));
    }

    /** The datagram handed to the socket parses back to what was asked for, cut to the field widths. */
    method Send(payload: Option<seq<Byte>>, sequence: Option<int>, timestamp: Option<int>, source: Option<int>,
                marker: bool, kind: Option<int>)
      returns (datagram: seq<Byte>)
      requires Valid()
      modifies this
      ensures Valid()
      ensures Parse(datagram) == Ok(Packet(
                2, false, false, 0, marker, kind.GetOr(payloadType) % 128, sequence.GetOr(old(nextSequence)) % 0x1_0000,
                timestamp.GetOr(old(nextTimestamp)) % 0x1_0000_0000, source.GetOr(ssrc) % 0x1_0000_0000,
                [], FIXED_HEADER_LENGTH, payload.GetOr([])))
      ensures nextSequence == (sequence.GetOr(old(nextSequence)) + 1) % 0x1_0000
      ensures nextTimestamp == timestamp.GetOr(old(nextTimestamp)) + 160
    {
      var p := Prepare(payload, sequence, timestamp, source, marker, kind);
      SentParses(p);
      datagram := Build(p.payloadType, p.sequenceNumber, p.timestamp, p.ssrc, p.payload, p.marker, 2).value;
    }

    method SendSilence(n: int, samples: nat, value: int) returns (datagrams: seq<seq<Byte>>)
      requires Valid()
      modifies this
      ensures Valid()
      ensures |datagrams| == if n < 0 then 0 else n
      ensures forall i :: 0 <= i < |datagrams| ==>
                Parse(datagrams[i]) == Ok(Simulated(ssrc, payloadType, seq(samples, _ => value % 256),
                                                    old(nextSequence), old(nextTimestamp), i))
    {
      var payload: seq<Byte> := seq(samples, _ => value % 256);
      datagrams := [];
      while |datagrams| < n
        invariant Valid()
        invariant n < 0 ==> datagrams == []
        invariant n >= 0 ==> |datagrams| <= n
        invariant nextSequence == (old(nextSequence) + |datagrams|) % 0x1_0000
        invariant nextTimestamp == old(nextTimestamp) + 160 * |datagrams|
        invariant forall i :: 0 <= i < |datagrams| ==>
                    Parse(datagrams[i]) == Ok(Simulated(ssrc, payloadType, payload,
                                                        old(nextSequence), old(nextTimestamp), i))
      {
        SimulatedShift(ssrc, payloadType, payload, old(nextSequence), old(nextTimestamp), |datagrams|);
        var datagram := Send(Some(payload), None, None, None, false, None);
        datagrams := datagrams + [datagram];
      }
    }
  }

  /** The i-th packet of an automatically numbered stream, as a receiver parses it. */
  function Simulated(ssrc: nat, payloadType: int, payload: seq<Byte>, firstSequence: nat, firstTimestamp: int,
                     i: nat): Packet
  {
    Packet(2, false, false, 0, false, payloadType % 128, (firstSequence + i) % 0x1_0000,
           (firstTimestamp + 160 * i) % 0x1_0000_0000, ssrc % 0x1_0000_0000, [], FIXED_HEADER_LENGTH, payload)
  }

  lemma SimulatedShift(ssrc: nat, payloadType: int, payload: seq<Byte>, firstSequence: nat, firstTimestamp: int, i: nat)
    ensures Simulated(ssrc, payloadType, payload, (firstSequence + i) % 0x1_0000, firstTimestamp + 160 * i, 0)
            == Simulated(ssrc, payloadType, payload, firstSequence, firstTimestamp, i)
    ensures ((firstSequence + i) % 0x1_0000 + 1) % 0x1_0000 == (firstSequence + i + 1) % 0x1_0000
  {
  }

  ghost function SimulatedStream(
    ssrc: nat, payloadType: int, payload: seq<Byte>, firstSequence: nat, firstTimestamp: int,
        n: nat): (packets: seq<Packet>)
    ensures |packets| == n
  {
    if n == 0 then []
    else SimulatedStream(ssrc, payloadType, payload, firstSequence, firstTimestamp, n - 1)
         + [Simulated(ssrc, payloadType, payload, firstSequence, firstTimestamp, n - 1)]
  }

  /**
   * An automatically numbered stream of any length is seen without loss, duplicate or
   * reordering, across every wrap of the 16 bits.
   */
  lemma {:induction false} SimulatedStreamIsLossless(
    ssrc: nat, payloadType: int, payload: seq<Byte>, firstSequence: nat, firstTimestamp: int, n: nat)
    ensures var stats :=
            TrackedAll(FRESH, SimulatedStream(ssrc, payloadType, payload, firstSequence, firstTimestamp, n));
            && stats.received == n
            && stats.dropped == stats.duplicates == stats.outOfOrder == stats.gaps == stats.transitions == 0
            && (n > 0 ==> stats.lastSequence == Some((firstSequence + n - 1) % 0x1_0000)
                          && stats.ssrc == Some(ssrc % 0x1_0000_0000))
            && (n == 0 ==> stats == FRESH)
  {
    if n > 0 {
      var before := SimulatedStream(ssrc, payloadType, payload, firstSequence, firstTimestamp, n - 1);
      SimulatedStreamIsLossless(ssrc, payloadType, payload, firstSequence, firstTimestamp, n - 1);
      assert SimulatedStream(ssrc, payloadType, payload, firstSequence, firstTimestamp, n)[..n - 1] == before;
      if n > 1 {
        DeltaOfNumbers(firstSequence + n - 1, firstSequence + n - 2);
      }
    }
  }
}
