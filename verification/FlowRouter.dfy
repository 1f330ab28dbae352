/**
 * The per-flow router of backend/app/audio/flow_router.py and the datagram handler of
 * backend/app/audio/rtp_receiver.py that feeds it.
 *
 * The ordered dict of pipelines is the sequence `pipelines`, least recently used first.
 * Serial numbers tell the pipelines ever created apart; `finalised` lists the serials
 * whose recorder was shut down, in order.
 */
module Flows {
  import opened Rtp
  import opened RtpStream

  datatype FlowKey = FlowKey(srcIp: string, srcPort: int, dstPort: int)

  datatype Entry = Entry(key: FlowKey, serial: nat, stats: Stats)

  datatype State = State(entries: seq<Entry>, created: nat, finalised: seq<nat>)

  const EMPTY := State([], 0, [])

  // ----- specification

  function Position(entries: seq<Entry>, key: FlowKey): (at: nat)
    ensures at <= |entries|
    ensures at < |entries| ==> entries[at].key == key
    ensures forall i :: 0 <= i < at ==> entries[i].key != key
  {
    if entries == [] then 0
    else if entries[0].key == key then 0
    else 1 + Position(entries[1..], key)
  }

  function Serials(entries: seq<Entry>): (serials: seq<nat>)
    ensures |serials| == |entries|
  {
    seq(|entries|, i requires 0 <= i < |entries| => entries[i].serial)
  }

  /** How many of the oldest flows must go to make room for one more. */
  function Excess(size: nat, maxFlows: nat): nat {
    if size >= maxFlows > 0 then size - maxFlows + 1 else 0
  }

  /** `get_or_create`: the flow's entry moved to the recent end, or made there. */
  function Touched(r: State, maxFlows: nat, key: FlowKey): State {
    var at := Position(r.entries, key);
    if at < |r.entries| then
      r.(entries := r.entries[..at] + r.entries[at + 1..] + [r.entries[at]])
    else
      var out := Excess(|r.entries|, maxFlows);
      State(r.entries[out..] + [Entry(key, r.created, FRESH)],
            r.created + 1,
            r.finalised + Serials(r.entries[..out]))
  }

  function Received(r: State, maxFlows: nat, key: FlowKey, packet: Packet): State {
    var touched := Touched(r, maxFlows, key);
    var last := |touched.entries| - 1;
    var entry := touched.entries[last];
    touched.(entries := touched.entries[last := entry.(stats := Tracked(entry.stats, packet))])
  }

  function ShutDown(r: State): State {
    State([], r.created, r.finalised + Serials(r.entries))
  }

  // ----- the router

  class FlowPipeline {
    const key: FlowKey
    const tracker: RtpStreamTracker
    ghost const serial: nat

    constructor (key: FlowKey, tracker: RtpStreamTracker, ghost serial: nat)
      ensures this.key == key && this.tracker == tracker && this.serial == serial
    {
      this.key, this.tracker, this.serial := key, tracker, serial;
    }
  }

  class FlowRouter {
    const maxFlows: nat
    var pipelines: seq<FlowPipeline>
    ghost var created: nat
    ghost var finalised: seq<nat>

    /** All trackers this router ever created. */
    ghost var trackers: set<RtpStreamTracker>

    /** No two flows share a key or a tracker. */
    ghost predicate Valid()
      reads this
    {
      && maxFlows > 0
      && (forall i :: 0 <= i < |pipelines| ==> pipelines[i].tracker in trackers)
      && (forall i, j :: 0 <= i < j < |pipelines| ==> pipelines[i].key != pipelines[j].key)
      && (forall i, j :: 0 <= i < j < |pipelines| ==> pipelines[i].tracker != pipelines[j].tracker)
    }

    ghost function Entries(): (entries: seq<Entry>)
      requires Valid()
      reads this, trackers
      ensures |entries| == |pipelines|
    {
      seq(|pipelines|, i requires Valid() && 0 <= i < |pipelines| reads this, trackers =>
        Entry(pipelines[i].key, pipelines[i].serial, pipelines[i].tracker.stats))
    }

    ghost function Contents(): State
      requires Valid()
      reads this, trackers
    {
      State(Entries(), created, finalised)
    }

    constructor (maxFlows: int)
      ensures Valid() && Contents() == EMPTY
      ensures this.maxFlows == if maxFlows < 1 then 1 else maxFlows
      ensures pipelines == []
    {
      this.maxFlows := if maxFlows < 1 then 1 else maxFlows;
      pipelines := [];
      created, finalised, trackers := 0, [], {};
    }

    method GetOrCreate(key: FlowKey) returns (pipeline: FlowPipeline)
      requires Valid()
      modifies this
      ensures Valid()
      ensures pipelines != [] && pipeline == pipelines[|pipelines| - 1]
      ensures fresh(trackers - old(trackers))
      ensures Contents() == Touched(old(Contents()), maxFlows, key)
    {
      var at := Find(key);
      if at < |pipelines| {
        pipeline := MoveToEnd(at);
        assert Entries() == Touched(old(Contents()), maxFlows, key).entries;
      } else {
        EvictOldest();
        pipeline := Create(key);
        assert Entries() == Touched(old(Contents()), maxFlows, key).entries;
      }
    }

    /** When only the most recent flow's tracker moves, only the last entry changes. */
    twostate lemma OnlyLastMoves()
      requires old(Valid()) && Valid() && pipelines == old(pipelines) && pipelines != []
      requires forall i :: 0 <= i < |pipelines| - 1 ==>
                 pipelines[i].tracker.stats == old(pipelines[i].tracker.stats)
      ensures var n := |pipelines| - 1;
              Entries() == old(Entries())[n := old(Entries())[n].(stats := pipelines[n].tracker.stats)]
    {
    }

    /** The dict's lookup. */
    method Find(key: FlowKey) returns (at: nat)
      requires Valid()
      ensures at == Position(Entries(), key)
      ensures at <= |pipelines|
      ensures at == |pipelines| ==> forall j :: 0 <= j < |pipelines| ==> pipelines[j].key != key
    {
      ghost var entries := Entries();
      assert forall j :: 0 <= j < |entries| ==> entries[j].key == pipelines[j].key;
      if i :| 0 <= i < |pipelines| && pipelines[i].key == key {
        assert entries[i].key == key;
        at := i;
      } else {
        at := |pipelines|;
      }
    }

    /** `move_to_end` of the ordered dict. */
    method MoveToEnd(i: nat) returns (pipeline: FlowPipeline)
      requires Valid() && i < |pipelines|
      modifies this`pipelines
      ensures Valid()
      ensures pipelines != [] && pipeline == pipelines[|pipelines| - 1] == old(pipelines[i])
      ensures Entries() == old(Entries()[..i] + Entries()[i + 1..] + [Entries()[i]])
    {
      pipeline := pipelines[i];
      pipelines := pipelines[..i] + pipelines[i + 1..] + [pipeline];
      assert forall j :: 0 <= j < |pipelines| ==>
               pipelines[j] == old(pipelines)[if j < i then j else if j < |pipelines| - 1 then j + 1 else i];
    }

    method Create(key: FlowKey) returns (pipeline: FlowPipeline)
      requires Valid() && forall j :: 0 <= j < |pipelines| ==> pipelines[j].key != key
      modifies this
      ensures Valid() && fresh(trackers - old(trackers))
      ensures pipelines != [] && pipeline == pipelines[|pipelines| - 1]
      ensures Entries() == old(Entries()) + [Entry(key, old(created), FRESH)]
      ensures created == old(created) + 1 && finalised == old(finalised)
    {
      var tracker := new RtpStreamTracker();
      pipeline := new FlowPipeline(key, tracker, created);
      pipelines := pipelines + [pipeline];
      trackers := trackers + {tracker};
      created := created + 1;
    }

    /** The eviction loop of `get_or_create`. */
    method EvictOldest()
      requires Valid()
      modifies this`pipelines, this`finalised
      ensures Valid()
      ensures var out := Excess(|old(pipelines)|, maxFlows);
              && pipelines == old(pipelines)[out..]
              && Entries() == old(Entries())[out..]
              && finalised == old(finalised) + Serials(old(Entries())[..out])
    {
      while |pipelines| >= maxFlows
        invariant Valid()
        invariant |pipelines| <= |old(pipelines)| <= |pipelines| + Excess(|old(pipelines)|, maxFlows)
        invariant pipelines == old(pipelines)[|old(pipelines)| - |pipelines|..]
        invariant finalised == old(finalised) + Serials(old(Entries())[..|old(pipelines)| - |pipelines|])
      {
        var oldest := pipelines[0];
        pipelines := pipelines[1..];
        FinalizePipeline(oldest);
      }
    }

    method FinalizePipeline(pipeline: FlowPipeline)
      modifies this`finalised
      ensures finalised == old(finalised) + [pipeline.serial]
    {
      finalised := finalised + [pipeline.serial];
    }

    method ShutdownAll()
      requires Valid()
      modifies this
      ensures Valid() && pipelines == []
      ensures Contents() == ShutDown(old(Contents()))
    {
      var all := pipelines;
      pipelines := [];
      for i := 0 to |all|
        invariant pipelines == [] && created == old(created)
        invariant finalised == old(finalised) + Serials(old(Entries())[..i])
      {
        FinalizePipeline(all[i]);
      }
    }
  }
}

/** The datagram handler: parse, route to the flow, track, hand the audio on. */
module Receiver {
  import opened Common
  import opened Rtp
  import opened RtpStream
  import opened Flows

  /** A frame handed on; a packet without a source address belongs to no flow. */
  datatype Emitted = Emitted(flow: Option<FlowKey>, packet: Packet)

  class RtpReceiver {
    const router: FlowRouter
    const tracker: RtpStreamTracker
    const payloadType: Option<nat>
    const port: int
    var malformed: nat
    ghost var emitted: seq<Emitted>

    /** The receiver's own tracker is no flow's. */
    ghost predicate Valid()
      reads this, router
    {
      router.Valid() && tracker !in router.trackers
    }

    constructor (router: FlowRouter, payloadType: Option<nat>, port: int)
      requires router.Valid()
      ensures this.router == router && this.payloadType == payloadType && this.port == port
      ensures Valid() && fresh(tracker) && tracker.stats == FRESH
      ensures malformed == 0 && emitted == []
    {
      this.router, this.payloadType, this.port := router, payloadType, port;
      tracker := new RtpStreamTracker();
      malformed, emitted := 0, [];
    }

    /**
     * A datagram counts as malformed, or moves exactly one tracker, its own flow's or the
     * receiver's own, and is handed on unless it repeats the last one there.
     */
    method HandlePayload(payload: seq<Byte>, source: Option<(string, int)>)
      requires Valid()
      modifies this, router, router.trackers, tracker
      ensures Valid() && fresh(router.trackers - old(router.trackers))
      ensures ParseAndValidate(payload, payloadType).Err? ==>
                && malformed == old(malformed) + 1 && emitted == old(emitted)
                && router.Contents() == old(router.Contents()) && tracker.stats == old(tracker.stats)
      ensures ParseAndValidate(payload, payloadType).Ok? && source.Some? ==>
                var key := FlowKey(source.value.0, source.value.1, port);
                var packet := ParseAndValidate(payload, payloadType).value;
                && malformed == old(malformed) && tracker.stats == old(tracker.stats)
                && router.Contents() == Received(old(router.Contents()), router.maxFlows, key, packet)
                && emitted == old(emitted)
                    + HandedOn(Some(key), StatsOf(old(router.Contents()), router.maxFlows, key), packet)
      ensures ParseAndValidate(payload, payloadType).Ok? && source.None? ==>
                var packet := ParseAndValidate(payload, payloadType).value;
                && malformed == old(malformed) && router.Contents() == old(router.Contents())
                && tracker.stats == Tracked(old(tracker.stats), packet)
                && emitted == old(emitted) + HandedOn(None, old(tracker.stats), packet)
    {
      match ParseAndValidate(payload, payloadType)
      case Err(_) =>
        malformed := malformed + 1;
      case Ok(packet) =>
        if source.Some? {
          Route(FlowKey(source.value.0, source.value.1, port), packet);
        } else {
          var disposition := tracker.OnPacket(packet);
          if disposition != Duplicate {
            emitted := emitted + [Emitted(None, packet)];
          }
        }
    }

    /** A valid packet with a source: its flow's tracker first, then the hand-over. */
    method Route(key: FlowKey, packet: Packet)
      requires Valid()
      modifies this`emitted, router, router.trackers
      ensures Valid() && fresh(router.trackers - old(router.trackers)) && tracker.stats == old(tracker.stats)
      ensures router.Contents() == Received(old(router.Contents()), router.maxFlows, key, packet)
      ensures emitted == old(emitted)
              + HandedOn(Some(key), StatsOf(old(router.Contents()), router.maxFlows, key), packet)
    {
      var disposition := Track(key, packet);
      if disposition != Duplicate {
        emitted := emitted + [Emitted(Some(key), packet)];
      }
    }

    method Track(key: FlowKey, packet: Packet) returns (disposition: Disposition)
      requires Valid()
      modifies router, router.trackers
      ensures router.Valid() && fresh(router.trackers - old(router.trackers))
      ensures router.Contents() == Received(old(router.Contents()), router.maxFlows, key, packet)
      ensures disposition == Classify(StatsOf(old(router.Contents()), router.maxFlows, key), packet)
    {
      var pipeline := router.GetOrCreate(key);
      ghost var entries := router.Entries();
      ghost var last := |entries| - 1;
      ReceivedFromTouched(old(router.Contents()), router.Contents(), router.maxFlows, key, packet);
      label found:
      disposition := pipeline.tracker.OnPacket(packet);
      router.OnlyLastMoves@found();
    }
  }

  /** A packet changes the statistics of the entry the lookup left last. */
  lemma ReceivedFromTouched(before: State, touched: State, maxFlows: nat, key: FlowKey, packet: Packet)
    requires touched == Touched(before, maxFlows, key) && touched.entries != []
    ensures StatsOf(before, maxFlows, key) == touched.entries[|touched.entries| - 1].stats
    ensures var last := |touched.entries| - 1;
            Received(before, maxFlows, key, packet)
            == touched.(entries := touched.entries[last :=
                 touched.entries[last].(stats := Tracked(touched.entries[last].stats, packet))])
  {
  }

  /** The flow's statistics when its packet arrives: those it has, or fresh ones. */
  function StatsOf(r: State, maxFlows: nat, key: FlowKey): Stats {
    var entries := Touched(r, maxFlows, key).entries;
    entries[|entries| - 1].stats
  }

  /** The packet has the source and the number the statistics stand at. */
  predicate RepeatsLast(stats: Stats, packet: Packet) {
    && stats.ssrc == Some(packet.ssrc) && stats.lastSequence.Some?
    && (packet.sequenceNumber - stats.lastSequence.value) % 0x1_0000 == 0
  }

  /** A packet is handed on, once, unless it repeats the last one. */
  function HandedOn(flow: Option<FlowKey>, stats: Stats, packet: Packet): seq<Emitted> {
    if RepeatsLast(stats, packet) then [] else [Emitted(flow, packet)]
  }
}

/** Any interleaving of packets of any flows, with shutdowns in between. */
module FlowRuns {
  import opened Common
  import opened Rtp
  import opened RtpStream
  import opened Flows
  import opened Receiver

  datatype Op = Arrival(key: FlowKey, packet: Packet) | Shutdown

  function Step(r: State, maxFlows: nat, op: Op): State {
    match op
    case Arrival(key, packet) => Received(r, maxFlows, key, packet)
    case Shutdown => ShutDown(r)
  }

  function Run(maxFlows: nat, ops: seq<Op>): State {
    if ops == [] then EMPTY else Step(Run(maxFlows, ops[..|ops| - 1]), maxFlows, ops[|ops| - 1])
  }

  function Keys(entries: seq<Entry>): (keys: seq<FlowKey>)
    ensures |keys| == |entries|
  {
    seq(|entries|, i requires 0 <= i < |entries| => entries[i].key)
  }

  // ----- which flows should be held

  /** The key at `at` taken out; all keys when `at` is past the end. */
  function Removed(keys: seq<FlowKey>, at: nat): seq<FlowKey> {
    if at < |keys| then keys[..at] + keys[at + 1..] else keys
  }

  /** All keys seen since the last shutdown, each once, in the order of their last access. */
  function Recency(ops: seq<Op>): seq<FlowKey> {
    if ops == [] || ops[|ops| - 1].Shutdown? then []
    else
      var before, key := Recency(ops[..|ops| - 1]), ops[|ops| - 1].key;
      Removed(before, FirstIndex(before, key)) + [key]
  }

  function Newest(keys: seq<FlowKey>, maxFlows: nat): seq<FlowKey> {
    if |keys| > maxFlows then keys[|keys| - maxFlows..] else keys
  }

  /** The last `maxFlows` of them. */
  function Resident(maxFlows: nat, ops: seq<Op>): seq<FlowKey> {
    Newest(Recency(ops), maxFlows)
  }

  /** The position of the last packet of flow k, |ops| when there is none. */
  function LastAccess(ops: seq<Op>, k: FlowKey): nat {
    if ops == [] then 0
    else if ops[|ops| - 1].Arrival? && ops[|ops| - 1].key == k then |ops| - 1
    else
      var before := LastAccess(ops[..|ops| - 1], k);
      if before == |ops| - 1 then |ops| else before
  }

  lemma {:induction false} RecencyIsDistinct(ops: seq<Op>)
    ensures Distinct(Recency(ops))
  {
    if ops != [] && ops[|ops| - 1].Arrival? {
      var before, key := Recency(ops[..|ops| - 1]), ops[|ops| - 1].key;
      RecencyIsDistinct(ops[..|ops| - 1]);
      MoveToEndIsDistinct(before, key);
    }
  }

  lemma MoveToEndIsDistinct(keys: seq<FlowKey>, key: FlowKey)
    requires Distinct(keys)
    ensures Distinct(Removed(keys, FirstIndex(keys, key)) + [key])
  {
    var at := FirstIndex(keys, key);
    forall i | 0 <= i < |Removed(keys, at)| ensures Removed(keys, at)[i] != key {
      var from := if i < at then i else i + 1;
      assert Removed(keys, at)[i] == keys[from];
    }
  }

  /** Recency lists the keys by strictly increasing position of their last packet. */
  ghost predicate InAccessOrder(ops: seq<Op>, keys: seq<FlowKey>) {
    && (forall i :: 0 <= i < |keys| ==> LastAccess(ops, keys[i]) < |ops|)
    && (forall i, j :: 0 <= i < j < |keys| ==> LastAccess(ops, keys[i]) < LastAccess(ops, keys[j]))
  }

  lemma {:induction false} RecencyIsAccessOrder(ops: seq<Op>)
    ensures InAccessOrder(ops, Recency(ops))
  {
    if ops != [] && ops[|ops| - 1].Arrival? {
      var before, key := ops[..|ops| - 1], ops[|ops| - 1].key;
      RecencyIsAccessOrder(before);
      RecencyIsDistinct(ops);
      RemovedKeepsAccessOrder(before, Recency(before), FirstIndex(Recency(before), key));
      assert before + [ops[|ops| - 1]] == ops;
      AppendedKeepsAccessOrder(before, ops[|ops| - 1], Removed(Recency(before), FirstIndex(Recency(before), key)));
    }
  }

  lemma RemovedKeepsAccessOrder(ops: seq<Op>, keys: seq<FlowKey>, at: nat)
    requires InAccessOrder(ops, keys)
    ensures InAccessOrder(ops, Removed(keys, at))
  {
    var kept := Removed(keys, at);
    forall i, j | 0 <= i < j < |kept| ensures LastAccess(ops, kept[i]) < LastAccess(ops, kept[j]) {
      assert kept[i] == keys[if i < at then i else i + 1];
      assert kept[j] == keys[if j < at then j else j + 1];
    }
    forall i | 0 <= i < |kept| ensures LastAccess(ops, kept[i]) < |ops| {
      assert kept[i] == keys[if i < at then i else i + 1];
    }
  }

  lemma AppendedKeepsAccessOrder(ops: seq<Op>, op: Op, keys: seq<FlowKey>)
    requires op.Arrival? && InAccessOrder(ops, keys) && Distinct(keys + [op.key])
    ensures InAccessOrder(ops + [op], keys + [op.key])
  {
    assert (ops + [op])[..|ops|] == ops;
    forall i | 0 <= i < |keys| ensures LastAccess(ops + [op], keys[i]) == LastAccess(ops, keys[i]) {
      assert (keys + [op.key])[i] != (keys + [op.key])[|keys|];
    }
  }

  // ----- the router holds exactly those

  lemma TouchedKeysOfRouter(r: State, maxFlows: nat, key: FlowKey)
    requires maxFlows > 0 && |r.entries| <= maxFlows
    ensures var keys := Keys(r.entries);
            && Position(r.entries, key) == FirstIndex(keys, key)
            && Keys(Touched(r, maxFlows, key).entries) == Newest(Removed(keys, FirstIndex(keys, key)) + [key], maxFlows)
  {
    SamePosition(r.entries, key);
    if Position(r.entries, key) < |r.entries| {
      HitKeys(r, maxFlows, key);
    } else {
      MissKeys(r, maxFlows, key);
    }
  }

  lemma HitKeys(r: State, maxFlows: nat, key: FlowKey)
    requires Position(r.entries, key) < |r.entries|
    ensures var keys, at := Keys(r.entries), Position(r.entries, key);
            Keys(Touched(r, maxFlows, key).entries) == keys[..at] + keys[at + 1..] + [key]
  {
  }

  lemma MissKeys(r: State, maxFlows: nat, key: FlowKey)
    requires Position(r.entries, key) == |r.entries|
    ensures var keys := Keys(r.entries);
            Keys(Touched(r, maxFlows, key).entries) == keys[Excess(|keys|, maxFlows)..] + [key]
  {
  }

  lemma SamePosition(entries: seq<Entry>, key: FlowKey)
    ensures Position(entries, key) == FirstIndex(Keys(entries), key)
  {
    var at, index := Position(entries, key), FirstIndex(Keys(entries), key);
    assert at < |entries| ==> Keys(entries)[at] == key;
    assert index < |entries| ==> entries[index].key == key;
  }

  lemma NewestOfSuffix(front: seq<FlowKey>, back: seq<FlowKey>, maxFlows: nat)
    requires |back| >= maxFlows || front == []
    ensures Newest(front + back, maxFlows) == Newest(back, maxFlows)
  {
    if |front| > 0 {
      assert (front + back)[|front + back| - maxFlows..] == back[|back| - maxFlows..];
    } else {
      assert front + back == back;
    }
  }

  lemma IndexOfConcat(a: seq<FlowKey>, b: seq<FlowKey>, key: FlowKey)
    requires Distinct(a + b)
    ensures FirstIndex(a + b, key) == if FirstIndex(a, key) < |a| then FirstIndex(a, key) else |a| + FirstIndex(b, key)
  {
    var p, q, r := FirstIndex(a, key), FirstIndex(b, key), FirstIndex(a + b, key);
    assert p < |a| ==> (a + b)[p] == key;
    assert q < |b| ==> (a + b)[|a| + q] == key;
    assert r < |a| ==> a[r] == key;
    assert |a| <= r < |a| + |b| ==> b[r - |a|] == key;
  }

  lemma RemovedConcat(a: seq<FlowKey>, b: seq<FlowKey>, at: nat)
    ensures Removed(a + b, at) == if at < |a| then Removed(a, at) + b else a + Removed(b, at - |a|)
  {
  }

  /** Moving a key to the end and cutting off the oldest commute. */
  lemma NewestOfMoved(all: seq<FlowKey>, maxFlows: nat, key: FlowKey)
    requires maxFlows > 0 && Distinct(all)
    ensures var keys := Newest(all, maxFlows);
            Newest(Removed(all, FirstIndex(all, key)) + [key], maxFlows)
            == Newest(Removed(keys, FirstIndex(keys, key)) + [key], maxFlows)
  {
    var keys := Newest(all, maxFlows);
    var older := all[..|all| - |keys|];
    assert all == older + keys;
    NewestOfMovedConcat(older, keys, key, maxFlows);
  }

  lemma NewestOfMovedConcat(older: seq<FlowKey>, keys: seq<FlowKey>, key: FlowKey, maxFlows: nat)
    requires Distinct(older + keys) && (|keys| >= maxFlows || older == [])
    ensures Newest(Removed(older + keys, FirstIndex(older + keys, key)) + [key], maxFlows)
            == Newest(Removed(keys, FirstIndex(keys, key)) + [key], maxFlows)
  {
    var at := FirstIndex(older, key);
    IndexOfConcat(older, keys, key);
    RemovedConcat(older, keys, FirstIndex(older + keys, key));
    if at < |older| {
      KeyNotInSuffix(older, keys, at);
      NewestOfMiddle(Removed(older, at), keys, key, maxFlows);
    } else {
      NewestOfMiddle(older, Removed(keys, FirstIndex(keys, key)), key, maxFlows);
    }
  }

  lemma NewestOfMiddle(front: seq<FlowKey>, back: seq<FlowKey>, key: FlowKey, maxFlows: nat)
    requires |back| + 1 >= maxFlows || front == []
    ensures Newest(front + back + [key], maxFlows) == Newest(back + [key], maxFlows)
  {
    assert front + back + [key] == front + (back + [key]);
    NewestOfSuffix(front, back + [key], maxFlows);
  }

  lemma KeyNotInSuffix(a: seq<FlowKey>, b: seq<FlowKey>, at: nat)
    requires Distinct(a + b) && at < |a|
    ensures FirstIndex(b, a[at]) == |b|
  {
    forall j | 0 <= j < |b| ensures b[j] != a[at] {
      assert (a + b)[|a| + j] == b[j] && (a + b)[at] == a[at];
    }
  }

  lemma ReceivedKeys(r: State, maxFlows: nat, key: FlowKey, packet: Packet)
    ensures Keys(Received(r, maxFlows, key, packet).entries) == Keys(Touched(r, maxFlows, key).entries)
  {
  }

  /** After any history the router holds exactly the last `maxFlows` distinct flows, in access order. */
  lemma {:induction false} RouterHoldsRecentFlows(maxFlows: nat, ops: seq<Op>)
    requires maxFlows > 0
    ensures Keys(Run(maxFlows, ops).entries) == Resident(maxFlows, ops)
  {
    if ops != [] {
      var before, op := ops[..|ops| - 1], ops[|ops| - 1];
      RouterHoldsRecentFlows(maxFlows, before);
      RecencyIsDistinct(before);
      if op.Arrival? {
        TouchedKeysOfRouter(Run(maxFlows, before), maxFlows, op.key);
        NewestOfMoved(Recency(before), maxFlows, op.key);
        ReceivedKeys(Run(maxFlows, before), maxFlows, op.key, op.packet);
      }
    }
  }

  // ----- the same without the reference list: who is resident, read off the history alone

  /** Where the history since the last shutdown begins. */
  function LastShutdownEnd(ops: seq<Op>): (at: nat)
    ensures at <= |ops|
  {
    if ops == [] then 0
    else if ops[|ops| - 1].Shutdown? then |ops|
    else LastShutdownEnd(ops[..|ops| - 1])
  }

  ghost predicate Accessed(ops: seq<Op>, from: nat, k: FlowKey) {
    exists i :: from <= i < |ops| && ops[i].Arrival? && ops[i].key == k
  }

  lemma AccessedGrows(ops: seq<Op>, op: Op, from: nat, k: FlowKey)
    requires op.Arrival? && from <= |ops|
    ensures Accessed(ops + [op], from, k) <==> Accessed(ops, from, k) || op.key == k
  {
    var all := ops + [op];
    if Accessed(ops, from, k) {
      var i :| from <= i < |ops| && ops[i].Arrival? && ops[i].key == k;
      assert all[i].Arrival? && all[i].key == k;
    }
    if op.key == k {
      assert all[|ops|].Arrival? && all[|ops|].key == k;
    }
    if Accessed(all, from, k) && op.key != k {
      var i :| from <= i < |all| && all[i].Arrival? && all[i].key == k;
      assert ops[i] == all[i];
    }
  }

  lemma MovedMembers(keys: seq<FlowKey>, key: FlowKey, k: FlowKey)
    ensures k in Removed(keys, FirstIndex(keys, key)) + [key] <==> k in keys || k == key
  {
    var at := FirstIndex(keys, key);
    if at < |keys| {
      assert keys == keys[..at] + [key] + keys[at + 1..];
    }
  }

  /** The reference list holds exactly the flows accessed since the last shutdown. */
  lemma {:induction false} RecencyMembers(ops: seq<Op>, k: FlowKey)
    ensures k in Recency(ops) <==> Accessed(ops, LastShutdownEnd(ops), k)
  {
    if ops != [] && ops[|ops| - 1].Arrival? {
      var before, op := ops[..|ops| - 1], ops[|ops| - 1];
      RecencyMembers(before, k);
      assert ops == before + [op];
      AccessedGrows(before, op, LastShutdownEnd(before), k);
      MovedMembers(Recency(before), op.key, k);
    }
  }

  lemma {:induction false} LastAccessIsLast(ops: seq<Op>, k: FlowKey)
    ensures LastAccess(ops, k) <= |ops|
    ensures LastAccess(ops, k) < |ops| ==> ops[LastAccess(ops, k)].Arrival? && ops[LastAccess(ops, k)].key == k
    ensures forall i :: LastAccess(ops, k) < i < |ops| && ops[i].Arrival? ==> ops[i].key != k
    ensures LastAccess(ops, k) == |ops| ==> forall i :: 0 <= i < |ops| && ops[i].Arrival? ==> ops[i].key != k
  {
    if ops != [] {
      LastAccessIsLast(ops[..|ops| - 1], k);
    }
  }

  /** The flows accessed after position `at`. */
  ghost function KeysAfter(ops: seq<Op>, at: nat): set<FlowKey> {
    set i | at < i < |ops| && ops[i].Arrival? :: ops[i].key
  }

  /** No shutdown after the last access of a listed flow, so what came after it is listed too. */
  lemma ListedSinceShutdown(ops: seq<Op>, k: FlowKey)
    requires k in Recency(ops)
    ensures LastShutdownEnd(ops) <= LastAccess(ops, k) < |ops|
  {
    RecencyMembers(ops, k);
    LastAccessIsLast(ops, k);
    var i :| LastShutdownEnd(ops) <= i < |ops| && ops[i].Arrival? && ops[i].key == k;
  }

  /** The keys after position i of the reference list are the flows accessed after the last access of the i-th. */
  lemma ListedAfter(ops: seq<Op>, i: nat, x: FlowKey)
    requires i < |Recency(ops)|
    ensures x in Recency(ops)[i + 1..] <==> x in KeysAfter(ops, LastAccess(ops, Recency(ops)[i]))
  {
    var keys := Recency(ops);
    var at := LastAccess(ops, keys[i]);
    RecencyIsAccessOrder(ops);
    LastAccessIsLast(ops, x);
    if x in keys[i + 1..] {
      var j :| i + 1 <= j < |keys| && keys[j] == x;
      assert at < LastAccess(ops, x) < |ops|;
    }
    if x in KeysAfter(ops, at) {
      AccessedLaterIsListedLater(ops, i, x);
    }
  }

  lemma AccessedLaterIsListedLater(ops: seq<Op>, i: nat, x: FlowKey)
    requires i < |Recency(ops)| && x in KeysAfter(ops, LastAccess(ops, Recency(ops)[i]))
    ensures x in Recency(ops)[i + 1..]
  {
    var keys := Recency(ops);
    var at := LastAccess(ops, keys[i]);
    var n :| at < n < |ops| && ops[n].Arrival? && ops[n].key == x;
    assert keys[i] in keys;
    ListedSinceShutdown(ops, keys[i]);
    RecencyMembers(ops, x);
    var j :| 0 <= j < |keys| && keys[j] == x;
    RecencyIsAccessOrder(ops);
    LastAccessIsLast(ops, x);
    LastAccessIsLast(ops, keys[i]);
    assert LastAccess(ops, x) > at;
    assert i < j;
    assert keys[i + 1..][j - i - 1] == x;
  }

  lemma {:induction false} SetOfDistinct(keys: seq<FlowKey>, members: set<FlowKey>)
    requires Distinct(keys) && forall x :: x in members <==> x in keys
    ensures |members| == |keys|
  {
    if keys == [] {
      assert members == {};
    } else {
      var n := |keys| - 1;
      var last := keys[n];
      assert keys == keys[..n] + [last];
      assert last !in keys[..n];
      SetOfDistinct(keys[..n], members - {last});
    }
  }

  lemma OthersAccessedSince(ops: seq<Op>, i: nat)
    requires i < |Recency(ops)|
    ensures |KeysAfter(ops, LastAccess(ops, Recency(ops)[i]))| == |Recency(ops)| - 1 - i
  {
    var keys := Recency(ops);
    RecencyIsDistinct(ops);
    forall x ensures x in KeysAfter(ops, LastAccess(ops, keys[i])) <==> x in keys[i + 1..] {
      ListedAfter(ops, i, x);
    }
    SetOfDistinct(keys[i + 1..], KeysAfter(ops, LastAccess(ops, keys[i])));
  }

  lemma NewestMembers(keys: seq<FlowKey>, maxFlows: nat, i: nat)
    requires Distinct(keys) && i < |keys|
    ensures keys[i] in Newest(keys, maxFlows) <==> |keys| - 1 - i < maxFlows
  {
    var newest := Newest(keys, maxFlows);
    var out := |keys| - |newest|;
    if |keys| - 1 - i < maxFlows {
      assert newest[i - out] == keys[i];
    } else {
      forall j | 0 <= j < |newest| ensures newest[j] != keys[i] {
        assert newest[j] == keys[out + j];
      }
    }
  }

  /**
   * Whether a flow is resident, from the history alone: it was accessed since the last
   * shutdown, and fewer than `maxFlows` flows were accessed after its last access.
   */
  lemma ResidentIff(maxFlows: nat, ops: seq<Op>, k: FlowKey)
    requires maxFlows > 0
    ensures k in Keys(Run(maxFlows, ops).entries) <==>
              Accessed(ops, LastShutdownEnd(ops), k) && |KeysAfter(ops, LastAccess(ops, k))| < maxFlows
  {
    RouterHoldsRecentFlows(maxFlows, ops);
    RecencyMembers(ops, k);
    var keys := Recency(ops);
    RecencyIsDistinct(ops);
    if k in keys {
      var i :| 0 <= i < |keys| && keys[i] == k;
      OthersAccessedSince(ops, i);
      NewestMembers(keys, maxFlows, i);
    }
  }

  // ----- each tracker has seen its own flow and nothing else

  /** When the resident flow k was last created: the packet that found it absent. */
  function BornAt(maxFlows: nat, ops: seq<Op>, k: FlowKey): nat {
    if ops == [] then 0
    else if k in Resident(maxFlows, ops[..|ops| - 1]) then BornAt(maxFlows, ops[..|ops| - 1], k)
    else |ops| - 1
  }

  /** The packets of flow k from position `from` on. */
  function FlowPackets(ops: seq<Op>, from: nat, k: FlowKey): seq<Packet> {
    if |ops| <= from then []
    else
      var op := ops[|ops| - 1];
      FlowPackets(ops[..|ops| - 1], from, k) + if op.Arrival? && op.key == k then [op.packet] else []
  }

  ghost predicate TrackersAreIsolated(maxFlows: nat, ops: seq<Op>, r: State) {
    forall i :: 0 <= i < |r.entries| ==>
      r.entries[i].stats == TrackedAll(FRESH,
                                       FlowPackets(ops, BornAt(maxFlows, ops, r.entries[i].key), r.entries[i].key))
  }

  lemma TrackedSnoc(packets: seq<Packet>, packet: Packet)
    ensures TrackedAll(FRESH, packets + [packet]) == Tracked(TrackedAll(FRESH, packets), packet)
  {
    assert (packets + [packet])[..|packets|] == packets;
  }

  /** An entry left alone by a packet of another flow still matches its history. */
  lemma OtherFlowUnchanged(maxFlows: nat, ops: seq<Op>, op: Op, k: FlowKey)
    requires op.Arrival? && op.key != k && k in Resident(maxFlows, ops)
    ensures FlowPackets(ops + [op], BornAt(maxFlows, ops + [op], k), k) == FlowPackets(ops, BornAt(maxFlows, ops, k), k)
  {
    assert (ops + [op])[..|ops|] == ops;
  }

  lemma OwnFlowGrows(maxFlows: nat, ops: seq<Op>, op: Op)
    requires op.Arrival?
    ensures var now := FlowPackets(ops + [op], BornAt(maxFlows, ops + [op], op.key), op.key);
            if op.key in Resident(maxFlows, ops)
            then now == FlowPackets(ops, BornAt(maxFlows, ops, op.key), op.key) + [op.packet]
            else now == [op.packet]
  {
    assert (ops + [op])[..|ops|] == ops;
    BornInRange(maxFlows, ops, op.key);
  }

  lemma {:induction false} BornInRange(maxFlows: nat, ops: seq<Op>, k: FlowKey)
    ensures BornAt(maxFlows, ops, k) <= |ops|
  {
    if ops != [] {
      BornInRange(maxFlows, ops[..|ops| - 1], k);
    }
  }

  lemma ArrivalKeepsIsolation(maxFlows: nat, ops: seq<Op>, r: State, op: Op)
    requires maxFlows > 0 && op.Arrival?
    requires TrackersAreIsolated(maxFlows, ops, r) && Keys(r.entries) == Resident(maxFlows, ops)
    ensures TrackersAreIsolated(maxFlows, ops + [op], Received(r, maxFlows, op.key, op.packet))
  {
    var next := Received(r, maxFlows, op.key, op.packet);
    var last := |next.entries| - 1;
    forall i | 0 <= i < |next.entries|
      ensures next.entries[i].stats
              == TrackedAll(FRESH,
                            FlowPackets(ops + [op], BornAt(maxFlows, ops + [op], next.entries[i].key),
                                        next.entries[i].key))
    {
      if i < last {
        var j := OldIndex(r, maxFlows, op.key, op.packet, i);
        assert Keys(r.entries)[j] == next.entries[i].key;
        RecentKeysDiffer(maxFlows, ops, r, op, i);
        OtherFlowUnchanged(maxFlows, ops, op, next.entries[i].key);
      } else {
        OwnFlowGrows(maxFlows, ops, op);
        var at := Position(r.entries, op.key);
        if at < |r.entries| {
          assert Keys(r.entries)[at] == op.key;
          TrackedSnoc(FlowPackets(ops, BornAt(maxFlows, ops, op.key), op.key), op.packet);
        } else {
          assert op.key !in Keys(r.entries);
          TrackedSnoc([], op.packet);
        }
      }
    }
  }

  /** Where entry i was before the packet, for every entry but the packet's own. */
  lemma OldIndex(r: State, maxFlows: nat, key: FlowKey, packet: Packet, i: nat) returns (j: nat)
    requires i < |Received(r, maxFlows, key, packet).entries| - 1
    ensures j < |r.entries| && Received(r, maxFlows, key, packet).entries[i] == r.entries[j]
    ensures j != Position(r.entries, key)
  {
    var at := Position(r.entries, key);
    j := if at < |r.entries| then if i < at then i else i + 1
         else i + Excess(|r.entries|, maxFlows);
  }

  lemma RecentKeysDiffer(maxFlows: nat, ops: seq<Op>, r: State, op: Op, i: nat)
    requires maxFlows > 0 && op.Arrival? && Keys(r.entries) == Resident(maxFlows, ops)
    requires i < |Received(r, maxFlows, op.key, op.packet).entries| - 1
    ensures Received(r, maxFlows, op.key, op.packet).entries[i].key != op.key
  {
    var j := OldIndex(r, maxFlows, op.key, op.packet, i);
    var at := Position(r.entries, op.key);
    RecencyIsDistinct(ops);
    assert Keys(r.entries)[j] == r.entries[j].key;
    assert at < |r.entries| ==> Keys(r.entries)[at] == op.key;
  }

  /** Every tracker equals a fresh tracker run on its own flow's packets since the flow was last created. */
  lemma {:induction false} TrackerIsFreshRun(maxFlows: nat, ops: seq<Op>)
    requires maxFlows > 0
    ensures TrackersAreIsolated(maxFlows, ops, Run(maxFlows, ops))
  {
    if ops != [] {
      var before, op := ops[..|ops| - 1], ops[|ops| - 1];
      TrackerIsFreshRun(maxFlows, before);
      RouterHoldsRecentFlows(maxFlows, before);
      assert before + [op] == ops;
      StepKeepsIsolation(maxFlows, before, Run(maxFlows, before), op);
    }
  }

  lemma StepKeepsIsolation(maxFlows: nat, ops: seq<Op>, r: State, op: Op)
    requires maxFlows > 0
    requires TrackersAreIsolated(maxFlows, ops, r) && Keys(r.entries) == Resident(maxFlows, ops)
    ensures TrackersAreIsolated(maxFlows, ops + [op], Step(r, maxFlows, op))
  {
    if op.Arrival? {
      ArrivalKeepsIsolation(maxFlows, ops, r, op);
    }
  }

  // ----- what reaches the recorders

  /** The packets the receiver hands on in a run, in order. */
  function Reached(maxFlows: nat, ops: seq<Op>): seq<Emitted> {
    if ops == [] then []
    else
      var before, op := ops[..|ops| - 1], ops[|ops| - 1];
      Reached(maxFlows, before)
      + match op
        case Arrival(key, packet) => HandedOn(Some(key), StatsOf(Run(maxFlows, before), maxFlows, key), packet)
        case Shutdown => []
  }

  /** The packets of the flow since its pipeline was last created, none while it has no pipeline. */
  function OwnPackets(maxFlows: nat, ops: seq<Op>, k: FlowKey): seq<Packet> {
    if k in Resident(maxFlows, ops) then FlowPackets(ops, BornAt(maxFlows, ops, k), k) else []
  }

  /** What should reach them: each arrival that does not repeat the last packet its own flow took. */
  function Audible(maxFlows: nat, ops: seq<Op>): seq<Emitted> {
    if ops == [] then []
    else
      var before, op := ops[..|ops| - 1], ops[|ops| - 1];
      if op.Shutdown? || IsStutter(OwnPackets(maxFlows, before, op.key), op.packet) then Audible(maxFlows, before)
      else Audible(maxFlows, before) + [Emitted(Some(op.key), op.packet)]
  }

  predicate IsStutter(packets: seq<Packet>, packet: Packet) {
    var last := LastTaken(packets);
    last.Some? && last.value.ssrc == packet.ssrc && Ahead(last.value, packet) == 0
  }

  lemma StutterRepeatsLast(packets: seq<Packet>, packet: Packet)
    ensures RepeatsLast(TrackedAll(FRESH, packets), packet) <==> IsStutter(packets, packet)
  {
    CountersOfRun(packets);
  }

  lemma StatsOfHit(r: State, maxFlows: nat, k: FlowKey, i: nat)
    requires i < |r.entries| && r.entries[i].key == k && Distinct(Keys(r.entries))
    ensures StatsOf(r, maxFlows, k) == r.entries[i].stats
  {
    SamePosition(r.entries, k);
    assert Keys(r.entries)[i] == k;
  }

  lemma StatsOfMiss(r: State, maxFlows: nat, k: FlowKey)
    requires k !in Keys(r.entries)
    ensures StatsOf(r, maxFlows, k) == FRESH
  {
    SamePosition(r.entries, k);
  }

  /** When a packet arrives, its flow's statistics are those of a fresh tracker fed with the flow's own packets. */
  lemma StatsOfRun(maxFlows: nat, ops: seq<Op>, k: FlowKey)
    requires maxFlows > 0
    ensures StatsOf(Run(maxFlows, ops), maxFlows, k) == TrackedAll(FRESH, OwnPackets(maxFlows, ops, k))
  {
    var r := Run(maxFlows, ops);
    RouterHoldsRecentFlows(maxFlows, ops);
    if k in Resident(maxFlows, ops) {
      var i :| 0 <= i < |r.entries| && Keys(r.entries)[i] == k;
      TrackerIsFreshRun(maxFlows, ops);
      RecencyIsDistinct(ops);
      StatsOfHit(r, maxFlows, k, i);
    } else {
      StatsOfMiss(r, maxFlows, k);
    }
  }

  /**
   * Over any packets of any flows and shutdowns: exactly the arrivals that do not repeat the last
   * packet their own flow took reach the recorders, each once and in order.
   */
  lemma {:induction false} ReachedIsAudible(maxFlows: nat, ops: seq<Op>)
    requires maxFlows > 0
    ensures Reached(maxFlows, ops) == Audible(maxFlows, ops)
  {
    if ops != [] {
      var before, op := ops[..|ops| - 1], ops[|ops| - 1];
      ReachedIsAudible(maxFlows, before);
      if op.Arrival? {
        StatsOfRun(maxFlows, before, op.key);
        StutterRepeatsLast(OwnPackets(maxFlows, before, op.key), op.packet);
      }
    }
  }

  // ----- no pipeline is lost or finalised twice

  /** Every pipeline ever created is either live or finalised, and finalised at most once. */
  ghost predicate Accounted(r: State) {
    var serials := r.finalised + Serials(r.entries);
    && Distinct(serials)
    && |serials| == r.created
    && forall i :: 0 <= i < |serials| ==> serials[i] < r.created
  }

  lemma MoveKeepsAccount(r: State, maxFlows: nat, key: FlowKey)
    requires Accounted(r) && Position(r.entries, key) < |r.entries|
    ensures Accounted(Touched(r, maxFlows, key))
  {
    var at := Position(r.entries, key);
    var serials := Serials(r.entries);
    assert Serials(Touched(r, maxFlows, key).entries) == serials[..at] + serials[at + 1..] + [serials[at]];
    MovedKeepsDistinct(r.finalised, serials, at, r.created);
  }

  lemma MovedKeepsDistinct(a: seq<nat>, b: seq<nat>, at: nat, bound: nat)
    requires Distinct(a + b) && at < |b| && forall i :: 0 <= i < |a + b| ==> (a + b)[i] < bound
    ensures var moved := a + (b[..at] + b[at + 1..] + [b[at]]);
            Distinct(moved) && |moved| == |a + b| && forall i :: 0 <= i < |moved| ==> moved[i] < bound
  {
    var before, after, from := a + b, a + (b[..at] + b[at + 1..] + [b[at]]), |a| + at;
    assert after == before[..from] + before[from + 1..] + [before[from]];
  }

  lemma CreateKeepsAccount(r: State, maxFlows: nat, key: FlowKey)
    requires Accounted(r) && Position(r.entries, key) == |r.entries|
    ensures Accounted(Touched(r, maxFlows, key))
  {
    var next := Touched(r, maxFlows, key);
    assert next.finalised + Serials(next.entries) == r.finalised + Serials(r.entries) + [r.created];
  }

  lemma {:induction false} EveryPipelineIsFinalisedOnce(maxFlows: nat, ops: seq<Op>)
    ensures Accounted(Run(maxFlows, ops))
  {
    if ops != [] {
      var before, op := Run(maxFlows, ops[..|ops| - 1]), ops[|ops| - 1];
      EveryPipelineIsFinalisedOnce(maxFlows, ops[..|ops| - 1]);
      if op.Arrival? {
        if Position(before.entries, op.key) < |before.entries| {
          MoveKeepsAccount(before, maxFlows, op.key);
        } else {
          CreateKeepsAccount(before, maxFlows, op.key);
        }
        var touched, next := Touched(before, maxFlows, op.key), Run(maxFlows, ops);
        assert Serials(next.entries) == Serials(touched.entries);
      } else {
        assert before.finalised + Serials(before.entries) + [] == before.finalised + Serials(before.entries);
      }
    }
  }
}
