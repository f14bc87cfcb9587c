/** One central node and one audio node joined by a radio that loses packets. The advert that a
    packet prompts is installed before the next packet is sent. */
module SyncWorld {
  import opened Words
  import opened Wire
  import opened Wrappers
  import C = SyncCentral
  import N = SyncNode

  /** A packet the node received: its number, the number of command changes its advert reflects,
      and the local capture of its arrival. */
  datatype Rx = Rx(packet: nat, change: nat, local: u32)

  /** A change of the advertised command: the queued command that prompted it, if any, the command
      advertised from then on, and the number of the packet after which it was made. */
  datatype Change = Change(source: Option<Cmd>, cmd: Cmd, packet: nat)

  datatype Event =
    | RequestStart
    | RequestStop
    | Packet(time: u32, heard: Option<u32>)  // transmitted at a central time; local capture if received

  datatype World = World(
    central: C.Central, timerSeq: u8, onAir: Option<seq<u8>>, node: N.Node,
    // history
    accepted: seq<Cmd>, sent: seq<u32>, changes: seq<Change>,
    received: seq<Rx>, handled: seq<nat>, requests: seq<Cmd>, pairs: seq<N.Pair>)

  const BOOTED := World(C.BOOTED, 0, None, N.BOOTED, [], [], [], [], [], [], [])

  function Request(w: World, cmd: Cmd): World {
    var central := C.Put(w.central, cmd);
    w.(central := central, accepted := if central == w.central then w.accepted else w.accepted + [cmd])
  }

  function Receive(w: World, a: Adv, local: u32): World {
    var isNew := N.IsNewCmd(w.node, a.hdr);
    var pair := N.SyncPair(w.node, a.hdr);
    w.(node := N.Heard(w.node, a.hdr, local),
       received := w.received + [Rx(|w.sent|, |w.changes|, local)],
       handled := if isNew then w.handled + [|w.changes|] else w.handled,
       requests := if isNew && a.cmd != NoCmd then w.requests + [a.cmd] else w.requests,
       pairs := if pair.Some? then w.pairs + [pair.value] else w.pairs)
  }

  function Hear(w: World, heard: Option<u32>): World {
    if heard.Some? && w.onAir.Some? then
      match Parse(true, w.onAir.value)
      case Some(a) => Receive(w, a, heard.value)
      case None => w
    else w
  }

  /** The transmit interrupt, its message to the other core, and the refresh of the advert. */
  function Refresh(w: World, time: u32): World {
    var c := C.PacketSent(w.central, w.timerSeq, time);
    var change := Change(if c.queue != [] then Some(c.queue[0]) else None, C.NextCmd(c), |w.sent|);
    w.(central := C.Refresh(c), timerSeq := Wrap8(w.timerSeq + 1),
       onAir := Some(Encode(C.Refresh(c).adv)), sent := w.sent + [time],
       changes := if C.Changes(c) then w.changes + [change] else w.changes)
  }

  function Step(w: World, e: Event): World {
    match e
    case RequestStart => Request(w, Start(C.StartTime(w.central)))
    case RequestStop => Request(w, Stop)
    case Packet(time, heard) => Refresh(Hear(w, heard), time)
  }

  function Run(events: seq<Event>): World {
    if events == [] then BOOTED
    else Step(Run(events[..|events| - 1]), events[|events| - 1])
  }

  // What the parties hold, in terms of the history.

  function Last<T>(s: seq<T>): T
    requires s != []
  {
    s[|s| - 1]
  }

  function LastChange(received: seq<Rx>): nat {
    if received == [] then 0 else Last(received).change
  }

  function Advertised(changes: seq<Change>): Cmd {
    if changes == [] then NoCmd else Last(changes).cmd
  }

  ghost predicate CommandInv(c: C.Central, changes: seq<Change>) {
    c.cmdSeq == Wrap16(|changes|) == c.adv.hdr.cmdSeq && c.adv.cmd == Advertised(changes)
  }

  ghost predicate AirInv(h: Header, timerSeq: u8, sent: seq<u32>) {
    timerSeq == Wrap8(|sent|) && (sent != [] ==> h.syncSeq == Wrap8(|sent| - 1) && h.prevTime == Last(sent))
  }

  ghost predicate CentralInv(w: World) {
    && CommandInv(w.central, w.changes)
    && AirInv(w.central.adv.hdr, w.timerSeq, w.sent)
    && w.onAir == (if w.sent == [] then None else Some(Encode(w.central.adv)))
    && (w.sent == [] ==> w.changes == [])
  }

  /** The node remembers the last packet it received. */
  ghost predicate Remembers(n: N.Node, received: seq<Rx>) {
    && n.lastCmdSeq == Wrap16(LastChange(received))
    && (n.advValid <==> received != [])
    && (received != [] ==> n.advSeq == Wrap8(Last(received).packet) && n.advTime == Last(received).local)
  }

  ghost predicate NodeInv(w: World, packets: nat) {
    Remembers(w.node, w.received) && Ordered(w.received, packets, |w.changes|)
  }

  /** Packets are received in the order sent, and command changes are seen in the order made. */
  ghost predicate Ordered(received: seq<Rx>, packets: nat, changes: nat) {
    received == [] ||
    (&& Last(received).packet < packets
     && Last(received).change <= changes
     && Ordered(Init(received), Last(received).packet, Last(received).change))
  }

  function Init<T>(s: seq<T>): seq<T>
    requires s != []
  {
    s[..|s| - 1]
  }

  // What should have happened, from the receptions alone.

  /** The command changes of which at least one advert arrived, once each, in order. */
  function SeenChanges(received: seq<Rx>): seq<nat> {
    if received == [] then []
    else
      var before, change := SeenChanges(Init(received)), Last(received).change;
      if change != LastChange(Init(received)) then before + [change] else before
  }

  function CmdOf(changes: seq<Change>, change: nat): Cmd {
    if 1 <= change <= |changes| then changes[change - 1].cmd else NoCmd
  }

  /** The calls to the recorder for a sequence of command changes. */
  function Calls(handled: seq<nat>, changes: seq<Change>): seq<Cmd> {
    if handled == [] then []
    else
      var cmd := CmdOf(changes, Last(handled));
      Calls(Init(handled), changes) + (if cmd == NoCmd then [] else [cmd])
  }

  function SentAt(sent: seq<u32>, packet: nat): u32 {
    if packet < |sent| then sent[packet] else 0
  }

  /** For every two receptions of consecutive packets, the local and the central timestamp of the
      first of them. */
  function PacketPairs(received: seq<Rx>, sent: seq<u32>): seq<N.Pair> {
    if |received| < 2 then []
    else
      var rx, prev := Last(received), Last(Init(received));
      PacketPairs(Init(received), sent) +
      (if rx.packet == prev.packet + 1 then [(prev.local, SentAt(sent, prev.packet))] else [])
  }

  // When the wrapped sequence numbers tell the truth.

  /** No two consecutive receptions are a positive multiple of 65536 command changes apart. */
  ghost predicate ChangesResolved(received: seq<Rx>) {
    received == [] ||
    var gap := Last(received).change - LastChange(Init(received));
    ChangesResolved(Init(received)) && (gap == 0 || gap % TWO_16 != 0)
  }

  /** No two consecutive receptions are 257, 513, ... packets apart. */
  ghost predicate PacketsResolved(received: seq<Rx>) {
    |received| < 2 ||
    var lost := Last(received).packet - Last(Init(received)).packet - 1;
    PacketsResolved(Init(received)) && (lost == 0 || lost % TWO_8 != 0)
  }

  /** The node handles exactly the changes it has seen an advert of, unless a gap hides one. */
  ghost predicate HandledInv(received: seq<Rx>, handled: seq<nat>) {
    if ChangesResolved(received) then handled == SeenChanges(received)
    else |handled| < |SeenChanges(received)|
  }

  /** The samples are exactly the packet pairs, unless a gap fakes one. */
  ghost predicate PairsInv(received: seq<Rx>, pairs: seq<N.Pair>, sent: seq<u32>) {
    if PacketsResolved(received) then pairs == PacketPairs(received, sent)
    else |pairs| > |PacketPairs(received, sent)|
  }

  ghost predicate CallsInv(w: World) {
    w.requests == Calls(w.handled, w.changes) && Bounded(w.handled, |w.changes|)
  }

  ghost predicate Bounded(handled: seq<nat>, changes: nat) {
    forall i | 0 <= i < |handled| :: handled[i] <= changes
  }

  ghost predicate Inv(w: World) {
    && CentralInv(w) && NodeInv(w, |w.sent|) && CallsInv(w)
    && HandledInv(w.received, w.handled) && PairsInv(w.received, w.pairs, w.sent)
  }

  // One reception.

  lemma InitAppend<T>(s: seq<T>, x: T)
    ensures Init(s + [x]) == s && Last(s + [x]) == x
  {
  }

  lemma HandledStep(received: seq<Rx>, handled: seq<nat>, rx: Rx)
    requires HandledInv(received, handled) && LastChange(received) <= rx.change
    ensures HandledInv(received + [rx],
                       if Wrap16(rx.change) != Wrap16(LastChange(received)) then handled + [rx.change] else handled)
  {
  }

  lemma PairsStep(received: seq<Rx>, pairs: seq<N.Pair>, sent: seq<u32>, rx: Rx)
    requires PairsInv(received, pairs, sent) && received != [] && Last(received).packet < rx.packet
    requires 0 < rx.packet <= |sent|
    ensures var prev := Last(received);
            var pair := (prev.local, SentAt(sent, rx.packet - 1));
            PairsInv(received + [rx], if Wrap8(rx.packet - 1) == Wrap8(prev.packet) then pairs + [pair] else pairs, sent)
  {
  }

  lemma {:induction false} CallsGrow(handled: seq<nat>, changes: seq<Change>, change: Change)
    requires Bounded(handled, |changes|)
    ensures Calls(handled, changes + [change]) == Calls(handled, changes)
  {
    if handled != [] {
      CallsGrow(Init(handled), changes, change);
    }
  }

  lemma {:induction false} PairsGrow(received: seq<Rx>, sent: seq<u32>, time: u32, changes: nat)
    requires Ordered(received, |sent| + 1, changes)
    ensures PacketPairs(received, sent + [time]) == PacketPairs(received, sent)
  {
    if |received| >= 2 {
      OrderedMonotone(Init(received), Last(received).packet, Last(received).change, |sent| + 1, changes);
      PairsGrow(Init(received), sent, time, changes);
    }
  }

  lemma OrderedMonotone(received: seq<Rx>, packets: nat, changes: nat, packets': nat, changes': nat)
    requires Ordered(received, packets, changes) && packets <= packets' && changes <= changes'
    ensures Ordered(received, packets', changes')
  {
  }

  lemma OrderedMore(received: seq<Rx>, rx: Rx)
    requires Ordered(received, rx.packet, rx.change)
    ensures Ordered(received + [rx], rx.packet + 1, rx.change)
  {
    InitAppend(received, rx);
  }

  lemma ReceiveKeepsNode(w: World, a: Adv, local: u32)
    requires CentralInv(w) && NodeInv(w, |w.sent|) && w.sent != [] && a == w.central.adv
    ensures CentralInv(Receive(w, a, local)) && NodeInv(Receive(w, a, local), |w.sent| + 1)
  {
    var rx := Rx(|w.sent|, |w.changes|, local);
    OrderedMore(w.received, rx);
    HeardIsRemembered(w.node, a.hdr, w.received, rx);
    hide Wrap8, Wrap16, Encode, Ordered, Remembers;
  }

  lemma NextWord8(x: int)
    ensures Wrap8(Wrap8(x) + 1) == Wrap8(x + 1)
  {
  }

  lemma HeardIsRemembered(n: N.Node, h: Header, received: seq<Rx>, rx: Rx)
    requires h.cmdSeq == Wrap16(rx.change) && h.syncSeq == Wrap8(rx.packet - 1)
    ensures Remembers(N.Heard(n, h, rx.local), received + [rx])
  {
    hide Wrap8, Wrap16;
    InitAppend(received, rx);
    NextWord8(rx.packet - 1);
  }

  lemma ReceiveKeepsCalls(w: World, a: Adv, local: u32)
    requires CentralInv(w) && NodeInv(w, |w.sent|) && CallsInv(w) && w.sent != [] && a == w.central.adv
    ensures CallsInv(Receive(w, a, local))
  {
    InitAppend(w.handled, |w.changes|);
    assert a.cmd == CmdOf(w.changes, |w.changes|);
    hide Wrap8, Wrap16, Encode, NodeInv;
  }

  lemma ReceiveKeepsHandled(w: World, a: Adv, local: u32)
    requires CentralInv(w) && NodeInv(w, |w.sent|) && w.sent != [] && a == w.central.adv
    requires HandledInv(w.received, w.handled)
    ensures HandledInv(Receive(w, a, local).received, Receive(w, a, local).handled)
  {
    hide HandledInv, Wrap8, Wrap16, Encode;
    HandledStep(w.received, w.handled, Rx(|w.sent|, |w.changes|, local));
  }

  lemma ReceiveKeepsPairs(w: World, a: Adv, local: u32)
    requires CentralInv(w) && NodeInv(w, |w.sent|) && w.sent != [] && a == w.central.adv
    requires PairsInv(w.received, w.pairs, w.sent)
    ensures PairsInv(Receive(w, a, local).received, Receive(w, a, local).pairs, w.sent)
  {
    var rx := Rx(|w.sent|, |w.changes|, local);
    hide Wrap8, Wrap16, Encode, CommandInv;
    if w.received == [] {
      FirstPair(w.pairs, w.sent, rx);
    } else {
      PairsStep(w.received, w.pairs, w.sent, rx);
      hide PairsInv, Ordered;
    }
  }

  lemma FirstPair(pairs: seq<N.Pair>, sent: seq<u32>, rx: Rx)
    requires PairsInv([], pairs, sent)
    ensures PairsInv([] + [rx], pairs, sent)
  {
    assert [] + [rx] == [rx];
  }

  lemma HearKeepsInv(w: World, heard: Option<u32>)
    requires Inv(w)
    ensures var w' := Hear(w, heard);
            && CentralInv(w') && NodeInv(w', |w.sent| + 1) && CallsInv(w')
            && HandledInv(w'.received, w'.handled) && PairsInv(w'.received, w'.pairs, w'.sent)
            && w'.sent == w.sent && w'.changes == w.changes && w'.central == w.central
            && w'.timerSeq == w.timerSeq && w'.accepted == w.accepted
  {
    RoundTrip(w.central.adv);
    if heard.Some? && w.onAir.Some? {
      ReceiveKeepsNode(w, w.central.adv, heard.value);
      ReceiveKeepsCalls(w, w.central.adv, heard.value);
      ReceiveKeepsHandled(w, w.central.adv, heard.value);
      ReceiveKeepsPairs(w, w.central.adv, heard.value);
      hide NodeInv, CallsInv, HandledInv, PairsInv, Encode, Parse;
    } else {
      OrderedMonotone(w.received, |w.sent|, |w.changes|, |w.sent| + 1, |w.changes|);
      hide CallsInv, HandledInv, PairsInv, Encode, Parse;
    }
  }

  // One transmission.

  lemma RefreshKeepsCommand(c: C.Central, changes: seq<Change>, change: Change)
    requires CommandInv(c, changes) && change.cmd == C.NextCmd(c)
    ensures CommandInv(C.Refresh(c), if C.Changes(c) then changes + [change] else changes)
  {
  }

  lemma RefreshKeepsAir(c: C.Central, timerSeq: u8, sent: seq<u32>, time: u32)
    requires AirInv(c.adv.hdr, timerSeq, sent)
    ensures AirInv(C.Refresh(C.PacketSent(c, timerSeq, time)).adv.hdr, Wrap8(timerSeq + 1), sent + [time])
  {
    hide Wrap8, Wrap16, C.Changes, C.NextCmd;
    NextWord8(|sent|);
    InitAppend(sent, time);
  }

  lemma RefreshKeepsCentral(w: World, time: u32)
    requires CentralInv(w)
    ensures CentralInv(Refresh(w, time))
  {
    hide Encode, CommandInv, AirInv, C.Refresh, C.NextCmd, C.Changes, Wrap8;
    var c := C.PacketSent(w.central, w.timerSeq, time);
    assert CommandInv(c, w.changes) by { SameCommand(w.central, c, w.changes); }
    RefreshKeepsCommand(c, w.changes, Change(if c.queue != [] then Some(c.queue[0]) else None, C.NextCmd(c), |w.sent|));
    RefreshKeepsAir(w.central, w.timerSeq, w.sent, time);
  }

  lemma SameCommand(c: C.Central, d: C.Central, changes: seq<Change>)
    requires CommandInv(c, changes) && d.cmdSeq == c.cmdSeq
    requires d.adv.hdr.cmdSeq == c.adv.hdr.cmdSeq && d.adv.cmd == c.adv.cmd
    ensures CommandInv(d, changes)
  {
  }

  lemma RefreshKeepsNode(w: World, time: u32)
    requires NodeInv(w, |w.sent| + 1) && CallsInv(w) && PairsInv(w.received, w.pairs, w.sent)
    requires Ordered(w.received, |w.sent| + 1, |w.changes|)
    ensures NodeInv(Refresh(w, time), |w.sent| + 1) && CallsInv(Refresh(w, time))
  {
    hide Encode, C.Stale, Wrap8, Wrap16, C.Refresh;
    var w' := Refresh(w, time);
    OrderedMonotone(w.received, |w.sent| + 1, |w.changes|, |w.sent| + 1, |w'.changes|);
    if w'.changes != w.changes {
      CallsGrow(w.handled, w.changes, Last(w'.changes));
    }
  }

  lemma RefreshKeepsPairs(w: World, time: u32)
    requires NodeInv(w, |w.sent| + 1) && PairsInv(w.received, w.pairs, w.sent)
    ensures PairsInv(w.received, w.pairs, w.sent + [time])
  {
    PairsGrow(w.received, w.sent, time, |w.changes|);
  }

  lemma StepKeepsInv(w: World, e: Event)
    requires Inv(w)
    ensures Inv(Step(w, e))
  {
    match e {
      case RequestStart => RequestKeepsInv(w, Start(C.StartTime(w.central)));
      case RequestStop => RequestKeepsInv(w, Stop);
      case Packet(time, heard) =>
        HearKeepsInv(w, heard);
        var h := Hear(w, heard);
        RefreshKeepsCentral(h, time);
        RefreshKeepsNode(h, time);
        RefreshKeepsPairs(h, time);
        hide CentralInv, NodeInv, CallsInv, HandledInv, PairsInv, Hear, Encode;
    }
  }

  lemma RequestKeepsInv(w: World, cmd: Cmd)
    requires Inv(w)
    ensures Inv(Request(w, cmd))
  {
  }

  lemma {:induction false} RunKeepsInv(events: seq<Event>)
    ensures Inv(Run(events))
  {
    if events == [] {
      assert HandledInv([], []) && PairsInv([], [], []);
    } else {
      RunKeepsInv(events[..|events| - 1]);
      hide Inv, Step;
      StepKeepsInv(Run(events[..|events| - 1]), events[|events| - 1]);
    }
  }

  function TimeOfLast(sent: seq<u32>): u32 {
    if sent == [] then 0 else Last(sent)
  }

  lemma {:induction false} LastPacketTime(events: seq<Event>)
    ensures Run(events).central.lastPktTime == TimeOfLast(Run(events).sent)
  {
    if events != [] {
      hide Encode, Parse, Run, C.Changes, C.NextCmd;
      var before, e := events[..|events| - 1], events[|events| - 1];
      assert Run(events) == Step(Run(before), e) by { RunMore(before, e); assert before + [e] == events; }
      LastPacketTime(before);
    }
  }

  // Main results.

  /** Over any run, whatever is lost: the recorder is called for exactly the handled changes, in
      order; the handled changes are exactly those of which an advert arrived unless two consecutive
      receptions are a positive multiple of 65536 changes apart; and the estimator's samples are
      exactly the pairs of timestamps of one packet, one for every two consecutive packets received,
      unless two consecutive receptions are 257, 513, ... packets apart. */
  lemma Delivery(events: seq<Event>)
    ensures var w := Run(events);
            && w.requests == Calls(w.handled, w.changes)
            && (w.handled == SeenChanges(w.received) <==> ChangesResolved(w.received))
            && (w.pairs == PacketPairs(w.received, w.sent) <==> PacketsResolved(w.received))
  {
    RunKeepsInv(events);
    hide Run;
  }

  // The smallest gaps that deceive.

  lemma RunMore(events: seq<Event>, e: Event)
    ensures Run(events + [e]) == Step(Run(events), e)
  {
    assert (events + [e])[..|events|] == events;
  }

  /** A packet that the node hears. */
  lemma HeardPacket(events: seq<Event>, time: u32, local: u32)
    requires Run(events).sent != []
    ensures var w, w' := Run(events), Run(events + [Packet(time, Some(local))]);
            && w'.received == w.received + [Rx(|w.sent|, |w.changes|, local)] && |w'.sent| == |w.sent| + 1
            && (w.central.queue == [] ==> w'.central.queue == [])
  {
    hide Run, Encode, Parse, NodeInv, CallsInv, HandledInv, PairsInv, C.Stale;
    RunMore(events, Packet(time, Some(local)));
    RunKeepsInv(events);
    RoundTrip(Run(events).central.adv);
  }

  /** The events followed by n packets that the node does not hear. */
  function Silent(events: seq<Event>, n: nat): seq<Event> {
    if n == 0 then events else Silent(events, n - 1) + [Packet(0, None)]
  }

  lemma SilentPacket(events: seq<Event>)
    ensures var w, w' := Run(events), Run(events + [Packet(0, None)]);
            w'.received == w.received && |w'.sent| == |w.sent| + 1
  {
    hide Run, Encode, C.Stale;
    RunMore(events, Packet(0, None));
  }

  lemma {:induction false} SilentPackets(events: seq<Event>, n: nat)
    ensures var w, w' := Run(events), Run(Silent(events, n));
            w'.received == w.received && |w'.sent| == |w.sent| + n
  {
    hide Run;
    if n > 0 {
      SilentPackets(events, n - 1);
      SilentPacket(Silent(events, n - 1));
    }
  }

  /** The same, each packet after a stop command. */
  function Busy(events: seq<Event>, n: nat): seq<Event> {
    if n == 0 then events else Busy(events, n - 1) + [RequestStop] + [Packet(0, None)]
  }

  lemma StopThenPacket(events: seq<Event>)
    requires Run(events).central.queue == []
    ensures var w, w' := Run(events), Run(events + [RequestStop] + [Packet(0, None)]);
            && w'.received == w.received && |w'.sent| == |w.sent| + 1
            && |w'.changes| == |w.changes| + 1 && w'.central.queue == []
  {
    hide Run, Encode, C.Stale;
    RunMore(events, RequestStop);
    RunMore(events + [RequestStop], Packet(0, None));
  }

  lemma {:induction false} BusyPackets(events: seq<Event>, n: nat)
    requires Run(events).central.queue == []
    ensures var w, w' := Run(events), Run(Busy(events, n));
            && w'.received == w.received && |w'.sent| == |w.sent| + n
            && |w'.changes| == |w.changes| + n && w'.central.queue == []
  {
    hide Run;
    if n > 0 {
      BusyPackets(events, n - 1);
      StopThenPacket(Busy(events, n - 1));
    }
  }

  const OPENING: seq<Event> := [Packet(0, None), Packet(0, Some(0))]
  const FIRST: Rx := Rx(1, 0, 0)

  lemma Opened()
    ensures var w := Run(OPENING);
            w.received == [FIRST] && |w.sent| == 2 && w.changes == [] && w.central.queue == []
  {
    var first: seq<Event> := [Packet(0, None)];
    RunMore([], Packet(0, None));
    assert [] + first == first && first + [Packet(0, Some(0))] == OPENING;
    HeardPacket(first, 0, 0);
    RunMore(first, Packet(0, Some(0)));
    hide Encode, Parse;
  }

  /** After the opening, unheard packets, and one that is heard. */
  lemma HeardAgain(events: seq<Event>, packets: nat, changes: nat)
    requires Run(events).received == [FIRST] && |Run(events).sent| == packets > 0 && |Run(events).changes| == changes
    ensures Run(events + [Packet(0, Some(0))]).received == [FIRST] + [Rx(packets, changes, 0)]
  {
    hide Run;
    HeardPacket(events, 0, 0);
  }

  lemma Deceived(rx: Rx)
    ensures rx.packet == 2 + TWO_8 ==> !PacketsResolved([FIRST] + [rx])
    ensures rx.change == TWO_16 ==> !ChangesResolved([FIRST] + [rx])
  {
    InitAppend([FIRST], rx);
    InitAppend([], FIRST);
    assert [] + [FIRST] == [FIRST];
  }

  /** A node that hears one packet, misses 256 and hears the next takes the two for consecutive: it makes
      up a clock sample. */
  lemma MadeUpSample(n: nat)
    requires n == TWO_8
    ensures var w := Run(Silent(OPENING, n) + [Packet(0, Some(0))]);
            !PacketsResolved(w.received) && w.pairs != PacketPairs(w.received, w.sent)
  {
    hide Run, Silent, PacketsResolved, ChangesResolved, PacketPairs, SeenChanges, Calls;
    Opened();
    SilentPackets(OPENING, n);
    var events := Silent(OPENING, n);
    HeardAgain(events, 2 + n, |Run(events).changes|);
    Deceived(Rx(2 + n, |Run(events).changes|, 0));
    Delivery(events + [Packet(0, Some(0))]);
  }

  /** A node that hears one packet, misses 65536 command changes and hears the next packet handles none
      of them. */
  lemma MissedCommand(n: nat)
    requires n == TWO_16
    ensures var w := Run(Busy(OPENING, n) + [Packet(0, Some(0))]);
            !ChangesResolved(w.received) && w.handled != SeenChanges(w.received)
  {
    hide Run, Busy, PacketsResolved, ChangesResolved, PacketPairs, SeenChanges, Calls;
    Opened();
    BusyPackets(OPENING, n);
    var events := Busy(OPENING, n);
    HeardAgain(events, 2 + n, n);
    Deceived(Rx(2 + n, n, 0));
    Delivery(events + [Packet(0, Some(0))]);
  }

  /** Fewer than 65536 command changes and fewer than 256 packets missed between receptions. */
  ghost predicate ShortGaps(received: seq<Rx>) {
    received == [] ||
    (&& ShortGaps(Init(received))
     && Last(received).change - LastChange(Init(received)) < TWO_16
     && (|received| > 1 ==> Last(received).packet - Last(Init(received)).packet - 1 < TWO_8))
  }

  lemma {:induction false} ShortGapsResolve(received: seq<Rx>, packets: nat, changes: nat)
    requires Ordered(received, packets, changes) && ShortGaps(received)
    ensures ChangesResolved(received) && PacketsResolved(received)
  {
    if received != [] {
      ShortGapsResolve(Init(received), Last(received).packet, Last(received).change);
    }
  }

  lemma ShortGapsDeliver(events: seq<Event>)
    requires ShortGaps(Run(events).received)
    ensures var w := Run(events);
            w.handled == SeenChanges(w.received) && w.pairs == PacketPairs(w.received, w.sent)
  {
    RunKeepsInv(events);
    var w := Run(events);
    ShortGapsResolve(w.received, |w.sent|, |w.changes|);
  }

  ghost predicate Increasing(s: seq<nat>) {
    forall i, j :: 0 <= i < j < |s| ==> s[i] < s[j]
  }

  lemma {:induction false} SeenInOrder(received: seq<Rx>, packets: nat, changes: nat)
    requires Ordered(received, packets, changes)
    ensures Increasing(SeenChanges(received))
    ensures SeenChanges(received) == [] || Last(SeenChanges(received)) == LastChange(received)
  {
    if received != [] {
      SeenInOrder(Init(received), Last(received).packet, Last(received).change);
    }
  }

  ghost predicate Carried(received: seq<Rx>, change: nat) {
    exists i | 0 <= i < |received| :: received[i].change == change
  }

  lemma CarriedMore(received: seq<Rx>, rx: Rx, change: nat)
    ensures Carried(received + [rx], change) <==> Carried(received, change) || rx.change == change
  {
    var more := received + [rx];
    assert more[|received|] == rx;
    if Carried(received, change) {
      var i :| 0 <= i < |received| && received[i].change == change;
      assert more[i].change == change;
    }
  }

  lemma {:induction false} SeenAreCarried(received: seq<Rx>, packets: nat, changes: nat, change: nat)
    requires Ordered(received, packets, changes)
    ensures change in SeenChanges(received) <==> change > 0 && Carried(received, change)
  {
    if received != [] {
      var before, rx := Init(received), Last(received);
      assert received == before + [rx];
      CarriedMore(before, rx, change);
      SeenAreCarried(before, rx.packet, rx.change, change);
      if before != [] {
        assert Carried(before, Last(before).change);
      }
      hide Carried;
    }
  }

  /** The changes seen are in order, each once, and are exactly those some received advert carried. */
  lemma SeenChangesExactly(received: seq<Rx>, packets: nat, changes: nat, change: nat)
    requires Ordered(received, packets, changes)
    ensures Increasing(SeenChanges(received))
    ensures change in SeenChanges(received) <==> change > 0 && Carried(received, change)
  {
    SeenInOrder(received, packets, changes);
    SeenAreCarried(received, packets, changes, change);
  }

  function Queued(w: World, cmd: Cmd): World {
    if |w.central.queue| >= 2 then w
    else w.(central := w.central.(queue := w.central.queue + [cmd]), accepted := w.accepted + [cmd])
  }

  lemma PutQueues(w: World, cmd: Cmd)
    ensures Request(w, cmd) == Queued(w, cmd)
  {
    assert w.central.queue + [cmd] != w.central.queue;
  }

  /** Over any run, a request is queued unless two wait already: a stop as it is, and a start for two
      seconds after the packet sent last, mod 2^32. */
  lemma RequestIsQueued(events: seq<Event>)
    ensures var w := Run(events);
            var start := Start(Wrap32(TimeOfLast(w.sent) as int + 32_000_000));
            && Run(events + [RequestStart]) == Queued(w, start)
            && Run(events + [RequestStop]) == Queued(w, Stop)
  {
    hide Run, Queued, Request, TimeOfLast, Wrap32;
    LastPacketTime(events);
    RunMore(events, RequestStart);
    RunMore(events, RequestStop);
    PutQueues(Run(events), Start(C.StartTime(Run(events).central)));
    PutQueues(Run(events), Stop);
  }

  function Sources(changes: seq<Change>): seq<Cmd> {
    if changes == [] then []
    else Sources(Init(changes)) + (if Last(changes).source.Some? then [Last(changes).source.value] else [])
  }

  /** A change takes the next queued command, unless that is a start which is stale by the time of the
      packet sent last, or withdraws a start that has become so. Nothing else is a change. */
  ghost predicate Honest(c: Change, before: Cmd, sent: seq<u32>) {
    c.packet < |sent| &&
    match c.source
    case Some(cmd) => c.cmd == if C.Stale(cmd, sent[c.packet]) then NoCmd else cmd
    case None => C.Stale(before, sent[c.packet]) && c.cmd == NoCmd
  }

  ghost predicate AllHonest(changes: seq<Change>, sent: seq<u32>) {
    changes == [] ||
    (&& AllHonest(Init(changes), sent)
     && Honest(Last(changes), Advertised(Init(changes)), sent))
  }

  /** Stale starts are withdrawn at once: what is advertised is not stale. */
  ghost predicate Fresh(w: World) {
    w.central.adv.cmd == Advertised(w.changes) && !C.Stale(w.central.adv.cmd, w.central.adv.hdr.prevTime)
  }

  ghost predicate QueueInv(w: World) {
    w.accepted == Sources(w.changes) + w.central.queue && AllHonest(w.changes, w.sent) && Fresh(w)
  }

  lemma StepKeepsQueue(w: World, e: Event)
    requires QueueInv(w)
    ensures QueueInv(Step(w, e))
  {
    hide Encode, C.Stale, Parse, AllHonest;
    match e {
      case RequestStart =>
      case RequestStop =>
      case Packet(time, heard) => RefreshKeepsQueue(Hear(w, heard), time);
    }
  }

  lemma {:induction false} HonestGrows(changes: seq<Change>, sent: seq<u32>, time: u32)
    requires AllHonest(changes, sent)
    ensures AllHonest(changes, sent + [time])
  {
    if changes != [] {
      hide C.Stale;
      HonestGrows(Init(changes), sent, time);
    }
  }

  lemma RefreshKeepsHonest(w: World, time: u32)
    requires AllHonest(w.changes, w.sent) && Fresh(w)
    ensures AllHonest(Refresh(w, time).changes, Refresh(w, time).sent)
  {
    HonestGrows(w.changes, w.sent, time);
    var c := C.PacketSent(w.central, w.timerSeq, time);
    if C.Changes(c) {
      var change := Last(Refresh(w, time).changes);
      InitAppend(w.changes, change);
      assert (w.sent + [time])[|w.sent|] == time;
      hide C.Stale, Encode;
      assert Honest(change, Advertised(w.changes), w.sent + [time]);
    }
  }

  lemma RefreshIsFresh(w: World, time: u32)
    requires Fresh(w)
    ensures Fresh(Refresh(w, time))
  {
    var c := C.PacketSent(w.central, w.timerSeq, time);
    InitAppend(w.changes, Change(if c.queue != [] then Some(c.queue[0]) else None, C.NextCmd(c), |w.sent|));
    assert !C.Stale(NoCmd, time);
    hide Encode, C.Stale;
  }

  lemma RefreshKeepsQueue(w: World, time: u32)
    requires QueueInv(w)
    ensures QueueInv(Refresh(w, time))
  {
    RefreshKeepsHonest(w, time);
    RefreshIsFresh(w, time);
    var c := C.PacketSent(w.central, w.timerSeq, time);
    InitAppend(w.changes, Change(if c.queue != [] then Some(c.queue[0]) else None, C.NextCmd(c), |w.sent|));
    if c.queue != [] {
      assert Sources(w.changes) + c.queue == Sources(w.changes) + [c.queue[0]] + c.queue[1..];
    }
    hide Encode, C.Stale, AllHonest, Fresh, C.NextCmd;
  }

  /** Every command the queue accepted is taken in the order accepted, as one change, and advertised
      unless it is a start that is stale by then; a start is withdrawn exactly when it becomes stale;
      and nothing else changes what is advertised. */
  lemma {:induction false} QueueOrder(events: seq<Event>)
    ensures QueueInv(Run(events))
  {
    if events != [] {
      hide QueueInv, Step;
      QueueOrder(events[..|events| - 1]);
      StepKeepsQueue(Run(events[..|events| - 1]), events[|events| - 1]);
    }
  }
}
