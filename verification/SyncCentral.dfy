/** The central node: the packet timer on the network core, the two-deep command queue, and the
    advert that is refreshed once per transmitted packet. */
module SyncCentral {
  import opened Words
  import opened Wire

  const QUEUE_DEPTH: nat := 2
  const TIME_NOMINAL_FREQ: int := 16_000_000
  const START_DELAY: int := 2 * TIME_NOMINAL_FREQ

  datatype Central = Central(queue: seq<Cmd>, adv: Adv, prevSeq: u8, lastPktTime: u32, cmdSeq: u16)

  const BOOTED := Central([], Adv(Header(0, 0, 0), NoCmd), 0, 0, 0)

  function TimeDiff(a: u32, b: u32): int {
    Signed32(Wrap32(a - b))
  }

  /** A message queue put without waiting: refused when full. */
  function Put(c: Central, cmd: Cmd): Central {
    if |c.queue| < QUEUE_DEPTH then c.(queue := c.queue + [cmd]) else c
  }

  function StartTime(c: Central): u32 {
    Wrap32(c.lastPktTime + START_DELAY)
  }

  function PacketSent(c: Central, msgSeq: u8, time: u32): Central {
    c.(prevSeq := msgSeq, lastPktTime := time,
       adv := c.adv.(hdr := c.adv.hdr.(syncSeq := msgSeq, prevTime := time)))
  }

  /** A start command is withdrawn once twice the start delay has passed since it was issued. */
  predicate Stale(cmd: Cmd, prevTime: u32) {
    cmd.Start? && TimeDiff(cmd.time, prevTime) < -START_DELAY
  }

  /** In true times: a start issued for two seconds after the packet sent at p is stale at the packet sent
      at q exactly when more than four seconds lie between them. */
  lemma StaleAfterTwiceTheDelay(p: int, q: int)
    requires -TWO_31 <= p + 32_000_000 - q < TWO_31
    ensures Stale(Start(Wrap32(Wrap32(p) + 32_000_000)), Wrap32(q)) <==> q - p > 64_000_000
  {
    WrapOfSum32(p, START_DELAY);
    SignedDifference32(p + START_DELAY, q);
    hide Wrap32, Signed32;
  }

  /** Whether a refresh changes the command, and to what. */
  predicate Changes(c: Central) {
    c.queue != [] || Stale(c.adv.cmd, c.adv.hdr.prevTime)
  }

  function NextCmd(c: Central): Cmd {
    var cmd := if c.queue != [] then c.queue[0] else c.adv.cmd;
    if Stale(cmd, c.adv.hdr.prevTime) then NoCmd else cmd
  }

  function Refresh(c: Central): Central {
    var cmdSeq := if Changes(c) then Wrap16(c.cmdSeq + 1) else c.cmdSeq;
    c.(queue := if c.queue != [] then c.queue[1..] else [], cmdSeq := cmdSeq,
       adv := Adv(c.adv.hdr.(cmdSeq := if Changes(c) then cmdSeq else c.adv.hdr.cmdSeq), NextCmd(c)))
  }

  class SyncData {
    var queue: seq<Cmd>
    var advData: Adv
    var firstSeq: bool
    var prevSeq: u8
    var lastPktTime: u32
    var cmdSeq: u16

    function State(): Central
      reads this
    {
      Central(queue, advData, prevSeq, lastPktTime, cmdSeq)
    }

    constructor ()
      ensures State() == BOOTED
    {
      queue, advData, firstSeq := [], Adv(Header(0, 0, 0), NoCmd), true;
      prevSeq, lastPktTime, cmdSeq := 0, 0, 0;
    }

    method CmdStart() returns (ok: bool)
      modifies this
      ensures State() == Put(old(State()), Start(StartTime(old(State()))))
      ensures ok <==> old(|queue|) < QUEUE_DEPTH
    {
      var startTime := Wrap32(lastPktTime + START_DELAY);
      ok := |queue| < QUEUE_DEPTH;
      if ok {
        queue := queue + [Start(startTime)];
      }
    }

    method CmdStop() returns (ok: bool)
      modifies this
      ensures State() == Put(old(State()), Stop)
      ensures ok <==> old(|queue|) < QUEUE_DEPTH
    {
      ok := |queue| < QUEUE_DEPTH;
      if ok {
        queue := queue + [Stop];
      }
    }

    method IpcRecv(msgSeq: u8, time: u32)
      modifies this
      ensures State() == PacketSent(old(State()), msgSeq, time)
    {
      prevSeq := msgSeq;
      firstSeq := false;
      lastPktTime := time;
      advData := advData.(hdr := advData.hdr.(syncSeq := msgSeq, prevTime := time));
    }

    /** Refreshes the command and hands the encoded advert to the controller. */
    method AdvUpdateData() returns (ad: seq<u8>)
      modifies this
      ensures State() == Refresh(old(State()))
      ensures ad == Encode(State().adv)
    {
      var newCmd := false;
      if |queue| > 0 {
        advData := advData.(cmd := queue[0]);
        queue := queue[1..];
        newCmd := true;
      }
      match advData.cmd {
        case Start(time) =>
          var waitingTime := TimeDiff(time, advData.hdr.prevTime);
          if waitingTime < -START_DELAY {
            advData := advData.(cmd := NoCmd);
            newCmd := true;
          }
        case _ =>
      }
      if newCmd {
        cmdSeq := Wrap16(cmdSeq + 1);
        advData := advData.(hdr := advData.hdr.(cmdSeq := cmdSeq));
      }
      var bytes := EncodeHeader(advData.hdr);
      match advData.cmd {
        case NoCmd =>
        case Start(time) => bytes := bytes + ([START_ID] + Le32(time));
        case Stop => bytes := bytes + [STOP_ID];
      }
      ad := bytes;
      assert advData.cmd == NoCmd ==> EncodeHeader(advData.hdr) + [] == ad;
    }
  }
}
