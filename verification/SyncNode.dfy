/** An audio node: adverts in, clock samples to the estimator and commands to the recorder out. */
module SyncNode {
  import opened Words
  import opened Wire
  import opened Wrappers
  import FreqEst

  /** What the node remembers of the adverts it has received. */
  datatype Node = Node(lastCmdSeq: u16, advValid: bool, advSeq: u8, advTime: u32)

  const BOOTED := Node(0, false, 0, 0)

  /** A clock sample: local and central timestamp. */
  type Pair = (u32, u32)

  /** The sample handed to the estimator when an advert with this header arrives, if any. */
  function SyncPair(n: Node, h: Header): Option<Pair> {
    if n.advValid && h.syncSeq == n.advSeq then Some((n.advTime, h.prevTime)) else None
  }

  /** Whether the advert's command is new to this node. */
  predicate IsNewCmd(n: Node, h: Header) {
    h.cmdSeq != n.lastCmdSeq
  }

  /** The state after an advert received at a local time. */
  function Heard(n: Node, h: Header, local: u32): Node {
    Node(h.cmdSeq, true, Wrap8(h.syncSeq + 1), local)
  }

  function FromInt(time: u32): u64 {
    time * TWO_32
  }

  /** Timestamps become Q32.32 times of whole ticks. */
  lemma WholeTicks(a: u32, b: u32)
    ensures FromInt(a) / 0x1_0000_0000 == a && FreqEst.Ticks(FromInt(a) - FromInt(b)) == (a - b) as real
  {
  }

  /** Right after a sample initialises the estimator, its local timestamp converts to its central one. */
  lemma SampleConverts(t: FreqEst.Tuning, e: FreqEst.Est, sample: Pair)
    requires t.Sane() && e.filter.p.Psd() && FreqEst.WordState(e) && e.filter.status.Reset?
    ensures var (e', _) := FreqEst.Step(t, e, FromInt(sample.0), FromInt(sample.1), 0);
            FreqEst.WordState(e') && FreqEst.ToCentral(e', FromInt(sample.0)) / 0x1_0000_0000 == sample.1
  {
    FreqEst.ConvertedAtUpdate(t, e, FromInt(sample.0), FromInt(sample.1), 0);
    FreqEst.InitIffReset(t, e, FromInt(sample.0), FromInt(sample.1), 0);
    WholeTicks(sample.1, sample.1);
    hide FreqEst.Step, FreqEst.ToCentral, FromInt;
  }

  class SyncTimer {
    const freqEst: FreqEst.FreqEst
    var lastAdvValid: bool
    var lastAdvSeq: u8
    var lastAdvTime: u32

    ghost predicate Valid()
      reads this, freqEst
    {
      freqEst.Valid()
    }

    constructor (cfg: FreqEst.Config)
      requires cfg.Sane()
      ensures Valid() && fresh(freqEst) && freqEst.cfg == cfg && !lastAdvValid
      ensures freqEst.State() == FreqEst.START
    {
      freqEst := new FreqEst.FreqEst(cfg);
      lastAdvValid, lastAdvSeq, lastAdvTime := false, 0, 0;
    }

    method RecvAdv(h: Header, captured: u32)
      requires Valid()
      modifies this, freqEst
      ensures Valid() && lastAdvValid && lastAdvSeq == Wrap8(h.syncSeq + 1) && lastAdvTime == captured
      ensures match SyncPair(old(Node(0, lastAdvValid, lastAdvSeq, lastAdvTime)), h)
              case Some((local, central)) =>
                freqEst.State() == FreqEst.Step(freqEst.tuning, old(freqEst.State()), FromInt(local), FromInt(central), 0).0
              case None => freqEst.State() == old(freqEst.State())
    {
      hide FreqEst.Step;
      if lastAdvValid && h.syncSeq == lastAdvSeq {
        var _ := freqEst.Update(FromInt(lastAdvTime), FromInt(h.prevTime), 0);
      }
      lastAdvValid := true;
      lastAdvSeq := Wrap8(h.syncSeq + 1);
      lastAdvTime := captured;
    }

    /** A local time in central time, when the estimator has one. */
    method LocalToCentral(time: u64) returns (ok: bool, central: u64)
      requires Valid()
      ensures ok <==> !freqEst.State().filter.status.Reset?
      ensures central == FreqEst.ToCentral(freqEst.State(), time)
    {
      ok := freqEst.status != FreqEst.Reset;
      central := time;
      if ok {
        var theta := freqEst.Predict(time);
        central := Wrap64(time - theta);
      }
    }
  }

  /** The manager's side of the node. `requests` are the calls made to the recorder. */
  class Manager {
    const timer: SyncTimer
    var lastCmdSeq: u16
    var requests: seq<Cmd>

    ghost predicate Valid()
      reads this, timer, timer.freqEst
    {
      timer.Valid()
    }

    function State(): Node
      reads this, timer
    {
      Node(lastCmdSeq, timer.lastAdvValid, timer.lastAdvSeq, timer.lastAdvTime)
    }

    constructor (timer: SyncTimer)
      requires timer.Valid() && !timer.lastAdvValid
      ensures Valid() && this.timer == timer && lastCmdSeq == 0 && requests == []
    {
      this.timer, lastCmdSeq, requests := timer, 0, [];
    }

    method HandleAdvData(adv: Adv, captured: u32)
      requires Valid()
      modifies this, timer, timer.freqEst
      ensures Valid() && State() == Heard(old(State()), adv.hdr, captured)
      ensures requests == old(requests) +
              (if IsNewCmd(old(State()), adv.hdr) && adv.cmd != NoCmd then [adv.cmd] else [])
      ensures match SyncPair(old(State()), adv.hdr)
              case Some((local, central)) =>
                timer.freqEst.State() ==
                FreqEst.Step(timer.freqEst.tuning, old(timer.freqEst.State()), FromInt(local), FromInt(central), 0).0
              case None => timer.freqEst.State() == old(timer.freqEst.State())
    {
      hide FreqEst.Step;
      timer.RecvAdv(adv.hdr, captured);
      if adv.hdr.cmdSeq == lastCmdSeq {
        return;
      }
      lastCmdSeq := adv.hdr.cmdSeq;
      match adv.cmd {
        case NoCmd =>
        case Start(time) => requests := requests + [Start(time)];
        case Stop => requests := requests + [Stop];
      }
    }
  }
}
