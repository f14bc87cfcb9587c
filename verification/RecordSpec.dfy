/** What a recorder does, twice: as one endless stream without files, and with the contents of each file.
    The second refines the first. */
module RecordSpec {
  import opened Division
  import opened Words
  import opened RecordTiming
  import opened RecordBlock

  // The reference: one endless stream, no files.
  datatype Mode = Idle | Waiting(request: u32) | Live

  /** What has been recorded since boot, and whether recording goes on. */
  datatype Session = Session(mode: Mode, stream: seq<u8>)

  function Request(s: Session, time: u32): Session {
    if s.mode.Live? then s else s.(mode := Waiting(time))
  }

  function Halt(s: Session): Session {
    s.(mode := Idle)
  }

  function Feed(s: Session, b: Block): Session
    requires b.WellFormed()
  {
    match s.mode
    case Idle => s
    case Live => s.(stream := s.stream + b.buf)
    case Waiting(request) =>
      if !b.DueIn(request) then s
      else SplitOffsetWithin(b, request); Session(Live, s.stream + b.buf[b.SplitOffset(request)..])
  }

  // Payloads.
  function Flatten(parts: seq<seq<u8>>): seq<u8> {
    if parts == [] then [] else Flatten(parts[..|parts| - 1]) + parts[|parts| - 1]
  }

  lemma FlattenAppend(parts: seq<seq<u8>>, part: seq<u8>)
    ensures Flatten(parts + [part]) == Flatten(parts) + part
  {
  }

  datatype State = Stopped | WaitingStart | WaitingNewFile | Running

  // The reference with files: what is in each of them.

  /** The contents of the finished files, in order, and of the current one. */
  datatype Tape = Tape(state: State, request: u32, done: seq<seq<u8>>, current: seq<u8>)

  /** How much of a piece the current file takes. */
  function Cut(max: nat, size: nat, piece: nat): nat {
    if size <= max && piece > max - size then max - size else piece
  }

  lemma CutCases(max: nat, size: nat, piece: nat)
    ensures var cut := Cut(max, size, piece);
            cut <= piece && (cut == max - size || cut == piece)
  {
  }

  function Armed(t: Tape, request: u32): Tape {
    t.(request := request,
       state := if t.state == Stopped || t.state == WaitingStart then WaitingStart else WaitingNewFile)
  }

  function Halted(t: Tape): Tape {
    if t.state == Stopped || t.state == WaitingStart then t.(state := Stopped)
    else Tape(Stopped, t.request, t.done + [t.current], [])
  }

  predicate DueNow(t: Tape, b: Block)
    requires b.WellFormed()
  {
    (t.state == WaitingStart || t.state == WaitingNewFile) && b.DueIn(t.request)
  }

  /** Stores a block of which the first `piece` bytes are for the current file, if there is one, and the
      rest, if a request is due, for a new one. */
  function Place(max: nat, hasFile: bool, done: seq<seq<u8>>, current: seq<u8>, buf: seq<u8>, due: bool, piece: nat)
    : (seq<seq<u8>>, seq<u8>)
  {
    var cut := Cut(max, |current|, piece);
    if !hasFile then (done, From(buf, piece))
    else if due || cut < piece then (done + [current + UpTo(buf, cut)], From(buf, cut))
    else (done, current + buf)
  }

  function Record(max: nat, t: Tape, b: Block): Tape
    requires b.WellFormed()
  {
    var due := DueNow(t, b);
    var piece := if due then b.SplitOffset(t.request) else |b.buf|;
    if t.state == Stopped || (t.state == WaitingStart && !due) then t
    else
      var (done, current) := Place(max, t.state != WaitingStart, t.done, t.current, b.buf, due, piece);
      Tape(if due || Cut(max, |t.current|, piece) < piece then Running else t.state, t.request, done, current)
  }

  /** What a block leaves that is too large for an empty file: the file is cut at its limit, the rest is
      lost, and the recording stops. */
  function Faulted(max: nat, t: Tape): Tape {
    Tape(Stopped, t.request, t.done + [UpTo(t.current, max)], [])
  }

  lemma RecordNothing(max: nat, t: Tape, b: Block)
    requires b.WellFormed() && (t.state == Stopped || (t.state == WaitingStart && !DueNow(t, b)))
    ensures Record(max, t, b) == t
  {
  }

  lemma RecordByPlace(max: nat, t: Tape, b: Block, due: bool, piece: nat)
    requires b.WellFormed() && t.state != Stopped && due == DueNow(t, b) && (t.state == WaitingStart ==> due)
    requires piece == if due then b.SplitOffset(t.request) else |b.buf|
    ensures var (done, current) := Place(max, t.state != WaitingStart, t.done, t.current, b.buf, due, piece);
            Record(max, t, b) ==
            Tape(if due || Cut(max, |t.current|, piece) < piece then Running else t.state, t.request, done, current)
  {
    hide Place, Cut, Block.SplitOffset;
  }

  /** The stream that the files hold. */
  function SessionOf(t: Tape): Session {
    Session(match t.state
            case Stopped => Idle
            case WaitingStart => Waiting(t.request)
            case _ => Live, Flatten(t.done) + t.current)
  }

  /** There is a current file exactly while recording. */
  predicate Proper(t: Tape) {
    t.state == Stopped || t.state == WaitingStart ==> t.current == []
  }

  lemma HaltedRefines(t: Tape)
    requires Proper(t)
    ensures SessionOf(Halted(t)) == Halt(SessionOf(t))
  {
    FlattenAppend(t.done, t.current);
    assert Flatten(t.done) + t.current + [] == Flatten(t.done) + t.current;
  }

  lemma SplitBuffer(buf: seq<u8>, offset: nat)
    requires offset <= |buf|
    ensures UpTo(buf, offset) + From(buf, offset) == buf
  {
  }

  lemma Regrouped(a: seq<u8>, b: seq<u8>, c: seq<u8>, d: seq<u8>)
    ensures a + (b + c) + d == a + b + (c + d)
    ensures a + (b + c) == a + b + c
  {
  }

  lemma PlaceKeepsStream(max: nat, hasFile: bool, done: seq<seq<u8>>, current: seq<u8>, buf: seq<u8>, due: bool, piece: nat)
    requires piece <= |buf| && (hasFile || current == [])
    ensures var (done', current') := Place(max, hasFile, done, current, buf, due, piece);
            Flatten(done') + current' == Flatten(done) + current + (if hasFile then buf else From(buf, piece))
  {
    hide Flatten, Cut, UpTo, From;
    var cut := Cut(max, |current|, piece);
    CutCases(max, |current|, piece);
    SplitBuffer(buf, cut);
    FlattenAppend(done, current + UpTo(buf, cut));
    Regrouped(Flatten(done), current, UpTo(buf, cut), From(buf, cut));
    Regrouped(Flatten(done), current, buf, []);
    if !hasFile {
      assert Flatten(done) + [] == Flatten(done);
    }
  }

  /** However a block is spread over files, the stream they hold advances as if there were none. */
  lemma RecordRefines(max: nat, t: Tape, b: Block)
    requires Proper(t) && b.WellFormed()
    ensures SessionOf(Record(max, t, b)) == Feed(SessionOf(t), b)
  {
    var due := DueNow(t, b);
    if due {
      SplitOffsetWithin(b, t.request);
    }
    var piece := if due then b.SplitOffset(t.request) else |b.buf|;
    if t.state == Stopped || (t.state == WaitingStart && !due) {
      RecordNothing(max, t, b);
      hide Record;
    } else {
      RecordByPlace(max, t, b, due, piece);
      PlaceKeepsStream(max, t.state != WaitingStart, t.done, t.current, b.buf, due, piece);
      hide Record, Place, Flatten, Cut, Block.WellFormed, Block.SplitOffset;
    }
  }

  // Runs.
  datatype Event = StartCmd(time: u32) | StopCmd | Audio(block: Block)

  ghost predicate WellFormedRun(events: seq<Event>) {
    forall i | 0 <= i < |events| && events[i].Audio? :: events[i].block.WellFormed()
  }

  function Apply(s: Session, e: Event): Session
    requires e.Audio? ==> e.block.WellFormed()
  {
    match e
    case StartCmd(time) => Request(s, time)
    case StopCmd => Halt(s)
    case Audio(block) => Feed(s, block)
  }

  ghost function Replay(s: Session, events: seq<Event>): Session
    requires WellFormedRun(events)
  {
    if events == [] then s else Apply(Replay(s, events[..|events| - 1]), events[|events| - 1])
  }

  ghost function BytesOf(events: seq<Event>): seq<u8> {
    if events == [] then []
    else BytesOf(events[..|events| - 1]) +
         (if events[|events| - 1].Audio? then events[|events| - 1].block.buf else [])
  }

  /** From the first split on and until a stop, every byte of every block is recorded, whatever start
      commands arrive in between. */
  lemma {:induction false} LiveKeepsEverything(s: Session, events: seq<Event>)
    requires s.mode.Live? && WellFormedRun(events) && forall i | 0 <= i < |events| :: !events[i].StopCmd?
    ensures Replay(s, events) == Session(Live, s.stream + BytesOf(events))
  {
    if events != [] {
      LiveKeepsEverything(s, events[..|events| - 1]);
      assert !events[|events| - 1].StopCmd?;
      assert s.stream + BytesOf(events[..|events| - 1]) + [] == s.stream + BytesOf(events[..|events| - 1]);
    } else {
      assert s.stream + [] == s.stream;
    }
  }

  /** Blocks as the audio clock stamps them between phase resets. */
  ghost predicate Consecutive(blocks: seq<Block>, first: u32, duration: u32) {
    && duration > 0
    && forall k | 0 <= k < |blocks| ::
         blocks[k].WellFormed() && blocks[k].duration == duration && blocks[k].startTime == BlockTime(first, duration, k)
  }

  ghost function AsEvents(blocks: seq<Block>): (events: seq<Event>)
    ensures |events| == |blocks| && forall k | 0 <= k < |events| :: events[k] == Audio(blocks[k])
  {
    seq(|blocks|, k requires 0 <= k < |blocks| => Audio(blocks[k]))
  }

  lemma {:induction false} WaitingKeepsNothing(s: Session, blocks: seq<Block>, n: nat)
    requires s.mode.Waiting? && n <= |blocks| && forall k | 0 <= k < |blocks| :: blocks[k].WellFormed()
    requires forall k | 0 <= k < n :: !blocks[k].DueIn(s.mode.request)
    ensures Replay(s, AsEvents(blocks)[..n]) == s
  {
    if n > 0 {
      WaitingKeepsNothing(s, blocks, n - 1);
      var events := AsEvents(blocks);
      assert events[..n][..n - 1] == events[..n - 1];
      assert !blocks[n - 1].DueIn(s.mode.request);
    }
  }

  /** A start command to a recorder that does not record, less than 2^31 ticks ahead of the next block,
      starts the recording in block DueBlock, at a whole frame within that block. */
  lemma RecordingBegins(s: Session, blocks: seq<Block>, first: u32, duration: u32, ahead: nat)
    requires Consecutive(blocks, first, duration) && ahead < TWO_31 && DueBlock(ahead, duration) < |blocks|
    requires !s.mode.Live?
    ensures var request, due := Wrap32(first + ahead), DueBlock(ahead, duration);
            var b, armed := blocks[due], Apply(s, StartCmd(request));
            var frame := SplitFrame(Remainder(ahead, duration), b.Frames(), duration);
            && Replay(armed, AsEvents(blocks)[..due]) == Session(Waiting(request), s.stream)
            && frame <= b.Frames()
            && Replay(armed, AsEvents(blocks)[..due + 1]) == Session(Live, s.stream + From(b.buf, frame * b.bytesPerFrame))
  {
    ComesDueOnce(first, duration, ahead);
    var request, due := Wrap32(first + ahead), DueBlock(ahead, duration);
    var armed, b := Session(Waiting(request), s.stream), blocks[due];
    WaitingKeepsNothing(armed, blocks, due);
    SplitOffsetWithin(b, request);
    SplitWithinBlock(Remainder(ahead, duration), b.Frames(), duration);
    var events := AsEvents(blocks);
    assert events[..due + 1][..due] == events[..due];
  }

  /** That frame starts within half a frame of the requested time exactly when the rounded product
      fits in 32 bits. The error is in ticks times frames per block, from the start of the block. */
  lemma RecordingBeginsNearest(frames: u32, duration: u32, ahead: nat)
    requires 0 < duration && ahead < TWO_31
    ensures var due, rest := DueBlock(ahead, duration), Remainder(ahead, duration);
            var error := (due * duration) * frames + SplitFrame(rest, frames, duration) * duration - ahead * frames;
            -(duration as int) <= 2 * error <= duration <==> rest * frames + duration / 2 < TWO_32
  {
    var due, rest := DueBlock(ahead, duration), Remainder(ahead, duration);
    SplitIsNearest(rest, frames, duration);
    Distribute(due * duration, rest, frames);
    hide *;
  }

  // The same runs with files.
  function Advance(max: nat, t: Tape, e: Event): Tape
    requires e.Audio? ==> e.block.WellFormed()
  {
    match e
    case StartCmd(time) => Armed(t, time)
    case StopCmd => Halted(t)
    case Audio(block) => Record(max, t, block)
  }

  ghost function Film(max: nat, t: Tape, events: seq<Event>): Tape
    requires WellFormedRun(events)
  {
    if events == [] then t else Advance(max, Film(max, t, events[..|events| - 1]), events[|events| - 1])
  }

  lemma FilmOne(max: nat, t: Tape, events: seq<Event>, n: nat)
    requires WellFormedRun(events) && n < |events|
    ensures Film(max, t, events[..n + 1]) == Advance(max, Film(max, t, events[..n]), events[n])
    ensures BytesOf(events[..n + 1]) == BytesOf(events[..n]) + if events[n].Audio? then events[n].block.buf else []
  {
    assert events[..n + 1][..n] == events[..n];
    hide Advance;
  }
}
