/** When the recorder's files begin and end. */
module RecordFiles {
  import opened Division
  import opened Words
  import opened RecordTiming
  import opened RecordBlock
  import opened RecordSpec

  predicate HasFile(t: Tape) {
    t.state == Running || t.state == WaitingNewFile
  }

  // One block.

  /** Whether a block begins a new file: one was requested and is due, or the current one is full. */
  predicate Ends(max: nat, t: Tape, b: Block)
    requires b.WellFormed()
  {
    HasFile(t) && ((t.state == WaitingNewFile && b.DueIn(t.request)) || |t.current| + |b.buf| > max)
  }

  /** Otherwise the current file takes all of it, whatever time was requested before. */
  lemma FileGoesOn(max: nat, t: Tape, b: Block)
    requires b.WellFormed() && HasFile(t) && !Ends(max, t, b)
    ensures Record(max, t, b) == t.(current := t.current + b.buf)
  {
    hide Block.WellFormed, Block.SplitOffset;
  }

  /** A file that fills up is cut at the limit, and a request for a new one is dropped. */
  lemma FileFills(max: nat, t: Tape, b: Block)
    requires b.WellFormed() && HasFile(t) && (t.state == WaitingNewFile ==> !b.DueIn(t.request))
    requires |t.current| <= max < |t.current| + |b.buf|
    ensures Record(max, t, b) ==
            Tape(Running, t.request, t.done + [t.current + b.buf[..max - |t.current|]], b.buf[max - |t.current|..])
  {
    hide Block.WellFormed, Block.SplitOffset;
  }

  /** A request that is due ends the file at the split, or at the limit if it fills up before. */
  lemma FileSplits(max: nat, t: Tape, b: Block)
    requires b.WellFormed() && t.state == WaitingNewFile && b.DueIn(t.request) && |t.current| <= max
    ensures 0 <= b.SplitOffset(t.request) <= |b.buf|
    ensures var offset := b.SplitOffset(t.request);
            var cut := if offset <= max - |t.current| then offset else max - |t.current|;
            Record(max, t, b) == Tape(Running, t.request, t.done + [t.current + UpTo(b.buf, cut)], From(b.buf, cut))
  {
    SplitOffsetWithin(b, t.request);
    hide Block.WellFormed, Block.SplitOffset;
  }

  // Any run.

  ghost predicate AllFit(max: nat, events: seq<Event>) {
    forall i | 0 <= i < |events| && events[i].Audio? :: |events[i].block.buf| <= max
  }

  /** No file exceeds the limit. */
  ghost predicate Fits(max: nat, t: Tape) {
    |t.current| <= max && forall i | 0 <= i < |t.done| :: |t.done[i]| <= max
  }

  lemma RecordFits(max: nat, t: Tape, b: Block)
    requires b.WellFormed() && Proper(t) && Fits(max, t) && |b.buf| <= max
    ensures Fits(max, Record(max, t, b)) && Proper(Record(max, t, b))
  {
    if DueNow(t, b) {
      SplitOffsetWithin(b, t.request);
    }
    hide Block.WellFormed, Block.SplitOffset;
  }

  lemma {:induction false} FilmFits(max: nat, t: Tape, events: seq<Event>)
    requires WellFormedRun(events) && AllFit(max, events) && Proper(t) && Fits(max, t)
    ensures Fits(max, Film(max, t, events)) && Proper(Film(max, t, events))
  {
    if events != [] {
      hide Record, Block.WellFormed;
      var n := |events| - 1;
      FilmFits(max, t, events[..n]);
      if events[n].Audio? {
        RecordFits(max, Film(max, t, events[..n]), events[n].block);
      }
    }
  }

  /** What an event does to the files of a recorder: a stop ends the current one, a block ends it when a
      request is due or it is full, and a start command never does. */
  ghost predicate EndsFile(max: nat, t: Tape, e: Event)
    requires e.Audio? ==> e.block.WellFormed()
  {
    match e
    case StartCmd(_) => false
    case StopCmd => HasFile(t)
    case Audio(block) => Ends(max, t, block)
  }

  ghost predicate Follows(t: Tape, t': Tape, ends: bool) {
    if ends then |t'.done| == |t.done| + 1 && t'.done[..|t.done|] == t.done
    else t'.done == t.done && t.current <= t'.current
  }

  lemma RecordEnds(max: nat, t: Tape, b: Block)
    requires b.WellFormed() && Proper(t) && |t.current| <= max
    ensures Follows(t, Record(max, t, b), Ends(max, t, b))
  {
    hide Block.WellFormed, Block.SplitOffset, Block.DueIn, Record;
    if t.state == WaitingNewFile && b.DueIn(t.request) {
      FileSplits(max, t, b);
    } else if Ends(max, t, b) {
      FileFills(max, t, b);
    } else if HasFile(t) {
      FileGoesOn(max, t, b);
    } else if t.state == WaitingStart && b.DueIn(t.request) {
      SplitOffsetWithin(b, t.request);
      FileStarts(max, t, b);
    } else {
      RecordNothing(max, t, b);
    }
  }

  lemma AdvanceEnds(max: nat, t: Tape, e: Event)
    requires (e.Audio? ==> e.block.WellFormed()) && Proper(t) && |t.current| <= max
    ensures Follows(t, Advance(max, t, e), EndsFile(max, t, e))
  {
    hide Block.WellFormed, Record, Ends;
    if e.Audio? {
      RecordEnds(max, t, e.block);
    }
  }

  /** Over any run, a file ends exactly at a stop, at a due request and when it is full. */
  lemma FilesEndExactly(max: nat, t: Tape, events: seq<Event>, k: nat)
    requires WellFormedRun(events) && AllFit(max, events) && Proper(t) && Fits(max, t) && k < |events|
    ensures var before, after := Film(max, t, events[..k]), Film(max, t, events[..k + 1]);
            && (EndsFile(max, before, events[k]) <==> after.done != before.done)
            && before.done <= after.done && |after.done| <= |before.done| + 1
  {
    FilmOne(max, t, events, k);
    FilmFits(max, t, events[..k]);
    AdvanceEnds(max, Film(max, t, events[..k]), events[k]);
    hide Film, Advance, EndsFile;
  }

  // Runs of blocks.

  lemma NoEvents(max: nat, t: Tape)
    ensures Film(max, t, []) == t && BytesOf([]) == []
  {
  }

  /** While the file has room and no request comes due, the file takes every byte. */
  lemma {:induction false} FileGrows(max: nat, t: Tape, blocks: seq<Block>, n: nat)
    requires HasFile(t) && n <= |blocks| && forall k | 0 <= k < |blocks| :: blocks[k].WellFormed()
    requires t.state == WaitingNewFile ==> forall k | 0 <= k < n :: !blocks[k].DueIn(t.request)
    requires |t.current| + |BytesOf(AsEvents(blocks)[..n])| <= max
    ensures Film(max, t, AsEvents(blocks)[..n]) == t.(current := t.current + BytesOf(AsEvents(blocks)[..n]))
  {
    hide Record, BytesOf, Film, Block.WellFormed, Block.DueIn;
    var events := AsEvents(blocks);
    if n > 0 {
      FilmOne(max, t, events, n - 1);
      FileGrows(max, t, blocks, n - 1);
      FileGoesOn(max, t.(current := t.current + BytesOf(events[..n - 1])), blocks[n - 1]);
      assert t.current + BytesOf(events[..n - 1]) + blocks[n - 1].buf == t.current + BytesOf(events[..n]);
    } else {
      NoEvents(max, t);
      assert t.current + [] == t.current;
    }
  }

  /** A running recorder without commands: every file it finishes is exactly as long as the limit. */
  lemma {:induction false} RunningFillsFiles(max: nat, t: Tape, blocks: seq<Block>, n: nat)
    requires t.state == Running && |t.current| <= max && n <= |blocks|
    requires forall k | 0 <= k < |blocks| :: blocks[k].WellFormed() && |blocks[k].buf| <= max
    ensures var t' := Film(max, t, AsEvents(blocks)[..n]);
            && t'.state == Running && |t'.current| <= max && t.done <= t'.done
            && forall i | |t.done| <= i < |t'.done| :: |t'.done[i]| == max
  {
    hide Record, BytesOf, Film, Block.WellFormed;
    if n > 0 {
      FilmOne(max, t, AsEvents(blocks), n - 1);
      RunningFillsFiles(max, t, blocks, n - 1);
      var before := Film(max, t, AsEvents(blocks)[..n - 1]);
      if Ends(max, before, blocks[n - 1]) {
        FileFills(max, before, blocks[n - 1]);
      } else {
        FileGoesOn(max, before, blocks[n - 1]);
      }
    } else {
      NoEvents(max, t);
    }
  }

  // From a start command to a file.

  /** A start command to a stopped or waiting recorder, less than 2^31 ticks ahead: its first file begins
      in block DueBlock at a whole frame of that block. */
  lemma FirstFileBegins(max: nat, t: Tape, blocks: seq<Block>, first: u32, duration: u32, ahead: nat)
    requires Consecutive(blocks, first, duration) && ahead < TWO_31 && DueBlock(ahead, duration) < |blocks|
    requires Proper(t) && !HasFile(t)
    ensures var request, due := Wrap32(first + ahead), DueBlock(ahead, duration);
            var b, armed := blocks[due], Advance(max, t, StartCmd(request));
            var offset := SplitFrame(Remainder(ahead, duration), b.Frames(), duration) * b.bytesPerFrame;
            && 0 <= offset <= |b.buf|
            && Film(max, armed, AsEvents(blocks)[..due]) == Tape(WaitingStart, request, t.done, [])
            && Film(max, armed, AsEvents(blocks)[..due + 1]) == Tape(Running, request, t.done, From(b.buf, offset))
  {
    ComesDueOnce(first, duration, ahead);
    var request, due := Wrap32(first + ahead), DueBlock(ahead, duration);
    var armed, b := Tape(WaitingStart, request, t.done, []), blocks[due];
    assert Advance(max, t, StartCmd(request)) == armed;
    SplitOffsetWithin(b, request);
    NotYetDue(max, armed, blocks, due);
    FilmOne(max, armed, AsEvents(blocks), due);
    FileStarts(max, armed, b);
    hide Record, BytesOf, Film, Block.WellFormed, WaitTime, SplitFrame, BlockTime, DueBlock, Remainder, Due;
  }

  lemma FileStarts(max: nat, t: Tape, b: Block)
    requires b.WellFormed() && t.state == WaitingStart && b.DueIn(t.request)
    requires 0 <= b.SplitOffset(t.request) <= |b.buf|
    ensures Record(max, t, b) == Tape(Running, t.request, t.done, From(b.buf, b.SplitOffset(t.request)))
  {
    hide Block.WellFormed, Block.SplitOffset;
  }

  lemma {:induction false} NotYetDue(max: nat, t: Tape, blocks: seq<Block>, n: nat)
    requires t.state == Stopped || t.state == WaitingStart
    requires n <= |blocks| && forall k | 0 <= k < |blocks| :: blocks[k].WellFormed()
    requires t.state == WaitingStart ==> forall k | 0 <= k < n :: !blocks[k].DueIn(t.request)
    ensures Film(max, t, AsEvents(blocks)[..n]) == t
  {
    hide Record, Film, Block.WellFormed, Block.DueIn;
    if n > 0 {
      FilmOne(max, t, AsEvents(blocks), n - 1);
      NotYetDue(max, t, blocks, n - 1);
      RecordNothing(max, t, blocks[n - 1]);
    } else {
      NoEvents(max, t);
    }
  }

  /** A start command while recording, less than 2^31 ticks ahead: if the current file has room up to
      there, it ends, and the next begins, in block DueBlock at a whole frame of that block. */
  lemma NewFileBegins(max: nat, t: Tape, blocks: seq<Block>, first: u32, duration: u32, ahead: nat)
    requires Consecutive(blocks, first, duration) && ahead < TWO_31 && DueBlock(ahead, duration) < |blocks|
    requires HasFile(t)
    requires var due := DueBlock(ahead, duration);
             var b := blocks[due];
             |t.current| + |BytesOf(AsEvents(blocks)[..due])|
             + SplitFrame(Remainder(ahead, duration), b.Frames(), duration) * b.bytesPerFrame <= max
    ensures var request, due := Wrap32(first + ahead), DueBlock(ahead, duration);
            var b, before := blocks[due], t.current + BytesOf(AsEvents(blocks)[..due]);
            var offset := SplitFrame(Remainder(ahead, duration), b.Frames(), duration) * b.bytesPerFrame;
            var armed := Advance(max, t, StartCmd(request));
            && 0 <= offset <= |b.buf|
            && Film(max, armed, AsEvents(blocks)[..due]) == Tape(WaitingNewFile, request, t.done, before)
            && Film(max, armed, AsEvents(blocks)[..due + 1]) ==
               Tape(Running, request, t.done + [before + UpTo(b.buf, offset)], From(b.buf, offset))
  {
    ComesDueOnce(first, duration, ahead);
    var request, due := Wrap32(first + ahead), DueBlock(ahead, duration);
    var armed, b := Tape(WaitingNewFile, request, t.done, t.current), blocks[due];
    assert Advance(max, t, StartCmd(request)) == armed;
    SplitOffsetWithin(b, request);
    FileGrows(max, armed, blocks, due);
    FilmOne(max, armed, AsEvents(blocks), due);
    FileSplits(max, armed.(current := t.current + BytesOf(AsEvents(blocks)[..due])), b);
    hide Record, BytesOf, Film, Block.WellFormed, WaitTime, SplitFrame, BlockTime, DueBlock, Remainder, Due;
  }

  /** If instead the file fills up in an earlier block, it ends at its limit there, and the command is
      dropped: the next file runs on, and nothing waits any more. */
  lemma RolloverDropsRequest(max: nat, t: Tape, blocks: seq<Block>, first: u32, duration: u32, ahead: nat, n: nat)
    requires Consecutive(blocks, first, duration) && ahead < TWO_31 && n < DueBlock(ahead, duration) && n < |blocks|
    requires HasFile(t)
    requires |t.current| + |BytesOf(AsEvents(blocks)[..n])| <= max
    requires |t.current| + |BytesOf(AsEvents(blocks)[..n])| + |blocks[n].buf| > max
    ensures var request, before := Wrap32(first + ahead), t.current + BytesOf(AsEvents(blocks)[..n]);
            var cut, armed := max - |before|, Advance(max, t, StartCmd(request));
            Film(max, armed, AsEvents(blocks)[..n + 1]) ==
            Tape(Running, request, t.done + [before + blocks[n].buf[..cut]], blocks[n].buf[cut..])
  {
    ComesDueOnce(first, duration, ahead);
    var request := Wrap32(first + ahead);
    var armed := Tape(WaitingNewFile, request, t.done, t.current);
    assert Advance(max, t, StartCmd(request)) == armed;
    assert !Due(request, BlockTime(first, duration, n), duration);
    FileGrows(max, armed, blocks, n);
    FilmOne(max, armed, AsEvents(blocks), n);
    FileFills(max, armed.(current := t.current + BytesOf(AsEvents(blocks)[..n])), blocks[n]);
    hide Record, BytesOf, Film, Block.WellFormed, WaitTime, SplitFrame, BlockTime, DueBlock, Due;
  }

  /** A start command for a time up to 2^31 ticks past takes effect at the start of the next block. */
  lemma LateStart(max: nat, t: Tape, b: Block, late: nat)
    requires b.WellFormed() && Proper(t) && |t.current| <= max && 0 < late <= TWO_31
    ensures var request := Wrap32(b.startTime - late);
            Record(max, Advance(max, t, StartCmd(request)), b) ==
            Tape(Running, request, if HasFile(t) then t.done + [t.current] else t.done, b.buf)
  {
    var request := Wrap32(b.startTime - late);
    PastIsNow(b.startTime, late);
    NoSplit(b, request);
    var armed := Armed(t, request);
    if HasFile(t) {
      FileSplits(max, armed, b);
      assert t.current + UpTo(b.buf, 0) == t.current;
    } else {
      FileStarts(max, armed, b);
    }
    assert From(b.buf, 0) == b.buf;
    hide Record, Block.WellFormed, Block.SplitOffset, Wrap32, Block.DueIn;
  }

  lemma PastIsNow(blockStart: u32, late: nat)
    requires 0 < late <= TWO_31
    ensures WaitTime(Wrap32(blockStart - late), blockStart) == 0
  {
    SignedDifference32(blockStart - late, blockStart);
    hide Wrap32, Signed32;
  }

  lemma NoSplit(b: Block, request: u32)
    requires b.WellFormed() && WaitTime(request, b.startTime) == 0
    ensures b.DueIn(request) && b.SplitOffset(request) == 0
  {
    StartOfBlock(b.Frames(), b.duration);
    hide SplitFrame, WaitTime, Block.WellFormed;
  }

  lemma StartOfBlock(frames: u32, duration: u32)
    requires duration > 0
    ensures SplitFrame(0, frames, duration) == 0
  {
    assert Wrap32(Wrap32(0 * frames) + duration / 2) == duration / 2;
    QuotientUnique(duration / 2, duration, 0);
    hide *;
  }
}
