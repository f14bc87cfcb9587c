/** Files cut at frames: when, and what a reader misses otherwise. */
module RecordAlign {
  import opened Division
  import opened Words
  import opened RecordTiming
  import opened Wav
  import opened RecordBlock
  import opened RecordSpec

  ghost function AllWhole(parts: seq<seq<u8>>, align: nat): seq<seq<u8>>
    requires align > 0
  {
    if parts == [] then [] else AllWhole(parts[..|parts| - 1], align) + [WholeFrames(parts[|parts| - 1], align)]
  }

  ghost predicate Aligned(parts: seq<seq<u8>>, align: nat)
    requires align > 0
  {
    forall i | 0 <= i < |parts| :: |parts[i]| % align == 0
  }

  lemma WholeFramesOf(p: seq<u8>, align: nat)
    requires align > 0
    ensures |WholeFrames(p, align)| <= |p|
    ensures WholeFrames(p, align) == p <==> |p| % align == 0
    ensures |WholeFrames(p, align)| == |p| <==> |p| % align == 0
  {
    var q := |p| / align;
    QuotientBounds(|p|, align);
    if |p| % align == 0 {
      assert |p| == q * align;
      assert p[..|p|] == p;
    }
  }

  /** Dropping partial frames shortens the concatenation unless there are none. */
  lemma {:induction false} WholeLength(parts: seq<seq<u8>>, align: nat)
    requires align > 0
    ensures |Flatten(AllWhole(parts, align))| <= |Flatten(parts)|
    ensures |Flatten(AllWhole(parts, align))| == |Flatten(parts)| <==> Aligned(parts, align)
    ensures Aligned(parts, align) ==> AllWhole(parts, align) == parts
  {
    if parts != [] {
      var n := |parts| - 1;
      var before, last := parts[..n], parts[n];
      WholeLength(before, align);
      WholeFramesOf(last, align);
      FlattenAppend(AllWhole(before, align), WholeFrames(last, align));
      assert parts == before + [last];
      AlignedLast(before, last, align);
      hide WholeFrames, Aligned;
    }
  }

  lemma AlignedLast(before: seq<seq<u8>>, last: seq<u8>, align: nat)
    requires align > 0
    ensures Aligned(before + [last], align) <==> Aligned(before, align) && |last| % align == 0
  {
    var parts := before + [last];
    assert parts[|before|] == last;
    if Aligned(parts, align) {
      assert forall i | 0 <= i < |before| :: before[i] == parts[i];
    }
  }

  /** What players see is what was recorded if and only if every file was cut at a frame. */
  lemma NothingClippedIff(parts: seq<seq<u8>>, align: nat)
    requires align > 0
    ensures Flatten(AllWhole(parts, align)) == Flatten(parts) <==> Aligned(parts, align)
  {
    WholeLength(parts, align);
    hide *;
  }

  // Runs keep files aligned when the block's frame size is a multiple of the file's.
  ghost predicate TapeAligned(t: Tape, align: nat)
    requires align > 0
  {
    Aligned(t.done, align) && |t.current| % align == 0
  }

  ghost predicate BlocksAligned(events: seq<Event>, align: nat)
    requires align > 0
  {
    forall i | 0 <= i < |events| && events[i].Audio? :: events[i].block.bytesPerFrame as int % align == 0
  }

  lemma SumAligned(x: int, y: int, align: nat)
    requires align > 0 && x % align == 0 && y % align == 0
    ensures (x + y) % align == 0 && (x - y) % align == 0
  {
    var p, q := x / align, y / align;
    assert x == p * align && y == q * align;
    assert x + y == (p + q) * align && x - y == (p - q) * align;
    MultipleIsAligned(p + q, align);
    MultipleIsAligned(p - q, align);
  }

  lemma MultipleIsAligned(q: int, align: nat)
    requires align > 0
    ensures q * align % align == 0
  {
    QuotientUnique(q * align, align, q);
  }

  lemma BlockAligned(b: Block, request: u32, align: nat)
    requires b.WellFormed() && align > 0 && b.bytesPerFrame as int % align == 0
    ensures |b.buf| % align == 0 && b.SplitOffset(request) % align == 0
  {
    assert |b.buf| == b.Frames() * b.bytesPerFrame;
    MultipleOfMultiple(b.Frames(), b.bytesPerFrame, align);
    MultipleOfMultiple(SplitFrame(WaitTime(request, b.startTime), b.Frames(), b.duration), b.bytesPerFrame, align);
    hide *;
  }

  lemma CutAligned(max: nat, size: nat, piece: nat, length: nat, align: nat)
    requires align > 0 && max % align == 0 && size % align == 0 && piece % align == 0 && length % align == 0
    ensures var cut := Cut(max, size, piece);
            cut % align == 0 && (size + cut) % align == 0 && (length - cut) % align == 0 && (size + length) % align == 0
  {
    hide Cut;
    SumAligned(max, size, align);
    var cut := Cut(max, size, piece);
    assert cut == max - size || cut == piece by { CutCases(max, size, piece); }
    SumAligned(size, cut, align);
    SumAligned(length, cut, align);
    SumAligned(size, length, align);
  }

  lemma RecordKeepsAligned(max: nat, t: Tape, b: Block, align: nat)
    requires align > 0 && b.WellFormed() && max % align == 0 && b.bytesPerFrame as int % align == 0
    requires TapeAligned(t, align)
    ensures TapeAligned(Record(max, t, b), align)
  {
    BlockAligned(b, t.request, align);
    var due := DueNow(t, b);
    if due {
      SplitOffsetWithin(b, t.request);
    }
    var piece := if due then b.SplitOffset(t.request) else |b.buf|;
    var cut := Cut(max, |t.current|, piece);
    CutAligned(max, |t.current|, piece, |b.buf|, align);
    CutAligned(max, |t.current|, 0, |b.buf|, align);
    SumAligned(|b.buf|, piece, align);
    CutCases(max, |t.current|, piece);
    AlignedLast(t.done, t.current + UpTo(b.buf, cut), align);
    hide Aligned, Cut, DueNow, Block.WellFormed, Block.SplitOffset;
  }

  lemma HaltedKeepsAligned(t: Tape, align: nat)
    requires align > 0 && TapeAligned(t, align)
    ensures TapeAligned(Halted(t), align)
  {
    AlignedLast(t.done, t.current, align);
    hide Aligned;
  }

  lemma ArmedKeepsAligned(t: Tape, time: u32, align: nat)
    requires align > 0 && TapeAligned(t, align)
    ensures TapeAligned(Armed(t, time), align)
  {
  }

  /** In any run of blocks whose frame size is a multiple of the file's, every file is cut at a frame. */
  lemma {:induction false} FilmKeepsAligned(max: nat, t: Tape, events: seq<Event>, align: nat)
    requires align > 0 && max % align == 0 && WellFormedRun(events) && BlocksAligned(events, align)
    requires TapeAligned(t, align)
    ensures TapeAligned(Film(max, t, events), align)
  {
    if events != [] {
      var before, e := events[..|events| - 1], events[|events| - 1];
      hide TapeAligned, Record, Halted;
      FilmKeepsAligned(max, t, before, align);
      match e {
        case StartCmd(time) => ArmedKeepsAligned(Film(max, t, before), time, align);
        case StopCmd => HaltedKeepsAligned(Film(max, t, before), align);
        case Audio(block) => RecordKeepsAligned(max, Film(max, t, before), block, align);
      }
    }
  }

  lemma SessionKeepsAligned(max: nat, t: Tape, events: seq<Event>, align: nat)
    requires align > 0 && max % align == 0 && WellFormedRun(events) && TapeAligned(t, align)
    ensures BlocksAligned(events, align) ==> TapeAligned(Halted(Film(max, t, events)), align)
  {
    hide TapeAligned, Film, Halted, BlocksAligned;
    if BlocksAligned(events, align) {
      FilmKeepsAligned(max, t, events, align);
      HaltedKeepsAligned(Film(max, t, events), align);
    }
  }

  lemma MaxIsAligned(f: Format)
    requires f.Usable()
    ensures f.MaxDataSize() as int % f.BytesPerFrame() == 0
  {
  }
}
