/** A block of audio and where a requested time cuts it. */
module RecordBlock {
  import opened Division
  import opened Words
  import opened RecordTiming
  import opened Wav

  datatype Block = Block(buf: seq<u8>, startTime: u32, duration: u32, bytesPerFrame: u8) {
    /** Whole frames, a duration, and a length that a write result can express. */
    predicate WellFormed() {
      bytesPerFrame > 0 && |buf| % bytesPerFrame == 0 && duration > 0 && |buf| < TWO_31
    }

    function Frames(): u32
      requires WellFormed()
    {
      |buf| / bytesPerFrame
    }

    /** Byte offset of a requested time, on a frame boundary. */
    function SplitOffset(request: u32): nat
      requires WellFormed()
    {
      SplitFrame(WaitTime(request, startTime), Frames(), duration) * bytesPerFrame
    }

    predicate DueIn(request: u32) {
      Due(request, startTime, duration)
    }
  }

  lemma SplitOffsetWithin(b: Block, request: u32)
    requires b.WellFormed() && b.DueIn(request)
    ensures 0 <= b.SplitOffset(request) <= |b.buf|
  {
    SplitWithinBlock(WaitTime(request, b.startTime), b.Frames(), b.duration);
    Multiple(SplitFrame(WaitTime(request, b.startTime), b.Frames(), b.duration), b.Frames(), b.bytesPerFrame);
    QuotientBounds(|b.buf|, b.bytesPerFrame);
  }

  // A split lies between frames as the block counts them. Between frames of the file it lies only if
  // the two agree.
  lemma MultipleOfMultiple(k: nat, x: nat, d: nat)
    requires d > 0 && x % d == 0
    ensures k * x % d == 0
  {
    var q := x / d;
    assert x == q * d;
    assert k * x == k * q * d;
    MultipleOf(k * q, d);
  }

  /** Every cut at a block frame is at a file frame if and only if the block's frame size is a multiple
      of the file's. */
  lemma CutsAreAligned(b: Block, f: Format)
    requires b.WellFormed() && b.Frames() >= 1 && f.Usable()
    ensures (forall k: nat | k <= b.Frames() :: k * b.bytesPerFrame % f.BytesPerFrame() == 0) <==>
            b.bytesPerFrame as int % f.BytesPerFrame() == 0
  {
    if b.bytesPerFrame as int % f.BytesPerFrame() == 0 {
      forall k: nat | k <= b.Frames()
        ensures k * b.bytesPerFrame % f.BytesPerFrame() == 0
      {
        MultipleOfMultiple(k, b.bytesPerFrame, f.BytesPerFrame());
      }
    } else {
      assert 1 * b.bytesPerFrame % f.BytesPerFrame() != 0;
    }
  }

  /** The request whose split is the first block frame. */
  lemma FirstFrame(frames: u32, duration: u32) returns (wait: u32)
    requires 1 <= frames <= duration < TWO_31
    ensures wait <= duration && SplitFrame(wait, frames, duration) == 1
  {
    var q := TicksPerFrame(frames, duration);
    wait := q;
    RoundsToOne(wait, frames, duration, q * frames);
  }

  lemma TicksPerFrame(frames: nat, duration: nat) returns (q: nat)
    requires 1 <= frames <= duration
    ensures q <= duration && frames <= q * frames <= duration < q * frames + frames
  {
    QuotientBounds(duration, frames);
    QuotientUnique(frames, frames, 1);
    QuotientMonotone(frames, duration, frames);
    q := duration / frames;
    Multiple(1, q, frames);
    Multiple(1, frames, q);
  }

  lemma RoundsToOne(wait: u32, frames: u32, duration: u32, product: int)
    requires product == wait * frames && frames <= product <= duration < product + frames && duration < TWO_31
    ensures SplitFrame(wait, frames, duration) == 1
  {
    hide Wrap32;
    WrapIsSmaller(product);
    WrapIsSmaller(product + duration / 2);
    QuotientUnique(product + duration / 2, duration, 1);
  }

  /** With at least one tick per frame, recording starts at a file frame, whatever request comes due in
      the block, if and only if the block's frame size is a multiple of the file's. */
  lemma StartsAreAligned(b: Block, f: Format)
    requires b.WellFormed() && f.Usable() && 1 <= b.Frames() <= b.duration < TWO_31
    ensures (forall request: u32 | b.DueIn(request) :: b.SplitOffset(request) % f.BytesPerFrame() == 0) <==>
            b.bytesPerFrame as int % f.BytesPerFrame() == 0
  {
    if b.bytesPerFrame as int % f.BytesPerFrame() == 0 {
      forall request: u32 | b.DueIn(request)
        ensures b.SplitOffset(request) % f.BytesPerFrame() == 0
      {
        AlignedSplit(b, f, request);
      }
    } else {
      var request := FirstFrameRequest(b);
      assert b.SplitOffset(request) % f.BytesPerFrame() != 0;
    }
  }

  lemma AlignedSplit(b: Block, f: Format, request: u32)
    requires b.WellFormed() && f.Usable() && b.bytesPerFrame as int % f.BytesPerFrame() == 0
    ensures b.SplitOffset(request) % f.BytesPerFrame() == 0
  {
    var k := SplitFrame(WaitTime(request, b.startTime), b.Frames(), b.duration);
    assert b.SplitOffset(request) == k * b.bytesPerFrame;
    hide SplitFrame, WaitTime, Block.Frames, Block.SplitOffset, Format.BytesPerFrame;
    MultipleOfMultiple(k, b.bytesPerFrame, f.BytesPerFrame());
  }

  lemma FirstFrameRequest(b: Block) returns (request: u32)
    requires b.WellFormed() && 1 <= b.Frames() <= b.duration < TWO_31
    ensures b.DueIn(request) && b.SplitOffset(request) == b.bytesPerFrame
  {
    hide *;
    var wait := FirstFrame(b.Frames(), b.duration);
    assert wait < TWO_31;
    request := Wrap32(b.startTime + wait);
    WaitIs(b.startTime, wait);
    SplitAtFirst(b, request, wait);
  }

  lemma SplitAtFirst(b: Block, request: u32, wait: u32)
    requires b.WellFormed() && WaitTime(request, b.startTime) == wait <= b.duration
    requires SplitFrame(wait, b.Frames(), b.duration) == 1
    ensures b.DueIn(request) && b.SplitOffset(request) == b.bytesPerFrame
  {
    hide SplitFrame, WaitTime, Block.Frames, Block.WellFormed;
  }

  lemma WaitIs(start: u32, wait: u32)
    requires wait < TWO_31
    ensures WaitTime(Wrap32(start + wait), start) == wait
  {
    SignedDifference32(start + wait, start);
    hide Signed32;
  }

  function From(buf: seq<u8>, offset: int): seq<u8> {
    if 0 <= offset <= |buf| then buf[offset..] else []
  }

  function UpTo(buf: seq<u8>, offset: int): seq<u8> {
    if 0 <= offset <= |buf| then buf[..offset] else buf
  }

  /** The shipped configuration is such a case: blocks of 14400 bytes and 1200000 ticks with six bytes
      per frame, recorded as stereo of 16 bits. A request 500 ticks into a block starts the file in the
      middle of a frame, with the channels exchanged, and leaves it two bytes past a whole frame. */
  lemma ShippedStartIsMisaligned(b: Block, f: Format)
    requires |b.buf| == 14400 && b.startTime == 0 && b.duration == 1_200_000 && b.bytesPerFrame == 6
    requires f.channels == 2 && f.bitsPerSample == 16
    ensures b.WellFormed() && b.DueIn(500) && b.SplitOffset(500) == 6 && f.BytesPerFrame() == 4 && 6 % f.BytesPerFrame() == 2
    ensures |From(b.buf, b.SplitOffset(500))| % f.BytesPerFrame() == 2
  {
    assert b.Frames() == 2400 && WaitTime(500, 0) == 500;
    assert SplitFrame(500, 2400, 1_200_000) == 1;
  }
}
