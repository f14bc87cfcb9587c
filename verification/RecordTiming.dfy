/** Where in the stream of audio blocks a requested start time falls. Times are 32-bit serial
    numbers; products and sums are 32-bit words. */
module RecordTiming {
  import opened Division
  import opened Words

  /** Ticks from the start of a block until a requested time; nothing if the time has passed. */
  function WaitTime(request: u32, blockStart: u32): u32 {
    var wait := Signed32(Wrap32(request - blockStart));
    if wait < 0 then 0 else wait
  }

  predicate Due(request: u32, blockStart: u32, duration: u32) {
    WaitTime(request, blockStart) <= duration
  }

  function SplitFrame(wait: u32, frames: u32, duration: u32): u32
    requires duration > 0
  {
    Wrap32(Wrap32(wait * frames) + duration / 2) / duration
  }

  lemma WrapIsSmaller(x: nat)
    ensures Wrap32(x) <= x && (Wrap32(x) == x <==> x < TWO_32) && (x >= TWO_32 ==> Wrap32(x) <= x - TWO_32)
  {
  }

  /** The split never points past the end of a block that is due, even if the arithmetic wraps. */
  lemma SplitWithinBlock(wait: u32, frames: u32, duration: u32)
    requires 0 < duration && wait <= duration
    ensures SplitFrame(wait, frames, duration) <= frames
  {
    var x, most, half := wait * frames, frames * duration, duration / 2;
    assert 0 <= x <= most by {
      Multiple(0, wait, frames);
      Multiple(wait, duration, frames);
    }
    WrapOfSum32(x, half);
    WrapIsSmaller(x + half);
    QuotientMonotone(Wrap32(x + half), most + half, duration);
    QuotientUnique(most + half, duration, frames);
    assert SplitFrame(wait, frames, duration) == Wrap32(x + half) / duration;
    hide *;
  }

  /** The split is the frame boundary nearest to the requested time exactly when the rounded product
      fits in 32 bits. Distances are in ticks times frames per block. */
  lemma SplitIsNearest(wait: u32, frames: u32, duration: u32)
    requires 0 < duration
    ensures var error := SplitFrame(wait, frames, duration) * duration - wait * frames;
            -(duration as int) <= 2 * error <= duration <==> wait * frames + duration / 2 < TWO_32
  {
    var x, half := wait * frames, duration / 2;
    assert x >= 0 by { Multiple(0, wait, frames); }
    WrapOfSum32(x, half);
    WrapIsSmaller(x + half);
    var y := Wrap32(x + half);
    QuotientBounds(y, duration);
    hide Wrap32;
    assert SplitFrame(wait, frames, duration) == y / duration;
  }

  // Successive blocks.

  /** The start time of block k when the first starts at `first`. */
  function BlockTime(first: u32, duration: u32, k: nat): u32 {
    Wrap32(first + k * duration)
  }

  /** The block in which a request `ahead` ticks after the start of block 0 comes due. */
  function DueBlock(ahead: nat, duration: u32): nat
    requires duration > 0
  {
    if ahead == 0 then 0 else (ahead - 1) / duration
  }

  /** How far into that block the request lies. */
  function Remainder(ahead: nat, duration: u32): (rest: nat)
    requires duration > 0
    ensures rest <= duration && DueBlock(ahead, duration) * duration + rest == ahead
  {
    if ahead > 0 then QuotientBounds(ahead - 1, duration); ahead - (ahead - 1) / duration * duration
    else 0
  }

  lemma WaitInBlock(first: u32, duration: u32, ahead: nat, k: nat)
    requires ahead < TWO_31 && k * duration <= ahead
    ensures WaitTime(Wrap32(first + ahead), BlockTime(first, duration, k)) == ahead - k * duration
  {
    SignedDifference32(first + ahead, first + k * duration);
    hide Wrap32, Signed32;
  }

  /** A request less than 2^31 ticks ahead comes due in exactly one block: in every earlier block the
      wait is longer than the block, and in this one the rest of the wait lies within the block. */
  lemma ComesDueOnce(first: u32, duration: u32, ahead: nat)
    requires 0 < duration && ahead < TWO_31
    ensures var request, due := Wrap32(first + ahead), DueBlock(ahead, duration);
            && (forall k: nat | k < due :: !Due(request, BlockTime(first, duration, k), duration))
            && Due(request, BlockTime(first, duration, due), duration)
            && WaitTime(request, BlockTime(first, duration, due)) == Remainder(ahead, duration)
  {
    var request, due := Wrap32(first + ahead), DueBlock(ahead, duration);
    if ahead > 0 {
      QuotientBounds(ahead - 1, duration);
    }
    forall k: nat | k < due
      ensures !Due(request, BlockTime(first, duration, k), duration)
    {
      Multiple(k + 1, due, duration);
      assert (k + 1) * duration == k * duration + duration;
      WaitInBlock(first, duration, ahead, k);
    }
    WaitInBlock(first, duration, ahead, due);
  }
}
