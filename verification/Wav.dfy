/** WAV files written sequentially, with a header that is patched when the file is closed. The file
    system is assumed not to fail. */
module Wav {
  import opened Division
  import opened Words
  import opened Wrappers

  const HEADER_SIZE: nat := 44
  const CHUNK_SIZE_OFFSET: nat := 4
  const SUBCHUNK_2_SIZE_OFFSET: nat := 40

  const RIFF: seq<u8> := [0x52, 0x49, 0x46, 0x46]
  const WAVE: seq<u8> := [0x57, 0x41, 0x56, 0x45]
  const FMT: seq<u8> := [0x66, 0x6d, 0x74, 0x20]
  const DATA: seq<u8> := [0x64, 0x61, 0x74, 0x61]

  datatype Format = Format(channels: u16, sampleRate: u32, bitsPerSample: u16, maxFileSize: u32) {
    function BytesPerFrame(): u16 {
      Wrap16(channels * ((bitsPerSample + 7) / 8))
    }

    function ByteRate(): u32 {
      Wrap32(sampleRate * BytesPerFrame())
    }

    /** What opening a file checks. */
    predicate Accepted() {
      channels != 0 && sampleRate != 0 && bitsPerSample != 0 && maxFileSize >= HEADER_SIZE
    }

    /** Accepted, and a frame size that does not wrap to zero (it is divided by). */
    predicate Usable() {
      Accepted() && BytesPerFrame() != 0
    }

    function MaxDataSize(): u32
      requires Usable()
    {
      RoundDown(maxFileSize - HEADER_SIZE, BytesPerFrame())
    }
  }

  /** The 44 bytes in front of the payload, for a given size of the data chunk. */
  function Header(f: Format, dataSize: u32): (h: seq<u8>)
    ensures |h| == HEADER_SIZE
  {
    RIFF + Le32(Wrap32(dataSize + HEADER_SIZE - 8)) + WAVE +
    FMT + Le32(16) + Le16(1) + Le16(f.channels) + Le32(f.sampleRate) + Le32(f.ByteRate()) +
    Le16(f.BytesPerFrame()) + Le16(f.bitsPerSample) +
    DATA + Le32(dataSize)
  }

  /** The header of a stereo 16-bit recording of one frame. */
  lemma HeaderOfOneFrame()
    ensures Header(Format(2, 48_000, 16, 0x7fff_ffff), 4) ==
            [0x52, 0x49, 0x46, 0x46] + [40, 0, 0, 0] + [0x57, 0x41, 0x56, 0x45] +
            [0x66, 0x6d, 0x74, 0x20] + [16, 0, 0, 0] + [1, 0] + [2, 0] + [0x80, 0xbb, 0, 0] + [0, 0xee, 2, 0] +
            [4, 0] + [16, 0] + [0x64, 0x61, 0x74, 0x61] + [4, 0, 0, 0]
  {
    var f := Format(2, 48_000, 16, 0x7fff_ffff);
    assert f.BytesPerFrame() == 4 && f.ByteRate() == 192_000;
    assert Wrap32(4 + HEADER_SIZE - 8) == 40;
    BytesOfOneFrame();
    hide Le16, Le32, Wrap32, Format.BytesPerFrame, Format.ByteRate;
  }

  lemma BytesOfOneFrame()
    ensures Le32(48_000) == [0x80, 0xbb, 0, 0] && Le32(192_000) == [0, 0xee, 2, 0]
    ensures Le32(40) == [40, 0, 0, 0] && Le32(16) == [16, 0, 0, 0] && Le32(4) == [4, 0, 0, 0]
    ensures Le16(1) == [1, 0] && Le16(2) == [2, 0] && Le16(4) == [4, 0] && Le16(16) == [16, 0]
  {
  }

  /** Samples take whole bytes; the frame size and the byte rate are exact while they fit their words. */
  lemma FrameSizes(f: Format, bytes: nat)
    requires 8 * bytes - 8 < f.bitsPerSample as int <= 8 * bytes
    ensures f.channels * bytes < TWO_16 ==> f.BytesPerFrame() == f.channels * bytes
    ensures f.channels * bytes < TWO_16 && f.sampleRate * (f.channels * bytes) < TWO_32 ==>
              f.ByteRate() == f.sampleRate * (f.channels * bytes)
  {
    assert (f.bitsPerSample + 7) / 8 == bytes;
  }

  /** The limit on the payload is the largest whole number of frames that fits the file. */
  lemma MaxDataSizeIsLargest(f: Format)
    requires f.Usable()
    ensures f.MaxDataSize() as int % f.BytesPerFrame() == 0
    ensures f.MaxDataSize() + 44 <= f.maxFileSize < f.MaxDataSize() + 44 + f.BytesPerFrame()
  {
    hide RoundDown, Format.BytesPerFrame;
  }

  // Reading a file back.

  datatype Info = Info(riffSize: u32, channels: u16, sampleRate: u32, byteRate: u32, blockAlign: u16,
                       bitsPerSample: u16, data: seq<u8>)

  function Word16(b: seq<u8>, i: nat): u16
    requires i + 2 <= |b|
  {
    FromLe16(b[i..i + 2])
  }

  function Word32(b: seq<u8>, i: nat): u32
    requires i + 4 <= |b|
  {
    FromLe32(b[i..i + 4])
  }

  predicate Tagged(b: seq<u8>, i: nat, tag: seq<u8>)
    requires i + 4 <= |b|
  {
    b[i..i + 4] == tag
  }

  /** A PCM file with one format chunk followed by one data chunk. */
  function Parse(b: seq<u8>): Option<Info> {
    if |b| < HEADER_SIZE || !Tagged(b, 0, RIFF) || !Tagged(b, 8, WAVE)
       || !Tagged(b, 12, FMT) || Word32(b, 16) != 16 || Word16(b, 20) != 1 || !Tagged(b, 36, DATA)
    then None
    else
      var size := Word32(b, 40) as nat;
      if HEADER_SIZE + size > |b| then None
      else Some(Info(Word32(b, 4), Word16(b, 22), Word32(b, 24), Word32(b, 28), Word16(b, 32), Word16(b, 34),
                     b[HEADER_SIZE..HEADER_SIZE + size]))
  }

  lemma HeaderSlices(f: Format, dataSize: u32, b: seq<u8>)
    requires |b| >= HEADER_SIZE && b[..HEADER_SIZE] == Header(f, dataSize)
    ensures b[0..4] == RIFF && b[4..8] == Le32(Wrap32(dataSize + HEADER_SIZE - 8)) && b[8..12] == WAVE
    ensures b[12..16] == FMT && b[16..20] == Le32(16) && b[20..22] == Le16(1)
    ensures b[22..24] == Le16(f.channels) && b[24..28] == Le32(f.sampleRate)
    ensures b[28..32] == Le32(f.ByteRate()) && b[32..34] == Le16(f.BytesPerFrame())
    ensures b[34..36] == Le16(f.bitsPerSample) && b[36..40] == DATA && b[40..44] == Le32(dataSize)
  {
    hide Le32, Le16;
    var h := b[..HEADER_SIZE];
    assert forall i, j | 0 <= i <= j <= HEADER_SIZE :: b[i..j] == h[i..j];
  }

  lemma HeaderTags(f: Format, dataSize: u32, b: seq<u8>)
    requires |b| >= HEADER_SIZE && b[..HEADER_SIZE] == Header(f, dataSize)
    ensures Tagged(b, 0, RIFF) && Tagged(b, 8, WAVE) && Tagged(b, 12, FMT) && Tagged(b, 36, DATA)
  {
    HeaderSlices(f, dataSize, b);
    hide Header, Le32, Le16;
  }

  lemma HeaderWords(f: Format, dataSize: u32, b: seq<u8>)
    requires |b| >= HEADER_SIZE && b[..HEADER_SIZE] == Header(f, dataSize)
    ensures Word32(b, 4) == Wrap32(dataSize + HEADER_SIZE - 8) && Word32(b, 16) == 16 && Word16(b, 20) == 1
    ensures Word16(b, 22) == f.channels && Word32(b, 24) == f.sampleRate && Word32(b, 28) == f.ByteRate()
    ensures Word16(b, 32) == f.BytesPerFrame() && Word16(b, 34) == f.bitsPerSample && Word32(b, 40) == dataSize
  {
    HeaderSlices(f, dataSize, b);
    hide Header, Le32, Le16, FromLe32, FromLe16, Format.ByteRate, Format.BytesPerFrame, Wrap32;
    Le32RoundTrip(Wrap32(dataSize + HEADER_SIZE - 8));
    Le32RoundTrip(dataSize);
    Le32RoundTrip(16);
    Le16RoundTrip(1);
    Le16RoundTrip(f.channels);
    Le32RoundTrip(f.sampleRate);
    Le32RoundTrip(f.ByteRate());
    Le16RoundTrip(f.BytesPerFrame());
    Le16RoundTrip(f.bitsPerSample);
  }

  /** The payload in whole frames. */
  function WholeFrames(payload: seq<u8>, align: nat): seq<u8>
    requires align > 0
  {
    payload[..RoundDown(|payload|, align)]
  }

  /** A finished file reads back as the format it was opened with and its payload in whole frames. */
  lemma ParseFinished(f: Format, payload: seq<u8>)
    requires f.Usable() && |payload| <= f.MaxDataSize()
    ensures var size := RoundDown(|payload|, f.BytesPerFrame());
            Parse(Header(f, size) + payload) ==
            Some(Info(size + 36, f.channels, f.sampleRate, f.ByteRate(), f.BytesPerFrame(), f.bitsPerSample,
                      WholeFrames(payload, f.BytesPerFrame())))
  {
    var size: u32 := RoundDown(|payload|, f.BytesPerFrame());
    var b := Header(f, size) + payload;
    assert b[..HEADER_SIZE] == Header(f, size) && b[HEADER_SIZE..HEADER_SIZE + size] == payload[..size];
    hide Header, Parse;
    ParseHeaded(f, size, b);
  }

  lemma ParseHeaded(f: Format, size: u32, b: seq<u8>)
    requires HEADER_SIZE + size <= |b| && size + 36 < TWO_32 && b[..HEADER_SIZE] == Header(f, size)
    ensures Parse(b) ==
            Some(Info(size + 36, f.channels, f.sampleRate, f.ByteRate(), f.BytesPerFrame(), f.bitsPerSample,
                      b[HEADER_SIZE..HEADER_SIZE + size]))
  {
    hide Header, Parse, Tagged, Word16, Word32, Format.ByteRate, Format.BytesPerFrame;
    assert Wrap32(size + HEADER_SIZE - 8) == size + 36;
    HeaderTags(f, size, b);
    HeaderWords(f, size, b);
    hide *;
    ParseFields(b, Info(size + 36, f.channels, f.sampleRate, f.ByteRate(), f.BytesPerFrame(), f.bitsPerSample,
                        b[HEADER_SIZE..HEADER_SIZE + size]));
  }

  lemma ParseFields(b: seq<u8>, info: Info)
    requires |b| >= HEADER_SIZE && Tagged(b, 0, RIFF) && Tagged(b, 8, WAVE)
    requires Tagged(b, 12, FMT) && Word32(b, 16) == 16 && Word16(b, 20) == 1 && Tagged(b, 36, DATA)
    requires HEADER_SIZE + Word32(b, 40) <= |b|
    requires info.riffSize == Word32(b, 4) && info.channels == Word16(b, 22) && info.sampleRate == Word32(b, 24)
    requires info.byteRate == Word32(b, 28) && info.blockAlign == Word16(b, 32)
    requires info.bitsPerSample == Word16(b, 34) && info.data == b[HEADER_SIZE..HEADER_SIZE + Word32(b, 40)]
    ensures Parse(b) == Some(info)
  {
    hide Tagged, Word16, Word32;
  }

  // Writing.

  function Overwrite(bytes: seq<u8>, pos: nat, data: seq<u8>): (r: seq<u8>)
    requires pos <= |bytes|
    ensures |r| == if pos + |data| < |bytes| then |bytes| else pos + |data|
  {
    bytes[..pos] + data + (if pos + |data| < |bytes| then bytes[pos + |data|..] else [])
  }

  /** How much of a write the size limit admits; the sum is a 32-bit word. */
  function Admitted(dataSize: u32, maxDataSize: u32, len: u32): (n: nat)
    requires dataSize <= maxDataSize
    ensures n <= len
  {
    if Wrap32(dataSize + len) > maxDataSize then maxDataSize - dataSize else len
  }

  /** The limit holds exactly when the sum does not wrap, and then as much as fits is written. */
  lemma AdmittedWithinLimit(dataSize: u32, maxDataSize: u32, len: u32)
    requires dataSize <= maxDataSize
    ensures dataSize + Admitted(dataSize, maxDataSize, len) <= maxDataSize <==> dataSize + len < TWO_32
    ensures dataSize + len < TWO_32 ==>
              (Admitted(dataSize, maxDataSize, len) == len <==> dataSize + len <= maxDataSize)
    ensures maxDataSize < dataSize + len < TWO_32 ==> dataSize + Admitted(dataSize, maxDataSize, len) == maxDataSize
  {
  }

  lemma RecordedSize(dataSize: u32, maxDataSize: u32, len: u32)
    requires dataSize <= maxDataSize
    ensures var n := Admitted(dataSize, maxDataSize, len);
            Wrap32(dataSize + n) == dataSize + n <= maxDataSize <==> dataSize + len < TWO_32
  {
  }

  lemma OverwriteMiddle(before: seq<u8>, mid: seq<u8>, after: seq<u8>, data: seq<u8>)
    requires |mid| == |data|
    ensures Overwrite(before + (mid + after), |before|, data) == before + (data + after)
  {
    var b := before + (mid + after);
    assert b[..|before|] == before;
    assert |after| > 0 ==> b[|before| + |data|..] == after;
  }

  lemma PatchHeader(f: Format, was: u32, dataSize: u32, payload: seq<u8>)
    ensures var riff := Le32(Wrap32(dataSize + HEADER_SIZE - 8));
            var once := Overwrite(Header(f, was) + payload, CHUNK_SIZE_OFFSET, riff);
            Overwrite(once, SUBCHUNK_2_SIZE_OFFSET, Le32(dataSize)) == Header(f, dataSize) + payload
  {
    var r, riff := Le32(Wrap32(was + HEADER_SIZE - 8)), Le32(Wrap32(dataSize + HEADER_SIZE - 8));
    var d, size := Le32(was), Le32(dataSize);
    var middle := WAVE + FMT + Le32(16) + Le16(1) + Le16(f.channels) + Le32(f.sampleRate) + Le32(f.ByteRate()) +
                  Le16(f.BytesPerFrame()) + Le16(f.bitsPerSample) + DATA;
    HeaderShape(f, was, middle);
    HeaderShape(f, dataSize, middle);
    hide *;
    PatchTwice(RIFF, r, riff, middle, d, size, payload);
  }

  lemma PatchTwice(a: seq<u8>, r: seq<u8>, r': seq<u8>, m: seq<u8>, d: seq<u8>, d': seq<u8>, p: seq<u8>)
    requires |r| == |r'| && |d| == |d'|
    ensures var once := Overwrite(a + r + m + d + p, |a|, r');
            Overwrite(once, |a| + |r| + |m|, d') == a + r' + m + d' + p
  {
    hide Overwrite;
    assert a + r + m + d + p == a + (r + (m + d + p));
    OverwriteMiddle(a, r, m + d + p, r');
    assert a + (r' + (m + d + p)) == (a + r' + m) + (d + p);
    OverwriteMiddle(a + r' + m, d, p, d');
    assert (a + r' + m) + (d' + p) == a + r' + m + d' + p;
  }

  lemma HeaderShape(f: Format, dataSize: u32, middle: seq<u8>)
    requires middle == WAVE + FMT + Le32(16) + Le16(1) + Le16(f.channels) + Le32(f.sampleRate) + Le32(f.ByteRate()) +
                       Le16(f.BytesPerFrame()) + Le16(f.bitsPerSample) + DATA
    ensures |middle| == 32
    ensures Header(f, dataSize) == RIFF + Le32(Wrap32(dataSize + HEADER_SIZE - 8)) + middle + Le32(dataSize)
  {
    hide Le32, Le16;
  }

  lemma StillHeaded(bytes: seq<u8>, more: seq<u8>)
    requires |bytes| >= HEADER_SIZE
    ensures var after := bytes + more;
            && after[..HEADER_SIZE] == bytes[..HEADER_SIZE] && after[HEADER_SIZE..] == bytes[HEADER_SIZE..] + more
            && Word32(after, SUBCHUNK_2_SIZE_OFFSET) == Word32(bytes, SUBCHUNK_2_SIZE_OFFSET)
  {
    var after := bytes + more;
    assert after[..HEADER_SIZE] == bytes[..HEADER_SIZE];
    assert after[40..44] == bytes[40..44];
  }

  /** An open file, the write cursor in it, and the bookkeeping of the data chunk. */
  class WavFile {
    const name: string
    const fmt: Format
    var bytes: seq<u8>
    var pos: nat
    var isOpen: bool
    var bytesPerFrame: u16
    var maxDataSize: u32
    var dataSize: u32

    function Payload(): seq<u8>
      reads this
    {
      if |bytes| < HEADER_SIZE then [] else bytes[HEADER_SIZE..]
    }

    /** Behind a header for some data size there is the payload, of the recorded size and within the
        limit. */
    ghost predicate Valid()
      reads this
    {
      && fmt.Usable() && bytesPerFrame == fmt.BytesPerFrame() && maxDataSize == fmt.MaxDataSize()
      && dataSize <= maxDataSize && |bytes| == HEADER_SIZE + dataSize
      && bytes[..HEADER_SIZE] == Header(fmt, SizeField())
    }

    ghost predicate Appending()
      reads this
    {
      Valid() && isOpen && pos == |bytes|
    }

    ghost function SizeField(): u32
      reads this
      requires |bytes| >= HEADER_SIZE
    {
      Word32(bytes, SUBCHUNK_2_SIZE_OFFSET)
    }

    /** Creates the file, or truncates it, and writes a header that claims the largest size. */
    constructor Open(name: string, fmt: Format)
      requires fmt.Usable()
      ensures Appending() && this.name == name && this.fmt == fmt
      ensures Payload() == [] && dataSize == 0 && bytes == Header(fmt, fmt.MaxDataSize())
    {
      this.name, this.fmt := name, fmt;
      isOpen := true;
      bytesPerFrame := fmt.BytesPerFrame();
      maxDataSize := fmt.MaxDataSize();
      dataSize := 0;
      bytes, pos := [], 0;
      new;
      WriteHeader();
      HeaderWords(fmt, maxDataSize, bytes);
    }

    method FsWrite(data: seq<u8>)
      requires pos <= |bytes|
      modifies `bytes, `pos
      ensures bytes == Overwrite(old(bytes), old(pos), data) && pos == old(pos) + |data|
    {
      bytes := Overwrite(bytes, pos, data);
      pos := pos + |data|;
    }

    method Append(data: seq<u8>)
      requires pos == |bytes|
      modifies `bytes, `pos
      ensures bytes == old(bytes) + data && pos == |bytes|
    {
      FsWrite(data);
      assert old(bytes)[..old(pos)] == old(bytes);
    }

    method WriteHeader()
      requires bytes == [] && pos == 0
      requires fmt.Usable() && bytesPerFrame == fmt.BytesPerFrame() && maxDataSize == fmt.MaxDataSize()
      modifies `bytes, `pos
      ensures bytes == Header(fmt, maxDataSize) && pos == |bytes|
    {
      hide Le32, Le16, Format.Usable, Format.MaxDataSize, Format.ByteRate, Format.BytesPerFrame, Wrap32;
      Append(RIFF);
      assert bytes == RIFF;
      Append(Le32(Wrap32(maxDataSize + HEADER_SIZE - 8)));
      Append(WAVE);
      WriteFormat();
      Append(DATA);
      Append(Le32(maxDataSize));
    }

    method WriteFormat()
      requires pos == |bytes| && bytesPerFrame == fmt.BytesPerFrame()
      modifies `bytes, `pos
      ensures bytes == old(bytes) + FMT + Le32(16) + Le16(1) + Le16(fmt.channels) + Le32(fmt.sampleRate) +
                       Le32(fmt.ByteRate()) + Le16(fmt.BytesPerFrame()) + Le16(fmt.bitsPerSample)
      ensures pos == |bytes|
    {
      hide Le32, Le16, Format.ByteRate, Format.BytesPerFrame;
      Append(FMT);
      Append(Le32(16));
      Append(Le16(1));
      Append(Le16(fmt.channels));
      Append(Le32(fmt.sampleRate));
      Append(Le32(fmt.ByteRate()));
      Append(Le16(bytesPerFrame));
      Append(Le16(fmt.bitsPerSample));
    }

    /** Appends as much as the limit admits. If the 32-bit sum of the sizes wraps, everything is
        appended, past the limit, and the file is no longer well-formed; otherwise it stays so. */
    method Write(buf: seq<u8>) returns (written: nat)
      requires Appending() && |buf| < TWO_32
      modifies `bytes, `pos, `dataSize
      ensures written == Admitted(old(dataSize), maxDataSize, |buf|)
      ensures bytes == old(bytes) + buf[..written] && pos == |bytes| && isOpen
      ensures Payload() == old(Payload()) + buf[..written]
      ensures Appending() <==> old(dataSize) + |buf| < TWO_32
    {
      RecordedSize(dataSize, maxDataSize, |buf|);
      var len := |buf|;
      if Wrap32(dataSize + len) > maxDataSize {
        len := maxDataSize - dataSize;
      }
      assert len == Admitted(dataSize, maxDataSize, |buf|);
      StillHeaded(bytes, buf[..len]);
      hide Header, Admitted, Wrap32, Word32, Format.Usable, Format.MaxDataSize, Format.BytesPerFrame;
      Append(buf[..len]);
      dataSize := Wrap32(dataSize + len);
      written := len;
    }

    /** Patches the two sizes, whole frames only, and returns to the end. */
    method UpdateSize()
      requires Valid()
      modifies `bytes, `pos
      ensures Valid() && pos == |bytes| && Payload() == old(Payload())
      ensures bytes == Header(fmt, RoundDown(dataSize, bytesPerFrame)) + Payload()
    {
      var size: u32 := RoundDown(dataSize, bytesPerFrame);
      PatchHeader(fmt, SizeField(), size, Payload());
      assert bytes == bytes[..HEADER_SIZE] + Payload();
      pos := CHUNK_SIZE_OFFSET;
      FsWrite(Le32(Wrap32(size + HEADER_SIZE - 8)));
      pos := SUBCHUNK_2_SIZE_OFFSET;
      FsWrite(Le32(size));
      pos := |bytes|;
      assert bytes[..HEADER_SIZE] == Header(fmt, size);
      HeaderWords(fmt, size, bytes);
    }

    /** A closed file parses back, holds every byte written in whole frames, and respects the limit. */
    method Close()
      requires Valid()
      modifies `bytes, `pos, `isOpen
      ensures Valid() && !isOpen && Payload() == old(Payload()) && |bytes| <= fmt.maxFileSize
      ensures var size := RoundDown(|Payload()|, fmt.BytesPerFrame());
              Parse(bytes) ==
              Some(Info(size + 36, fmt.channels, fmt.sampleRate, fmt.ByteRate(), fmt.BytesPerFrame(),
                        fmt.bitsPerSample, WholeFrames(Payload(), fmt.BytesPerFrame())))
    {
      hide Header, Parse, WholeFrames, Format.ByteRate;
      UpdateSize();
      isOpen := false;
      ParseFinished(fmt, Payload());
    }
  }

  /** The recording directory: the names in it, the files opened in it since start-up, in order, and
      how many of those opens truncated a file that was already there. */
  class Directory {
    var names: seq<string>
    var files: seq<WavFile>
    var truncations: nat

    constructor (names: seq<string>)
      ensures this.names == names && files == [] && truncations == 0
    {
      this.names, files, truncations := names, [], 0;
    }

    /** Opens for writing: creates the file, or truncates it if it is there. */
    method Create(name: string)
      modifies `names, `truncations
      ensures names == if name in old(names) then old(names) else old(names) + [name]
      ensures truncations == old(truncations) + if name in old(names) then 1 else 0
    {
      if name in names {
        truncations := truncations + 1;
      } else {
        names := names + [name];
      }
    }
  }

  datatype OpenResult = Opened(file: WavFile) | InvalidFormat | DivisionByZero

  /** Opening as written: formats with a zero field or no room for the header are refused. A frame size
      that wraps to zero as a 16-bit word is divided by, after the file has been created. */
  method Open(dir: Directory, name: string, fmt: Format) returns (r: OpenResult)
    modifies dir
    ensures r.InvalidFormat? <==> !fmt.Accepted()
    ensures r.DivisionByZero? <==> fmt.Accepted() && fmt.BytesPerFrame() == 0
    ensures r.InvalidFormat? ==> dir.names == old(dir.names) && dir.truncations == old(dir.truncations)
    ensures !r.InvalidFormat? ==>
              && dir.names == (if name in old(dir.names) then old(dir.names) else old(dir.names) + [name])
              && dir.truncations == old(dir.truncations) + if name in old(dir.names) then 1 else 0
    ensures dir.files == old(dir.files) + if r.Opened? then [r.file] else []
    ensures r.Opened? ==> fresh(r.file) && r.file.Appending() && r.file.name == name && r.file.fmt == fmt
                          && r.file.Payload() == []
  {
    if fmt.channels == 0 {
      return InvalidFormat;
    }
    if fmt.sampleRate == 0 {
      return InvalidFormat;
    }
    if fmt.bitsPerSample == 0 {
      return InvalidFormat;
    }
    if fmt.maxFileSize < HEADER_SIZE {
      return InvalidFormat;
    }
    dir.Create(name);
    if fmt.BytesPerFrame() == 0 {
      return DivisionByZero;
    }
    var w := new WavFile.Open(name, fmt);
    dir.files := dir.files + [w];
    return Opened(w);
  }
}
