/** Whole sessions: start-up, any run of commands and blocks, and the thread that closes the files. */
module Recording {
  import opened Words
  import opened Wav
  import opened RecordBlock
  import opened RecordSpec
  import opened RecordAlign
  import FileIndex
  import R = Recorder

  ghost function PayloadsOf(files: seq<WavFile>): seq<seq<u8>>
    reads files
  {
    if files == [] then [] else PayloadsOf(files[..|files| - 1]) + [files[|files| - 1].Payload()]
  }

  lemma {:induction false} PayloadsAre(files: seq<WavFile>, parts: seq<seq<u8>>)
    requires |files| == |parts| && forall i | 0 <= i < |files| :: files[i].Payload() == parts[i]
    ensures PayloadsOf(files) == parts
  {
    if files != [] {
      var n := |files| - 1;
      PayloadsAre(files[..n], parts[..n]);
      assert parts == parts[..n] + [parts[n]];
    }
  }

  /** The files opened in the directory, in that order, hold the recorded stream. */
  lemma FilesHoldStream(r: R.Recorder)
    requires r.Valid()
    ensures Flatten(PayloadsOf(r.dir.files)) == r.Abstract().stream
  {
    hide WavFile.Payload, WavFile.Valid, WavFile.Appending, Format.Usable, R.NamesOk, R.Numbered, Flatten, PayloadsOf;
    if r.file == null {
      assert r.dir.files == r.closeQueue;
      PayloadsAre(r.dir.files, r.payloads);
      assert Flatten(r.payloads) + [] == Flatten(r.payloads);
    } else {
      PayloadsAre(r.dir.files, r.payloads + [r.file.Payload()]);
      FlattenAppend(r.payloads, r.file.Payload());
    }
  }

  method Dispatch(r: R.Recorder, e: Event)
    requires r.Valid() && r.isInit && (e.Audio? ==> e.block.WellFormed() && |e.block.buf| <= r.fmt.MaxDataSize())
    modifies r, r.file, r.dir
    ensures r.Valid() && r.isInit && r.Abstract() == Apply(old(r.Abstract()), e)
    ensures r.View() == Advance(r.fmt.MaxDataSize(), old(r.View()), e)
    ensures r.file == null || r.file == old(r.file) || fresh(r.file)
    ensures forall f | f in r.dir.files :: f in old(r.dir.files) || fresh(f)
  {
    hide R.Recorder.FileOk, R.Recorder.QueueOk, R.Recorder.LedgerOk, R.Recorder.Current,
      Feed, Halt, Request, Block.WellFormed, Record, Halted, Armed, Format.MaxDataSize;
    match e {
      case StartCmd(time) => var _ := r.Start(time, true);
      case StopCmd => var _ := r.Stop();
      case Audio(block) => var _ := r.Buffer(block);
    }
  }

  method RunEvents(r: R.Recorder, events: seq<Event>)
    requires r.Valid() && r.isInit && WellFormedRun(events)
    requires forall i | 0 <= i < |events| && events[i].Audio? :: |events[i].block.buf| <= r.fmt.MaxDataSize()
    modifies r, r.file, r.dir
    ensures r.Valid() && r.isInit && r.Abstract() == Replay(old(r.Abstract()), events)
    ensures r.View() == Film(r.fmt.MaxDataSize(), old(r.View()), events)
    ensures forall f | f in r.dir.files :: f in old(r.dir.files) || fresh(f)
  {
    hide R.Recorder.Valid, R.Recorder.Abstract, R.Recorder.View, Apply, Advance, Proper, Block.WellFormed,
      Format.MaxDataSize, Format.Usable;
    r.ViewIsProper();
    ghost var max := r.fmt.MaxDataSize();
    var i := 0;
    while i < |events|
      invariant i <= |events| && r.Valid() && r.isInit
      invariant r.file == null || r.file == old(r.file) || fresh(r.file)
      invariant r.Abstract() == Replay(old(r.Abstract()), events[..i])
      invariant r.View() == Film(max, old(r.View()), events[..i])
      invariant forall f | f in r.dir.files :: f in old(r.dir.files) || fresh(f)
    {
      assert events[..i + 1][..i] == events[..i];
      Dispatch(r, events[i]);
      i := i + 1;
    }
    assert events[..|events|] == events;
  }

  /** Over any run of commands and blocks that each fit a file, the recorder refines the references;
      the files opened hold the stream; whenever it is stopped, every file opened has been handed over
      once, in order; and the opens have truncated exactly the files whose numbers were taken. */
  method Drive(r: R.Recorder, events: seq<Event>)
    requires r.Valid() && r.isInit && WellFormedRun(events)
    requires forall i | 0 <= i < |events| && events[i].Audio? :: |events[i].block.buf| <= r.fmt.MaxDataSize()
    modifies r, r.file, r.dir
    ensures r.Valid() && r.isInit && r.Abstract() == Replay(old(r.Abstract()), events)
    ensures r.View() == Film(r.fmt.MaxDataSize(), old(r.View()), events)
    ensures r.Abstract().stream == Flatten(PayloadsOf(r.dir.files))
    ensures r.state == Stopped ==> r.closeQueue == r.dir.files
    ensures r.dir.truncations == FileIndex.Truncated(r.prefix, r.initial, r.firstIndex, |r.dir.files|)
    ensures FileIndex.FreeFrom(r.prefix, r.initial, r.firstIndex) && r.firstIndex + |r.dir.files| <= TWO_32 ==>
              r.dir.truncations == 0
    ensures forall f | f in r.dir.files :: f in old(r.dir.files) || fresh(f)
  {
    RunEvents(r, events);
    FilesHoldStream(r);
    FileIndex.NeverTruncatesIff(r.prefix, r.initial, r.firstIndex);
    hide Replay, Film, Flatten, PayloadsOf, R.Recorder.FileOk, R.Recorder.QueueOk, FileIndex.Truncated,
      FileIndex.FreeFrom, FileIndex.NamesAfter, Format.MaxDataSize;
  }

  /** Start-up: scans the directory, and goes on with the number the scan leaves even if it failed. */
  method Boot(fmt: Format, prefix: string, dir: Directory)
      returns (r: R.Recorder, scan: FileIndex.Scan, ghost scanned: nat)
    requires fmt.Usable() && fmt.maxFileSize < TWO_31 && dir.files == [] && dir.truncations == 0
    ensures r.Valid() && r.isInit && r.dir == dir && r.fmt == fmt && r.prefix == prefix && r.Abstract() == Session(Idle, [])
    ensures r.initial == dir.names == old(dir.names) && fresh(r)
    ensures scan == FileIndex.NoDirectory ==> r.firstIndex == 0
    ensures scanned <= |dir.names|
    ensures scan != FileIndex.NoDirectory ==> FileIndex.IsNextIndex(prefix, dir.names[..scanned], r.firstIndex)
    ensures scan == FileIndex.Complete ==> scanned == |dir.names| && FileIndex.FreeFrom(prefix, r.initial, r.firstIndex)
    ensures scan == FileIndex.OutOfIndices ==>
              scanned < |dir.names| && FileIndex.Classify(prefix, dir.names[scanned]) == FileIndex.OutOfRange
    ensures scan != FileIndex.NoDirectory ==>
              (FileIndex.FreeFrom(prefix, r.initial, r.firstIndex) <==>
               FileIndex.FreeFrom(prefix, dir.names[scanned..], r.firstIndex))
  {
    hide FileIndex.IsNextIndex, FileIndex.FreeFrom, FileIndex.Classify, Format.Usable;
    var index;
    scan, index, scanned := FileIndex.FindNextFileIndex(prefix, dir.names, 0);
    if scan != FileIndex.NoDirectory {
      FileIndex.StoppedScanIsSafeIff(prefix, dir.names, scanned, index);
    }
    if scan == FileIndex.Complete {
      FileIndex.NextIndexIsFree(prefix, dir.names, index);
    }
    r := new R.Recorder(fmt, prefix, dir, index);
  }

  /** Closed, within the limit, and readable: the data chunk is the payload in whole frames. */
  ghost predicate IsFinished(f: WavFile)
    reads f
  {
    && !f.isOpen && f.fmt.Usable() && |f.bytes| <= f.fmt.maxFileSize
    && Parse(f.bytes).Some? && Parse(f.bytes).value.data == WholeFrames(f.Payload(), f.fmt.BytesPerFrame())
  }

  method CloseOne(f: WavFile)
    requires f.Valid()
    modifies f
    ensures IsFinished(f) && f.Payload() == old(f.Payload())
  {
    hide WavFile.Payload, Parse, WholeFrames, Format.BytesPerFrame, Format.MaxDataSize;
    f.Close();
  }

  // The closing thread.

  /** Closes files that have been handed over. */
  method CloseAll(files: seq<WavFile>)
    requires forall i, j | 0 <= i < j < |files| :: files[i] != files[j]
    requires forall i | 0 <= i < |files| :: files[i].Valid()
    modifies files
    ensures forall i | 0 <= i < |files| :: IsFinished(files[i]) && files[i].Payload() == old(files[i].Payload())
  {
    hide WavFile.Valid, WavFile.Payload, IsFinished;
    var i := 0;
    while i < |files|
      invariant i <= |files|
      invariant forall k | i <= k < |files| :: files[k].Valid()
      invariant forall k | 0 <= k < |files| :: files[k].Payload() == old(files[k].Payload())
      invariant forall k | 0 <= k < i :: IsFinished(files[k])
    {
      CloseOne(files[i]);
      i := i + 1;
    }
  }

  ghost function DataOf(files: seq<WavFile>): seq<seq<u8>>
    reads files
  {
    if files == [] then []
    else
      var last := Parse(files[|files| - 1].bytes);
      DataOf(files[..|files| - 1]) + [if last.Some? then last.value.data else []]
  }

  lemma {:induction false} DataIsWhole(files: seq<WavFile>, parts: seq<seq<u8>>, align: nat)
    requires align > 0 && |files| == |parts|
    requires forall i | 0 <= i < |files| ::
               IsFinished(files[i]) && files[i].fmt.BytesPerFrame() == align && files[i].Payload() == parts[i]
    ensures DataOf(files) == AllWhole(parts, align)
  {
    if files != [] {
      var n := |files| - 1;
      DataIsWhole(files[..n], parts[..n], align);
      assert IsFinished(files[n]);
      hide WholeFrames, WavFile.Payload, Parse, Format.BytesPerFrame;
    }
  }

  lemma StartedEmpty(r: R.Recorder)
    requires r.Valid() && r.dir.files == [] && r.state == Stopped
    ensures r.fmt.Usable() && r.fmt.BytesPerFrame() > 0 && TapeAligned(r.View(), r.fmt.BytesPerFrame())
    ensures r.fmt.MaxDataSize() as int % r.fmt.BytesPerFrame() == 0
  {
    assert r.payloads == [];
    MaxIsAligned(r.fmt);
    hide Format.MaxDataSize, Format.BytesPerFrame;
  }

  lemma DoneIsAligned(t: Tape, align: nat)
    requires align > 0 && TapeAligned(t, align)
    ensures Aligned(t.done, align)
  {
  }

  lemma StoppedFiles(r: R.Recorder)
    requires r.Valid() && r.state == Stopped
    ensures r.closeQueue == r.dir.files && R.Handed(r.closeQueue, r.payloads, r.fmt) && r.fmt.Usable()
    ensures forall i | 0 <= i < |r.closeQueue| :: r.closeQueue[i] in r.dir.files
    ensures r.View().done == r.payloads && r.Abstract().stream == Flatten(r.payloads)
  {
    hide R.Handed;
    assert Flatten(r.payloads) + [] == Flatten(r.payloads);
  }

  /** What closing the files handed over makes readable. */
  method CloseHanded(files: seq<WavFile>, ghost parts: seq<seq<u8>>, ghost fmt: Format)
    requires R.Handed(files, parts, fmt) && fmt.Usable()
    modifies files
    ensures forall i | 0 <= i < |files| :: IsFinished(files[i])
    ensures PayloadsOf(files) == parts
    ensures Flatten(DataOf(files)) == Flatten(parts) <==> Aligned(parts, fmt.BytesPerFrame())
  {
    hide WavFile.Valid, WavFile.Payload, IsFinished, Aligned, Flatten, PayloadsOf, DataOf, AllWhole, Format.BytesPerFrame;
    CloseAll(files);
    PayloadsAre(files, parts);
    DataIsWhole(files, parts, fmt.BytesPerFrame());
    NothingClippedIff(parts, fmt.BytesPerFrame());
  }

  /** A run and a stop: all files opened have been handed over and hold the reference stream. */
  method RecordAndStop(r: R.Recorder, events: seq<Event>)
    requires r.Valid() && r.isInit && r.dir.files == [] && r.state == Stopped && WellFormedRun(events)
    requires forall i | 0 <= i < |events| && events[i].Audio? :: |events[i].block.buf| <= r.fmt.MaxDataSize()
    modifies r, r.file, r.dir
    ensures r.closeQueue == r.dir.files && R.Handed(r.closeQueue, r.payloads, r.fmt) && r.fmt.Usable()
    ensures Flatten(r.payloads) == Replay(old(r.Abstract()), events).stream
    ensures BlocksAligned(events, r.fmt.BytesPerFrame()) ==> Aligned(r.payloads, r.fmt.BytesPerFrame())
    ensures forall i | 0 <= i < |r.closeQueue| :: fresh(r.closeQueue[i])
  {
    hide R.Recorder.Valid, R.Recorder.View, R.Recorder.Abstract, Aligned, TapeAligned, BlocksAligned, Film, Replay,
      Halted, Flatten, PayloadsOf, R.Handed, Proper, FileIndex.FreeFrom, FileIndex.Truncated,
      Format.MaxDataSize, Format.BytesPerFrame, Format.Usable, Block.WellFormed;
    StartedEmpty(r);
    SessionKeepsAligned(r.fmt.MaxDataSize(), r.View(), events, r.fmt.BytesPerFrame());
    Drive(r, events);
    var _ := r.Stop();
    StoppedFiles(r);
    if BlocksAligned(events, r.fmt.BytesPerFrame()) {
      DoneIsAligned(r.View(), r.fmt.BytesPerFrame());
    }
  }

  /** A whole session from start-up: any run of commands and blocks that each fit a file, a stop, and the
      closing thread. Every file opened is closed and reads back; their payloads are the reference
      stream; and what reads back is the whole stream if and only if every file was cut at a frame,
      which it is when the frame size of every block is a multiple of the file's. */
  method RecordAndClose(r: R.Recorder, events: seq<Event>)
    requires r.Valid() && r.isInit && r.dir.files == [] && r.state == Stopped && WellFormedRun(events)
    requires forall i | 0 <= i < |events| && events[i].Audio? :: |events[i].block.buf| <= r.fmt.MaxDataSize()
    modifies r, r.file, r.dir
    ensures forall i | 0 <= i < |r.dir.files| :: IsFinished(r.dir.files[i])
    ensures Flatten(PayloadsOf(r.dir.files)) == Replay(old(r.Abstract()), events).stream
    ensures Flatten(DataOf(r.dir.files)) == Replay(old(r.Abstract()), events).stream <==>
            Aligned(PayloadsOf(r.dir.files), r.fmt.BytesPerFrame())
    ensures BlocksAligned(events, r.fmt.BytesPerFrame()) ==> Aligned(PayloadsOf(r.dir.files), r.fmt.BytesPerFrame())
  {
    hide R.Recorder.Valid, R.Recorder.Abstract, Aligned, BlocksAligned, Replay, Flatten, PayloadsOf, R.Handed, IsFinished, DataOf,
      Format.MaxDataSize, Format.BytesPerFrame, Block.WellFormed;
    RecordAndStop(r, events);
    CloseHanded(r.closeQueue, r.payloads, r.fmt);
  }
}
