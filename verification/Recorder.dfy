/** The recorder: a four-state machine that cuts a stream of audio blocks into WAV files at requested
    times and at the size limit. The file system is assumed not to fail. */
module Recorder {
  import opened Words
  import opened RecordTiming
  import opened Wav
  import opened RecordBlock
  import opened RecordSpec
  import FileIndex

  /** The directory after `count` files with successive numbers have been opened in it. */
  ghost predicate NamesOk(prefix: string, initial: seq<string>, first: nat, dir: seq<string>, count: nat, truncations: nat) {
    && FileIndex.NamesAfter(prefix, initial, dir, first, count)
    && truncations == FileIndex.Truncated(prefix, initial, first, count)
  }

  /** The files have successive numbers. */
  ghost predicate Numbered(prefix: string, files: seq<WavFile>, first: nat) {
    forall k | 0 <= k < |files| :: files[k].name == FileIndex.FileName(prefix, Wrap32(first + k))
  }

  lemma NumberedMore(prefix: string, files: seq<WavFile>, first: nat, f: WavFile)
    requires Numbered(prefix, files, first) && f.name == FileIndex.FileName(prefix, Wrap32(first + |files|))
    ensures Numbered(prefix, files + [f], first)
  {
    hide FileIndex.FileName, Wrap32;
  }

  lemma NothingOpened(prefix: string, names: seq<string>, first: u32)
    ensures NamesOk(prefix, names, first, names, 0, 0) && Numbered(prefix, [], first)
  {
    hide FileIndex.FileName;
  }

  lemma NextName(prefix: string, initial: seq<string>, first: nat, names: seq<string>, count: nat, truncations: nat)
    requires NamesOk(prefix, initial, first, names, count, truncations)
    ensures var name := FileIndex.FileName(prefix, Wrap32(first + count));
            && (name in names <==> FileIndex.Taken(prefix, initial, first, first + count))
            && NamesOk(prefix, initial, first, if name in names then names else names + [name], count + 1,
                       truncations + if name in names then 1 else 0)
            && Wrap32(Wrap32(first + count) + 1) == Wrap32(first + (count + 1))
  {
    FileIndex.InDirectoryIffTaken(prefix, initial, names, first, count);
    FileIndex.NamesGrow(prefix, initial, names, first, count);
    WrapOfSum32(first + count, 1);
    hide FileIndex.FileName, FileIndex.NamesAfter, FileIndex.Taken, Wrap32;
  }

  lemma SizeLimit(f: Format)
    requires f.Usable()
    ensures f.MaxDataSize() + HEADER_SIZE <= f.maxFileSize
  {
  }

  /** No file is handed over twice; each is well-formed and holds the payload it was handed over with. */
  ghost predicate Handed(queue: seq<WavFile>, parts: seq<seq<u8>>, fmt: Format)
    reads queue
  {
    && (forall i, j | 0 <= i < j < |queue| :: queue[i] != queue[j])
    && |parts| == |queue|
    && forall i | 0 <= i < |queue| :: queue[i].Valid() && queue[i].fmt == fmt && queue[i].Payload() == parts[i]
  }

  lemma HandedNothing(fmt: Format)
    ensures Handed([], [], fmt)
  {
  }

  lemma HandedMore(queue: seq<WavFile>, parts: seq<seq<u8>>, fmt: Format, f: WavFile)
    requires Handed(queue, parts, fmt) && f !in queue && f.Valid() && f.fmt == fmt
    ensures Handed(queue + [f], parts + [f.Payload()], fmt)
  {
    hide WavFile.Valid, WavFile.Payload;
  }

  class Recorder {
    const fmt: Format
    const prefix: string
    const dir: Directory
    ghost const firstIndex: u32        // the file number at start-up
    ghost const initial: seq<string>  // the names in the directory then
    var isInit: bool
    var state: State
    var startTime: u32
    var fileIndex: u32
    var file: WavFile?             // the current file, while one is open
    var closeQueue: seq<WavFile>   // handed to the closing thread, in order
    ghost var payloads: seq<seq<u8>>  // of the files handed over

    ghost predicate FileOk()
      reads `file, `closeQueue, file
    {
      && fmt.Usable() && fmt.maxFileSize < TWO_31
      && (file != null ==> file.Appending() && file.fmt == fmt && file !in closeQueue)
    }

    /** Nothing is written to a file by the recorder after it has been handed over. */
    ghost predicate QueueOk()
      reads `closeQueue, `payloads, closeQueue
    {
      Handed(closeQueue, payloads, fmt)
    }

    /** Every file opened in the directory, in order, has been handed over or is the current one, and the
        opens have truncated exactly the files whose names were taken. */
    ghost predicate LedgerOk()
      reads `closeQueue, `file, `fileIndex, dir
    {
      && dir.files == closeQueue + (if file == null then [] else [file])
      && fileIndex == Wrap32(firstIndex + |dir.files|)
      && Numbered(prefix, dir.files, firstIndex)
      && NamesOk(prefix, initial, firstIndex, dir.names, |dir.files|, dir.truncations)
    }

    ghost predicate Valid()
      reads this, file, closeQueue, dir
    {
      FileOk() && QueueOk() && LedgerOk() && (file != null <==> state == WaitingNewFile || state == Running)
    }

    /** What the current file holds. */
    ghost function Current(): seq<u8>
      reads `file, file
    {
      if file == null then [] else file.Payload()
    }

    ghost function View(): Tape
      reads `state, `startTime, `payloads, `file, file
    {
      Tape(state, startTime, payloads, Current())
    }

    ghost function Abstract(): Session
      reads `state, `startTime, `payloads, `file, file
    {
      SessionOf(View())
    }

    lemma ViewIsProper()
      requires Valid()
      ensures Proper(View()) && fmt.Usable()
    {
      hide QueueOk, LedgerOk;
    }

    constructor (fmt: Format, prefix: string, dir: Directory, fileIndex: u32)
      requires fmt.Usable() && fmt.maxFileSize < TWO_31
      requires dir.files == [] && dir.truncations == 0
      ensures Valid() && Abstract() == Session(Idle, []) && isInit && closeQueue == []
      ensures this.fmt == fmt && this.prefix == prefix && this.dir == dir
      ensures this.fileIndex == firstIndex == fileIndex && initial == dir.names
    {
      hide NamesOk, Numbered, Handed, Format.Usable;
      NothingOpened(prefix, dir.names, fileIndex);
      HandedNothing(fmt);
      this.fmt, this.prefix, this.dir, this.fileIndex := fmt, prefix, dir, fileIndex;
      firstIndex, initial := fileIndex, dir.names;
      isInit, state, startTime, file := true, Stopped, 0, null;
      closeQueue, payloads := [], [];
    }

    /** A start command. `audioOk` is whether the audio input starts or is already running. */
    method Start(time: u32, audioOk: bool) returns (ok: bool)
      requires Valid()
      modifies `state, `startTime
      ensures Valid() && (ok <==> isInit && audioOk)
      ensures View() == if ok then Armed(old(View()), time) else old(View())
      ensures Abstract() == if ok then Request(old(Abstract()), time) else old(Abstract())
    {
      hide NamesOk, FileOk, QueueOk, LedgerOk, Current, Flatten;
      if !isInit {
        return false;
      }
      if !audioOk {
        return false;
      }
      match state {
        case Stopped => state := WaitingStart;
        case WaitingStart => state := WaitingStart;
        case WaitingNewFile => state := WaitingNewFile;
        case Running => state := WaitingNewFile;
      }
      startTime := time;
      ok := true;
    }

    method CloseFile()
      requires file != null && FileOk() && QueueOk() && LedgerOk()
      modifies `closeQueue, `payloads, `file
      ensures FileOk() && QueueOk() && LedgerOk() && file == null
      ensures closeQueue == old(closeQueue) + [old(file)] && payloads == old(payloads) + [old(Current())]
      ensures closeQueue == dir.files
    {
      HandedMore(closeQueue, payloads, fmt, file);
      assert closeQueue + [file] + [] == closeQueue + [file];
      hide NamesOk, Handed, WavFile.Payload, WavFile.Valid, WavFile.Appending, Format.Usable;
      closeQueue := closeQueue + [file];
      payloads := payloads + [file.Payload()];
      file := null;
    }

    method MarkStopped()
      requires FileOk() && QueueOk() && LedgerOk() && file == null
      modifies `state
      ensures Valid() && state == Stopped && View() == Tape(Stopped, startTime, payloads, [])
    {
      hide FileOk, QueueOk, LedgerOk;
      state := Stopped;
    }

    /** After a stop every file that was opened has been handed to the closing thread, each once. */
    method Stop() returns (ok: bool)
      requires Valid()
      modifies `state, `file, `closeQueue, `payloads
      ensures Valid() && (ok <==> isInit)
      ensures View() == if ok then Halted(old(View())) else old(View())
      ensures Abstract() == if ok then Halt(old(Abstract())) else old(Abstract())
      ensures ok ==> state == Stopped && file == null
      ensures ok ==> closeQueue == dir.files
    {
      hide Valid, View, SessionOf, Halt, Halted, NamesOk, FileOk, QueueOk, LedgerOk, Proper, Flatten;
      ViewIsProper();
      HaltedRefines(View());
      if !isInit {
        return false;
      }
      CloseCurrent();
      MarkStopped();
      ok := true;
    }

    method CloseCurrent()
      requires Valid()
      modifies `file, `closeQueue, `payloads
      ensures FileOk() && QueueOk() && LedgerOk() && file == null
      ensures closeQueue == dir.files
      ensures Tape(Stopped, startTime, payloads, []) == Halted(old(View()))
    {
      assert file == null ==> closeQueue == dir.files;
      hide NamesOk, FileOk, QueueOk, LedgerOk, Current;
      match state {
        case Stopped =>
        case WaitingStart =>
        case _ => CloseFile();
      }
    }

    method Shutdown() returns (ok: bool)
      requires Valid()
      modifies this
      ensures Valid() && !isInit && (ok <==> old(isInit))
      ensures View() == if ok then Halted(old(View())) else old(View())
      ensures Abstract() == if ok then Halt(old(Abstract())) else old(Abstract())
    {
      hide FileOk, QueueOk, LedgerOk, Flatten, Current;
      if !isInit {
        return false;
      }
      ok := Stop();
      isInit := false;
    }

    /** Opens the next file. It truncates one if and only if that number was taken. */
    method OpenNumbered()
      requires fmt.Usable() && file == null && LedgerOk()
      modifies `file, `fileIndex, dir
      ensures LedgerOk() && file != null && fresh(file) && file.Appending() && file.fmt == fmt && file.Payload() == []
      ensures dir.files == old(dir.files) + [file]
      ensures file.name in old(dir.names) <==> FileIndex.Taken(prefix, initial, firstIndex, firstIndex + |old(dir.files)|)
    {
      hide NamesOk, Numbered, FileIndex.FileName, FileIndex.Taken, WavFile.Appending, WavFile.Payload, Wrap32,
        Format.Accepted, Format.BytesPerFrame;
      ghost var files := dir.files;
      assert closeQueue == files;
      NextName(prefix, initial, firstIndex, dir.names, |files|, dir.truncations);
      var name := FileIndex.FileName(prefix, fileIndex);
      var r := Wav.Open(dir, name, fmt);
      file := r.file;
      NumberedMore(prefix, files, firstIndex, file);
      fileIndex := Wrap32(fileIndex + 1);
    }

    /** Opens the next file and gives it the rest of a block. */
    method OpenNext(rest: seq<u8>) returns (ok: bool)
      requires fmt.Usable() && fmt.maxFileSize < TWO_31 && |rest| < TWO_31 && file == null && LedgerOk()
      modifies `file, `fileIndex, dir
      ensures LedgerOk() && file != null && fresh(file) && file.Appending() && file.fmt == fmt
      ensures dir.files == old(dir.files) + [file]
      ensures ok <==> |rest| <= fmt.MaxDataSize()
      ensures Current() == UpTo(rest, fmt.MaxDataSize())
    {
      assert fmt.MaxDataSize() < TWO_31 by { SizeLimit(fmt); }
      AdmittedWithinLimit(0, fmt.MaxDataSize(), |rest|);
      hide NamesOk, LedgerOk, FileIndex.FileName, FileIndex.Taken, Format.MaxDataSize, Format.Usable, WavFile.Payload,
        Admitted, Wrap32;
      OpenNumbered();
      assert file.dataSize == 0 && file.maxDataSize == fmt.MaxDataSize();
      var written := file.Write(rest);
      ok := written == |rest|;
      assert [] + rest[..written] == UpTo(rest, fmt.MaxDataSize());
    }

    /** The current file takes a piece of a block, up to its size limit. */
    method WriteOld(piece: seq<u8>) returns (written: nat)
      requires file != null && FileOk() && |piece| < TWO_31
      modifies file
      ensures FileOk() && written <= |piece|
      ensures Current() == old(Current()) + piece[..written]
      ensures written == Cut(fmt.MaxDataSize(), |old(Current())|, |piece|)
    {
      assert |Current()| == file.dataSize;
      SizeLimit(fmt);
      assert file.dataSize <= file.maxDataSize == fmt.MaxDataSize();
      AdmittedWithinLimit(file.dataSize, fmt.MaxDataSize(), |piece|);
      hide Format.MaxDataSize, Format.Usable, WavFile.Payload, Wrap32;
      written := file.Write(piece);
    }

    /** Hands over the current file, if any, and starts the next with the rest of a block. A rest that
        does not fit into an empty file stops the recording. */
    method Renew(rest: seq<u8>) returns (ok: bool)
      requires FileOk() && QueueOk() && LedgerOk() && |rest| < TWO_31
      modifies `state, `file, `closeQueue, `payloads, `fileIndex, dir
      ensures FileOk() && QueueOk() && LedgerOk() && (ok <==> file != null)
      ensures ok ==> Current() == rest
      ensures var done := if old(file) == null then old(payloads) else old(payloads) + [old(Current())];
              payloads == if ok then done else done + [UpTo(rest, fmt.MaxDataSize())]
      ensures ok ==> state == Running
      ensures file == null || file == old(file) || fresh(file)
      ensures old(dir.files) <= dir.files && forall f | f in dir.files :: f in old(dir.files) || fresh(f)
      ensures |rest| <= fmt.MaxDataSize() ==> ok
      ensures !ok ==> state == Stopped
    {
      hide NamesOk, Handed, WavFile.Payload, WavFile.Appending, Format.Usable, Format.MaxDataSize;
      if file != null {
        CloseFile();
      }
      ok := OpenNext(rest);
      if !ok {
        CloseFile();
        state := Stopped;
        return;
      }
      state := Running;
    }

    /** Stores the part of a block that belongs to the recording, in one file or across two. */
    method Store(buf: seq<u8>, due: bool, piece: nat) returns (ok: bool)
      requires FileOk() && QueueOk() && LedgerOk() && |buf| < TWO_31 && piece <= |buf|
      requires file != null || due
      requires !due ==> piece == |buf|
      modifies `state, `file, `closeQueue, `payloads, `fileIndex, file, dir
      ensures FileOk() && QueueOk() && LedgerOk() && (ok <==> file != null)
      ensures ok ==> (payloads, Current()) ==
                     Place(fmt.MaxDataSize(), old(file) != null, old(payloads), old(Current()), buf, due, piece)
      ensures |buf| <= fmt.MaxDataSize() ==> ok
      ensures !ok ==> var (done, current) := Place(fmt.MaxDataSize(), old(file) != null, old(payloads), old(Current()),
                                                   buf, due, piece);
                      payloads == done + [UpTo(current, fmt.MaxDataSize())]
      ensures !ok ==> state == Stopped
      ensures ok ==> state == if due || Cut(fmt.MaxDataSize(), |old(Current())|, piece) < piece then Running else old(state)
      ensures file == null || file == old(file) || fresh(file)
      ensures old(dir.files) <= dir.files && forall f | f in dir.files :: f in old(dir.files) || fresh(f)
    {
      ghost var was := Current();
      ghost var cut := Cut(fmt.MaxDataSize(), |was|, piece);
      CutCases(fmt.MaxDataSize(), |was|, piece);
      assert file != null ==> file !in closeQueue;
      assert fmt.Usable() && fmt.maxFileSize < TWO_31;
      hide NamesOk, FileOk, QueueOk, LedgerOk, WavFile.Payload, Format.Usable, Format.MaxDataSize, Cut;
      var oldFile, newFile, splitOffset := file != null, due, piece;
      if oldFile {
        var ret := WriteOld(buf[..splitOffset]);
        assert buf[..splitOffset][..ret] == buf[..ret] == UpTo(buf, cut);
        if ret != splitOffset {
          newFile := true;
          splitOffset := ret;
        }
        assert !newFile ==> UpTo(buf, cut) == buf;
      }
      ok := true;
      if newFile {
        ok := Renew(buf[splitOffset..]);
      }
    }

    /** Whether a waiting start or new file comes due in the block, and where the block is split. */
    method Schedule(b: Block) returns (due: bool, splitOffset: nat)
      requires b.WellFormed()
      ensures due == DueNow(View(), b) && splitOffset <= |b.buf|
      ensures splitOffset == if due then b.SplitOffset(startTime) else |b.buf|
    {
      hide Current;
      due, splitOffset := false, |b.buf|;
      match state {
        case Running =>
        case Stopped =>
        case _ =>
          var waitTime := WaitTime(startTime, b.startTime);
          if waitTime <= b.duration {
            SplitOffsetWithin(b, startTime);
            due := true;
            splitOffset := SplitFrame(waitTime, b.Frames(), b.duration) * b.bytesPerFrame;
          }
      }
    }

    method StoreBlock(b: Block, due: bool, piece: nat) returns (ok: bool)
      requires Valid() && b.WellFormed() && piece <= |b.buf|
      requires state != Stopped && due == DueNow(View(), b) && (state == WaitingStart ==> due)
      requires piece == if due then b.SplitOffset(startTime) else |b.buf|
      modifies `state, `file, `closeQueue, `payloads, `fileIndex, file, dir
      ensures Valid()
      ensures ok ==> View() == Record(fmt.MaxDataSize(), old(View()), b)
      ensures |b.buf| <= fmt.MaxDataSize() ==> ok
      ensures !ok ==> View() == Faulted(fmt.MaxDataSize(), Record(fmt.MaxDataSize(), old(View()), b))
      ensures file == null || file == old(file) || fresh(file)
      ensures old(dir.files) <= dir.files && forall f | f in dir.files :: f in old(dir.files) || fresh(f)
    {
      assert |b.buf| < TWO_31;
      hide FileOk, QueueOk, LedgerOk, Place, Cut, UpTo, Block.WellFormed, Block.SplitOffset, Record, Current, DueNow, Proper,
        Format.MaxDataSize, Format.Usable;
      ViewIsProper();
      RecordByPlace(fmt.MaxDataSize(), View(), b, due, piece);
      ok := Store(b.buf, due, piece);
    }

    /** A block of audio. It advances the files, and the stream they hold, as the references say. */
    method Buffer(b: Block) returns (ok: bool)
      requires Valid() && b.WellFormed()
      modifies `state, `file, `closeQueue, `payloads, `fileIndex, file, dir
      ensures Valid()
      ensures !isInit ==> !ok && View() == old(View())
      ensures ok ==> View() == Record(fmt.MaxDataSize(), old(View()), b)
      ensures ok ==> Abstract() == Feed(old(Abstract()), b)
      ensures isInit && |b.buf| <= fmt.MaxDataSize() ==> ok
      ensures isInit && !ok ==> View() == Faulted(fmt.MaxDataSize(), Record(fmt.MaxDataSize(), old(View()), b))
      ensures file == null || file == old(file) || fresh(file)
      ensures old(dir.files) <= dir.files && forall f | f in dir.files :: f in old(dir.files) || fresh(f)
    {
      hide Valid, Current, Block.WellFormed, Block.SplitOffset, DueNow, Record, Format.MaxDataSize, Format.Usable,
        SessionOf, Feed, Proper;
      ViewIsProper();
      RecordRefines(fmt.MaxDataSize(), View(), b);
      if !isInit {
        return false;
      }
      var due, splitOffset := Schedule(b);
      if state == Stopped || (state == WaitingStart && !due) {
        RecordNothing(fmt.MaxDataSize(), View(), b);
        return true;
      }
      ok := StoreBlock(b, due, splitOffset);
    }
  }
}
