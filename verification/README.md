# zeus-le firmware: verified models

zeus-le is a set of wireless audio recorders that keep sub-sample time synchronisation. A central node
broadcasts packets over Bluetooth LE; every audio node estimates the offset and drift of its clock from
them, stamps its audio blocks in central time, and records WAV files that start at commanded times.

The modules follow the firmware's components. A component that updates state in place is a class whose
methods are proved against functions on values, and the properties are proved about those functions.

| modules | component | main results |
|---|---|---|
| `DiskLru`, `DiskCache` | write-through sector cache | a range read returns the disk's sectors if every hit outlives the misses flushed before it, and another sector's bytes somewhere if not; with that guard the batched LRU equals a sector-at-a-time LRU; coherence over every operation |
| `Kalman`, `FreqEst`, `ClockTracking` | clock estimator | the scalar formulas are the matrix filter in Joseph form; covariances stay positive semidefinite and move as the errors do; a measurement moves phase and rate by exactly its gains; an estimator that is right on a steady clock stays exactly right; 64-bit wrap-around is invisible over any run; the outlier and resynchronisation machine; the configuration in seconds is the filter in ticks |
| `Wire`, `SyncCentral`, `SyncNode`, `SyncWorld` | lossy broadcast of time and commands | wire round trip; over every lossy run, exactly the commands seen are executed, once and in order, and every clock sample timestamps one packet, exactly unless a gap aliases a sequence number; a start is queued for two seconds after the packet sent last |
| `RecordTiming`, `Audio`, `RecordBlock`, `RecordSpec`, `RecordFiles`, `RecordAlign`, `Recorder`, `Recording`, `Wav`, `FileIndex` | recorder | the first block's stamp is within half a sample period of central time; the files concatenate to the audio stream from the first split on; a file ends exactly at a stop, a due start command and its size limit; recording begins at the block frame nearest to the request, which is a frame of the file exactly when the frame sizes agree; every file handed over is closed and parses back, to the whole stream exactly when every file was cut at a frame; the opens truncate exactly the files whose numbers were taken, which is none until the number wraps if the start-up scan completed |
| `CString`, `FtpPath`, `FtpLine` | FTP paths and command lines | in-place joining computes an associative join with identity; line reading does not depend on how the bytes are chunked |
| `FlagSaver` | charger interrupt flags | every raise is fired or still waits, in any interleaving; each callback is called as if it were the only one; exactly when a callback misses a flag |
| `Words`, `Division`, `Wrappers` | machine words, integer division, optional values | |

Where a property holds only under a condition, the condition is stated and shown to be exact:

- **Range reads through the cache.** `disk_cache_access_read` looks an entry up, then flushes the pending
  misses, then copies from the entry. A flush can recycle that very entry. The read is right when
  each hit lies in the LRU list beyond the entries its pending misses push out (`DiskLru.Outlives`);
  otherwise some buffer slot holds the bytes of another, earlier sector of the range. `DiskLru.RecycledHit` is the
  smallest such read: one entry, holding sector 1, and a read of sectors 0 and 1. Copying each hit before
  flushing would need no guard (`DiskCache.Cache.ReadCopyingFirst`).
- **Commands and clock samples.** A command change is missed exactly when two consecutive receptions are a
  positive multiple of 65536 changes apart; a false clock sample arises exactly when two consecutive
  receptions are 257, 513, ... packets apart (`SyncWorld.MissedCommand`, `SyncWorld.MadeUpSample`).
- **Split position.** The cut is the block frame nearest to the requested time exactly when the rounded
  product of wait and frame count fits in 32 bits. It is a frame of the file, for every request, exactly
  when the block's bytes per frame are a multiple of the file's. The shipped configuration meets the first
  condition and not the second: `audio.c` passes six bytes per frame and `record.c` opens stereo 16-bit
  files, which have four, so a recording can start in the middle of a frame with the channels exchanged
  (`RecordBlock.ShippedStartIsMisaligned`). With four bytes per frame the second would hold and the first
  would not (`Audio.SplitsOfABlock`).
- **Resolving a path twice** changes nothing exactly when the base directory is empty or the root.
- **Missed interrupt flags.** `mfd_bq2515x_add_callback` unmasks a callback and queues the work before it
  lists the callback, and the mask write in between can fail. The callback misses flags exactly when the
  work runs while it is unmasked and unlisted and finds one of them (`FlagSaver.NothingMissedIff`); if the
  work runs only after the listing, it misses nothing (`FlagSaver.EveryRaiseIsDelivered`).
- **File numbers.** Opening the next file truncates one exactly when its name was there at start-up or was
  opened 2^32 numbers before (`FileIndex.InDirectoryIffTaken`), so a recorder never truncates before the
  number wraps exactly when all names from its first number on are free (`FileIndex.NeverTruncatesIff`).
  A completed scan gives such a number. A scan that stops early, at a directory error or at a name whose
  number reads as out of range, leaves the number it has reached, and `record_init` goes on with it; that
  number is safe exactly when it is safe for the entries not scanned. `FileIndex.StoppedTooEarly` is a
  directory for which it is not.
- **The unit of the variances.** `freq_est.h` gives the measurement variance in square seconds, and the gains
  come out the same for any unit (`ClockTracking.GainsInAnyUnit`). The outlier test compares it with an
  innovation in units of 2^-32 ticks, so for the test the variances must be in squares of 2^-32 seconds, as the shipped
  values evidently are (`ClockTracking.OutlierInTicks`). The model follows the code.
- **The size limit** of a WAV file is kept exactly when the 32-bit sum of old size and write length does
  not wrap. The recorder's limit of 2^31 - 1 keeps it from wrapping.

The disk, the socket and the I2C bus are modelled as objects whose transfers may fail nondeterministically
at any point; a disk transfer may fail half way. The radio loses packets at will.

## Model

The results come first, module by module, and then the operations they are about.

| member | source | states |
|---|---|---|
| DiskLru.TouchRunOfMisses | firmware/audio/app/src/drivers/disk/disk_cache.c:124-139 | Flushing a batch of misses leaves the list that touching them one sector at a time leaves. |
| DiskLru.SurvivesIffStillListed | firmware/audio/app/src/drivers/disk/disk_cache.c:156-176 | A hit lies beyond the entries its pending misses push out if and only if the sector-at-a-time list still holds its sector when its turn comes. |
| DiskLru.SingleSectorOutlives | firmware/audio/app/src/drivers/disk/disk_cache.c:149-190 | A single-sector read always meets the guard. |
| DiskLru.AllMissedOutlives | firmware/audio/app/src/drivers/disk/disk_cache.c:149-190 | A range of which no sector is cached always meets the guard. |
| DiskLru.AllListedOutlives | firmware/audio/app/src/drivers/disk/disk_cache.c:149-190 | A range that is entirely cached always meets the guard. |
| DiskLru.RecycledHit | firmware/audio/app/src/drivers/disk/disk_cache.c:159-175 | A concrete read that fails the guard: one entry, holding sector 1, and a read of sectors 0 and 1. |
| DiskLru.ClosedForm | firmware/audio/app/src/drivers/disk/disk_cache.c:149-190 | The reference list after a range is the last slab-size elements of the old list without the range followed by the range in ascending order. |
| DiskCache.Cache.Read | firmware/audio/app/src/drivers/disk/disk_cache.c:149-190 | For every cache content, hit/miss mix and range: fails if and only if the disk fails; if the guard holds, a successful read fills the buffer with exactly the disk's sectors and leaves the reference LRU list; if it does not, a slot holds another, earlier sector's bytes; the cache stays valid in every case. A range past 2^32 wraps in the lookups and fails. |
| DiskCache.Cache.ReadCopyingFirst | firmware/audio/app/src/drivers/disk/disk_cache.c:156-187 | The same read with the copy in front of the flush needs no guard: whenever the disk does not fail, the buffer holds exactly the disk's sectors. |
| DiskCache.Cache.Write | firmware/audio/app/src/drivers/disk/disk_cache.c:192-214 | A successful write-through keeps every entry equal to the disk; a failed one can leave stale entries only for sectors it was changing, and none if it changed nothing. |
| Kalman.PredictScalar | firmware/audio/app/src/freq_est.c:82-86 | The expanded prediction equals A P A' + dt^2 Q. |
| Kalman.CorrectScalar | firmware/audio/app/src/freq_est.c:122-127 | The expanded correction equals the Joseph form (I - K C) P (I - K C)' + K R K'. |
| Kalman.CorrectDet | firmware/audio/app/src/freq_est.c:122-127 | A correction multiplies the determinant by exactly r / (p00 + r). |
| Kalman.PredictPsd | firmware/audio/app/src/freq_est.c:82-86 | A prediction keeps the covariance symmetric and positive semidefinite and never lowers its determinant. |
| Kalman.CorrectPsd | firmware/audio/app/src/freq_est.c:122-127 | A correction keeps the covariance symmetric and positive semidefinite, leaves the phase variance below that of the measurement, and does not raise the frequency variance. |
| FreqEst.OutlierByDistance | firmware/audio/app/src/freq_est.c:95-102 | The squared outlier test is the test on the Mahalanobis distance. |
| FreqEst.StepSimulates | firmware/audio/app/src/freq_est.c:55-132 | One update on wrapping time gives the result and the filter of one on unbounded clocks, and its times and phase mod 2^64, if the true time step fits a word, the true innovation a signed word, and both phase increments are below 2^64 in size. |
| FreqEst.RunSimulates | firmware/audio/app/src/freq_est.c:55-132 | Over any run that keeps within these ranges, the device returns the same results as an estimator with unbounded clocks and holds the same filter, and the same times and phase mod 2^64. |
| FreqEst.CentralSimulates | firmware/audio/app/src/sync_timer.c:179-190 | Converting a local time to central time on wrapped clocks is converting it on unbounded clocks, mod 2^64, while the elapsed phase is below 2^64 in size. |
| FreqEst.StepKeepsCovariance | firmware/audio/app/src/freq_est.c:74-131 | Any update keeps the covariance valid; an accepted measurement scales the predicted determinant by exactly r / (p00 + r), an outlier leaves the prediction. |
| FreqEst.Run | firmware/audio/app/src/freq_est.c:30-132 | Every covariance reachable from start-up through any mix of updates is symmetric and positive semidefinite. |
| FreqEst.InitIffReset | firmware/audio/app/src/freq_est.c:60-72 | An update initialises if and only if the estimator was reset, and then keeps the frequency and takes the measured phase. |
| FreqEst.ConvertedAtUpdate | firmware/audio/app/src/sync_timer.c:183-186 | The local time of an update converts to that time less the phase, and right after an initialisation to exactly the reference time. |
| FreqEst.PredictAgrees | firmware/audio/app/src/freq_est.c:50-53 | The phase an update leaves after an outlier is the one that predicting for the same time answers (with no input, less than 2^63 units ahead). |
| FreqEst.AcceptedResidual | firmware/audio/app/src/freq_est.c:119 | An accepted measurement leaves r / (p00 + r) of the innovation, up to truncation. |
| FreqEst.RunCounts | firmware/audio/app/src/freq_est.c:60-117 | Over any run with detection and resync on: INIT is returned exactly first and right after OUTLIER_RESET; every other result is OK if and only if the measurement is no outlier for the state it meets; OUTLIER_RESET is the rejection that is the resync-count-th in a row, OUTLIER one before it. |
| FreqEst.FreqEst.Update | firmware/audio/app/src/freq_est.c:55-132 | The in-place update computes one step of the matrix filter, state and result; MeasurementMoves and the run results say what a step does. |
| ClockTracking.MeasurementMoves | firmware/audio/app/src/freq_est.c:88-120 | An accepted measurement moves the frequency by p10 / (p00 + r) and the phase by p00 / (p00 + r) of the innovation, for the predicted covariance p, and corrects that covariance; a rejected one does none of these; the status changes only at a resynchronisation. |
| ClockTracking.PredictedPhase | firmware/audio/app/src/freq_est.c:75-80 | The phase is predicted by the time step in ticks times the rate with its input, rounded toward zero. |
| ClockTracking.ConvertedPhase | firmware/audio/app/src/freq_est.c:50-53 | The phase by which a time is converted is the one at the last update plus the elapsed ticks times the rate, rounded toward zero. |
| ClockTracking.ErrorGrows | firmware/audio/app/src/freq_est.c:75-80 | On a steady clock, between measurements the phase error grows by the time step times the rate error, up to truncation. |
| ClockTracking.ErrorSettles | firmware/audio/app/src/freq_est.c:88-120 | An accepted measurement leaves r / (p00 + r) of the phase error, up to truncation, and takes p10 / (p00 + r) of it off the rate error; a rejected one leaves both. |
| ClockTracking.PredictMovesErrors | model/freq_est_model.ipynb:86 | Without process noise the prediction takes the covariance of an error (d, e) to that of (d + dt e, e), as the error itself moves. |
| ClockTracking.CorrectMovesErrors | model/freq_est_model.ipynb:150 | For any gains, the correction takes the covariance of an error to that of the corrected error, plus the measurement noise through the gains. |
| ClockTracking.HoldsConverts | firmware/audio/app/src/sync_timer.c:179-190 | An estimator that holds the true phase and rate of a steady clock converts every local time on it to exactly the central time. |
| ClockTracking.RunHolds | firmware/audio/app/src/freq_est.c:55-132 | Over any run, an estimator that holds the true phase and rate of a steady clock predicts and accepts every later sample and goes on holding them. |
| ClockTracking.DeviceHolds | firmware/audio/app/src/freq_est.c:55-132 | So does the device on wrapping words, over any run within the ranges of the simulation. |
| ClockTracking.PredictInTicks | firmware/audio/app/src/freq_est.c:33-42 | The prediction of the filter in ticks is that of the filter in seconds, in ticks. |
| ClockTracking.CorrectInTicks | firmware/audio/app/src/freq_est.c:33-42 | The correction of the filter in ticks is that of the filter in seconds, in ticks. |
| ClockTracking.ScaledIsInTicks | firmware/audio/app/src/freq_est.c:30-48 | With the configuration as initialisation scales it, predicting and correcting in ticks are predicting and correcting in seconds, and the phase that the input gains in seconds comes out in units of 2^-32 ticks; the other parameters are kept. |
| ClockTracking.GainsInAnyUnit | firmware/audio/app/src/freq_est.c:82-127 | Scaling all variances by one factor scales the covariances by it and leaves the gains. |
| ClockTracking.OutlierInTicks | firmware/audio/app/src/freq_est.c:92-102 | For an innovation in ticks and a variance in square ticks, the test compares the distance with the threshold over 2^32. |
| Wire.BytesOnTheAir | firmware/protocol/include/zeus/protocol.h:18-49 | The bytes of three adverts: field order, byte order and command identifiers. |
| Wire.RoundTrip | firmware/central/app/src/sync.c:97-122 | Every advert that is emitted parses back to the same header and command. |
| Wire.ParseExactly | firmware/audio/app/src/mgr.cpp:532-562 | The parser accepts an emitted advert, or one without command followed by an explicit NONE, and nothing else. |
| SyncCentral.StaleAfterTwiceTheDelay | firmware/central/app/src/sync.c:68-84 | In true times, a start is stale exactly when more than four seconds (64,000,000 ticks) have passed since the packet it was issued at. |
| SyncWorld.RunKeepsInv | firmware/central/app/src/sync.c:56-159 | Over any run, the sequence numbers on the air and in the node are the packet and change counts mod 256 and mod 65536. |
| SyncWorld.Delivery | firmware/audio/app/src/mgr.cpp:564-589 | Over any lossy run, the recorder is called for exactly the handled changes in order; those are exactly the changes seen if and only if no gap is a positive multiple of 65536 changes; the clock samples are exactly the timestamps of one packet for every two consecutive packets received if and only if no gap is 257, 513, ... packets. |
| SyncWorld.MadeUpSample | firmware/audio/app/src/sync_timer.c:135-140 | One packet heard, 256 missed and the next heard: a run with a clock sample that timestamps no packet. |
| SyncWorld.MissedCommand | firmware/audio/app/src/mgr.cpp:569-573 | One packet heard, 65536 command changes missed and the next packet heard: a run in which a seen change is not handled. |
| SyncWorld.ShortGapsDeliver | firmware/audio/app/src/sync_timer.c:131-148 | With fewer than 65536 changes and 256 packets missed in a row, exactly the commands seen are handled and every clock sample timestamps one packet. |
| SyncWorld.SeenChangesExactly | firmware/audio/app/src/mgr.cpp:569-573 | The changes seen are in order, each once, and are exactly those of which at least one advert was received. |
| SyncWorld.RequestIsQueued | firmware/central/app/src/sync.c:237-259 | After any run, a request is queued unless two wait: a stop as it is, a start for 32,000,000 ticks after the packet sent last (after 0 if none was), mod 2^32; nothing else changes. |
| SyncNode.SampleConverts | firmware/audio/app/src/sync_timer.c:131-148 | Right after a sample initialises the estimator, its local timestamp converts to its central one, in whole ticks. |
| SyncWorld.QueueOrder | firmware/central/app/src/sync.c:60-95 | Over any run, every accepted command is taken in order as one change and advertised, unless it is a start that is stale by the packet sent last; an advertised start is withdrawn exactly when it has become stale; nothing else changes the advertised command. |
| RecordTiming.SplitIsNearest | firmware/audio/app/src/record.c:346-348 | The split is within half a frame of the request if and only if the rounded product fits 32 bits. |
| RecordTiming.ComesDueOnce | firmware/audio/app/src/record.c:332-352 | A request less than 2^31 ticks ahead comes due in exactly the first block whose wait is within its duration. |
| Audio.SplitsOfABlock | firmware/audio/app/src/audio.c:259-266 | The split arithmetic of the shipped blocks: six bytes per frame keep it in 32 bits; with four, a request at the end of the block would be cut at frame 21 of 3600. |
| Audio.BlocksAreWhole | firmware/audio/app/src/audio.c:463-480 | A block is a whole number of frames and of timer ticks, as initialisation checks, and takes 75 ms; the sample period is that of 48 kHz rounded down to the unit. |
| Audio.StampIsCentral | firmware/audio/app/src/audio.c:163-166 | A block's start time is the whole-tick part of a time as far from the reference time as the target phase is from the measured one. |
| Audio.FirstStampIsCentral | firmware/audio/app/src/audio.c:152-166 | For the target taken from a phase just measured, that time is within half a sample period of the reference time. |
| Audio.StartTimeOfBlock | firmware/audio/app/src/audio.c:275-282 | The k-th block after a phase reset starts k durations after the first, mod 2^32. |
| Audio.TargetIsNearest | firmware/audio/app/src/audio.c:152-159 | The target phase is on the sample grid within half a sample of the estimate, on the circle of 64-bit phases. |
| RecordSpec.LiveKeepsEverything | firmware/audio/app/src/record.c:307-444 | From the first split until a stop, the recorded stream is every byte of every block, whatever start commands arrive. |
| RecordSpec.RecordRefines | firmware/audio/app/src/record.c:307-435 | However a block is spread over files by splits and rollovers, the stream that the files hold advances as if there were none. |
| RecordFiles.FileGoesOn | firmware/audio/app/src/record.c:307-444 | Unless a requested new file is due or the file is full, the current file takes the whole block and recording goes on as it was. |
| RecordFiles.FileFills | firmware/audio/app/src/record.c:366-374 | A file that fills up is cut at its limit, the next takes the rest of the block, and a request for a new file is dropped. |
| RecordFiles.FilesEndExactly | firmware/audio/app/src/record.c:276-467 | Over any run, an event ends a file if and only if it is a stop or a block in which a requested new file is due or the file is full, and each event ends at most one. |
| RecordFiles.FilmFits | firmware/audio/app/src/record.c:366-374 | Over any run of blocks that each fit a file, no file exceeds the limit. |
| RecordFiles.FileGrows | firmware/audio/app/src/record.c:307-444 | While the file has room and no request comes due, a run of blocks goes into the current file byte for byte. |
| RecordFiles.RunningFillsFiles | firmware/audio/app/src/record.c:366-374 | Without commands, every file a running recorder finishes is exactly as long as the limit. |
| RecordFiles.FirstFileBegins | firmware/audio/app/src/record.c:276-352 | A start command to a recorder that does not record, less than 2^31 ticks ahead: nothing is recorded until the block that is due, and the file begins at its split frame. |
| RecordFiles.LateStart | firmware/audio/app/src/record.c:332-341 | A start command for a time up to 2^31 ticks past takes effect at the start of the next block, in either case. |
| Recorder.Recorder.Stop | firmware/audio/app/src/record.c:446-467 | After a stop the files handed to the closer are exactly the files ever opened in the directory, each once, in order, with their payloads intact. |
| Recording.Boot | firmware/audio/app/src/record.c:208-215 | Start-up goes on with the number the scan leaves, also when it fails. That number is safe, in that all names from it on are free, if and only if it is so for the entries the scan did not reach; in particular if it completed. |
| Recording.FilesHoldStream | firmware/audio/app/src/record.c:361-433 | The payloads of the files opened, in that order, concatenate to the recorded stream. |
| RecordSpec.RecordingBegins | firmware/audio/app/src/record.c:329-350 | A start command to a session that does not record, less than 2^31 ticks ahead, begins the recording in the first block whose wait is within its duration, at a whole frame of the block (in the block's own bytes per frame). |
| RecordSpec.RecordingBeginsNearest | firmware/audio/app/src/record.c:344-350 | That block frame is within half a frame of the request if and only if the rounded product fits 32 bits. |
| RecordFiles.NewFileBegins | firmware/audio/app/src/record.c:276-352 | A start command while recording, less than 2^31 ticks ahead: if the current file has room up to there, it ends and the next begins in the block that is due, at the split frame of that block, and no byte is lost in between. |
| RecordFiles.RolloverDropsRequest | firmware/audio/app/src/record.c:276-374 | If instead the file fills up in a block before, it is cut at its limit there, and the command is dropped. |
| RecordBlock.StartsAreAligned | firmware/audio/app/src/record.c:344-350 | With at least one tick per frame, recording starts at a frame of the file for every request that can come due in a block if and only if the block's bytes per frame are a multiple of the file's. |
| RecordBlock.CutsAreAligned | firmware/audio/app/src/record.c:350 | Every cut at a block frame is a cut at a file frame under the same condition, for any block with a frame in it. |
| RecordBlock.ShippedStartIsMisaligned | firmware/audio/app/src/audio.c:259-266 | The shipped block does not meet the condition: six bytes per frame into a file with four. A request 500 ticks in starts the file in the middle of a stereo frame and leaves it two bytes past a whole frame. |
| RecordAlign.NothingClippedIff | firmware/audio/app/src/wav.c:149-154 | What reads back from a set of closed files is everything recorded if and only if every file ends at a whole frame. |
| RecordAlign.FilmKeepsAligned | firmware/audio/app/src/record.c:307-435 | In any run of blocks whose frame size is a multiple of the file's, every file is cut at a frame, by splits, rollovers and stops. |
| Recording.Drive | firmware/audio/app/src/record.c:276-467 | Over any run of commands and blocks that each fit a file: the contents of every file are those of the reference with files, and together hold the reference stream; whenever stopped, exactly the files opened have been handed over; the opens have truncated exactly as many files as there were taken numbers, and none before the number wraps if all names from the first on were free. |
| Recording.RecordAndClose | firmware/audio/app/src/record.c:62-79 | A whole session and the closing thread: every file opened is closed and reads back; the payloads are the reference stream; and what reads back is the whole stream if and only if every file was cut at a frame, which holds when each block's frame size is a multiple of the file's. |
| Wav.HeaderOfOneFrame | firmware/audio/app/src/wav.c:42-104 | The 44 bytes of the header of a stereo 16-bit 48 kHz recording of one frame. |
| Wav.FrameSizes | firmware/audio/app/src/wav.c:45-47 | Samples take whole bytes, and frame size and byte rate are exact while they fit their words. |
| Wav.MaxDataSizeIsLargest | firmware/audio/app/src/wav.c:50-52 | The limit on the payload is the largest whole number of frames with which the file keeps its maximum size. |
| Wav.ParseFinished | firmware/audio/app/src/wav.c:149-170 | A finished file parses as PCM WAVE with RIFF size = data size + 36 and the payload rounded down to whole frames. |
| Wav.PatchHeader | firmware/audio/app/src/wav.c:149-170 | Patching the two size fields gives exactly the header for the new size in front of an untouched payload. |
| Wav.AdmittedWithinLimit | firmware/audio/app/src/wav.c:126-130 | A write keeps the size limit if and only if the 32-bit sum does not wrap, is complete if and only if it fits, and otherwise fills the file up to the limit. |
| Wav.WavFile.Close | firmware/audio/app/src/wav.c:172-177 | A closed file parses back with its format and payload and is never longer than the maximum file size. |
| FileIndex.ClassifyFileName | firmware/audio/app/src/record.c:97-133 | The scan recovers the number of every name the recorder makes, except the maximum, which reads as out of range. |
| FileIndex.FileNameIs | firmware/audio/app/src/record.c:399-401 | A name is the prefix, an underscore, the number in decimal with zeros in front up to four digits, and the suffix. |
| FileIndex.StrtoulReads | firmware/audio/app/src/record.c:115-123 | Space and one sign may stand before the digits; a minus sign negates the word; a number of 2^32 or more reads as 2^32 - 1. |
| FileIndex.NamesRead | firmware/audio/app/src/record.c:105-133 | A name with prefix, underscore and number is out of range at the largest number, counts if the suffix follows, and is skipped otherwise. |
| FileIndex.NameMustMatch | firmware/audio/app/src/record.c:99-123 | Every other name, without the prefix, the underscore or a number, is skipped. |
| FileIndex.CreatedKeepsFree | firmware/audio/app/src/record.c:415-423 | Creating a file and counting up keeps all later names free if and only if the number does not wrap. |
| FileIndex.NeverTruncatesIff | firmware/audio/app/src/record.c:415-423 | No number of opens before the number wraps truncates a file if and only if all names from the first number on are free. |
| FileIndex.InDirectoryIffTaken | firmware/audio/app/src/record.c:395-415 | The next open truncates a file if and only if its name was there at the start or was opened 2^32 numbers before. |
| FileIndex.StoppedScanIsSafeIff | firmware/audio/app/src/record.c:119-139 | The number a scan leaves that stopped early is safe if and only if it is safe for the entries not reached. |
| FileIndex.StoppedTooEarly | firmware/audio/app/src/record.c:124-128 | The smallest unsafe directory: the name with the largest number stops the scan before it has seen the recording with number 0, and 0 is the number it leaves. |
| FileIndex.FindNextFileIndex | firmware/audio/app/src/record.c:81-146 | At every entry, the number is one more than the largest matching one among those scanned; a scan completes, or stops at a directory error or at a name out of range. |
| FtpPath.JoinIs | firmware/lftpd/lftpd_path.c:38-70 | Two non-empty paths are joined by exactly one of the slashes that meet, or one put between them. |
| FtpPath.TrimIs | firmware/lftpd/lftpd_path.c:12-18 | Trimming drops all trailing slashes but a first character, and nothing else. |
| FtpPath.JoinAssociative | firmware/lftpd/lftpd_path.c:20-73 | Joining is associative. |
| FtpPath.TrimIdempotent | firmware/lftpd/lftpd_path.c:12-18 | Trimming twice is trimming once. |
| FtpPath.ResolveIdempotent | firmware/lftpd/lftpd_path.c:75-99 | With an absolute working directory, resolving twice is resolving once for every path if and only if the base is empty or the root. |
| FtpPath.Prefix | firmware/lftpd/lftpd_path.c:20-73 | Succeeds if and only if the joined text and its terminator fit, computes the join in place with an overlapping move, and leaves the buffer alone on failure. |
| FtpLine.ChunkReceived | firmware/lftpd/lftpd_inet.c:64-76 | However many bytes arrive, the buffer holds the last of the bytes received, and the LF only when the line is complete, with its CR beside it. |
| FtpLine.SearchDecides | firmware/lftpd/lftpd_inet.c:78-88 | The search succeeds exactly when the line is complete. |
| FtpLine.ReadLine | firmware/lftpd/lftpd_inet.c:55-107 | For any chunking of one line, terminates and returns the line if it fits with CRLF and terminator, else consumes it all and reports overflow; a buffer of two reports a reset. |
| FlagSaver.NoFlagIsLost | firmware/drivers/mfd/mfd_bq2515x.c:59-91 | Over any run, with the steps of adding and removing callbacks, raises and work runs interleaved at will: a flag is unread or saved exactly when it has been raised and not fired since; so every single raise is followed by a fire or still waits, and every fire answers a raise that no other fire has answered. |
| FlagSaver.WorkFiresUnmasked | firmware/drivers/mfd/mfd_bq2515x.c:66-90 | A successful work run reads everything, leaves no unmasked flag waiting, and hands the unmasked flags, and only those, to the callbacks listed. |
| FlagSaver.RunTracks | firmware/drivers/mfd/mfd_bq2515x.c:59-91 | With disjoint masks, each callback is called, call by call, exactly as if it were the only one. |
| FlagSaver.OrderDoesNotMatter | firmware/drivers/mfd/mfd_bq2515x.c:74-81 | The calls a callback gets, the flags it misses and those it is still owed do not depend on which other callbacks are added or removed, or when. |
| FlagSaver.NothingMissedIff | firmware/drivers/mfd/mfd_bq2515x.c:251-280 | A callback misses flags if and only if the work runs while it is unmasked but not listed and one of its flags is unread or saved: between the two steps of adding or removing it, or after a mask write that failed. |
| FlagSaver.ListedTooLate | firmware/drivers/mfd/mfd_bq2515x.c:256-265 | The smallest run with a missed flag: raised, unmasked, work run, listed. |
| FlagSaver.EveryRaiseIsDelivered | firmware/drivers/mfd/mfd_bq2515x.c:261-265 | If the work never runs in that window, then after a work run that finds the callback unmasked it has been called for every single raise of each of its flags. |
| DiskCache.Cache.Flush | firmware/audio/app/src/drivers/disk/disk_cache.c:55-65 | Returns every listed entry to the slab; an empty cache is valid whatever was cached before. |
| DiskCache.Cache.Add | firmware/audio/app/src/drivers/disk/disk_cache.c:84-112 | Lists an unlisted sector with the disk's bytes, recycling the oldest entry when the slab is full, and keeps the cache valid. |
| DiskCache.Cache.Populate | firmware/audio/app/src/drivers/disk/disk_cache.c:124-139 | Reads a run of misses with one transfer into the right part of the buffer and lists them in order; a failed transfer lists nothing. |
| DiskCache.Cache.PopulateBefore | firmware/audio/app/src/drivers/disk/disk_cache.c:159-170 | An entry looked up before a flush is still listed after it, and holds either its old sector or, if that was pushed out, one of the flushed misses. |
| DiskCache.Cache.ServeHit | firmware/audio/app/src/drivers/disk/disk_cache.c:160-176 | Flushes, copies and bumps in the order of the code; the copied slot holds the disk's bytes for the entry's present sector, which is the requested one if and only if it survived the flush. |
| DiskCache.Cache.Control | firmware/audio/app/src/drivers/disk/disk_cache.c:216-241 | Initialising or releasing the disk empties the cache, so a card can be exchanged; other commands and failures leave it alone. |
| DiskCache.Cache.Lookup | firmware/audio/app/src/drivers/disk/disk_cache.c:68-81 | Finds a listed entry for a sector if and only if the sector is listed. |
| DiskCache.Cache.Bump | firmware/audio/app/src/drivers/disk/disk_cache.c:115-122 | Moves an entry to the most recent position and keeps the cache valid. |
| FreqEst.FreqEst.Predict | firmware/audio/app/src/freq_est.c:50-53 | The predicted phase at a time before or after the last update. |
| FreqEst.FreqEst.CorrectCovariance | firmware/audio/app/src/freq_est.c:122-127 | The four in-place assignments, in their order, compute the Joseph form of the covariance before them. |
| FreqEst.FreqEst.constructor | firmware/audio/app/src/freq_est.c:30-48 | Initialisation scales the configuration to timer units and starts in RESET. |
| Wire.ParseAdvData | firmware/audio/app/src/mgr.cpp:532-562 | The copy-then-check parser computes the parse of the bytes. |
| SyncCentral.SyncData.CmdStart | firmware/central/app/src/sync.c:237-249 | Queues a start for START_DELAY after the packet sent last, or refuses it when two commands wait; RequestIsQueued says the time in ticks, over any run. |
| SyncCentral.SyncData.AdvUpdateData | firmware/central/app/src/sync.c:56-125 | Takes the next queued command or withdraws a stale start, numbers the change, and emits the encoding of the new advert. |
| SyncCentral.SyncData.CmdStop | firmware/central/app/src/sync.c:251-259 | Queues a stop, or refuses it when two commands wait. |
| SyncCentral.SyncData.IpcRecv | firmware/central/app/src/sync.c:138-159 | Records the number and time of the packet just sent in the next advert. |
| SyncNode.SyncTimer.RecvAdv | firmware/audio/app/src/sync_timer.c:131-148 | Hands the estimator the capture of the previous advert with the time the central node sent it, if the numbers are consecutive, and remembers this advert. |
| SyncNode.SyncTimer.LocalToCentral | firmware/audio/app/src/sync_timer.c:179-190 | Converts a local time if and only if the estimator has a phase. |
| SyncNode.Manager.HandleAdvData | firmware/audio/app/src/mgr.cpp:564-589 | Calls the recorder once for a command number that differs from the last one, and not at all otherwise. |
| Audio.AudioData.SyncUpdate | firmware/audio/app/src/audio.c:134-188 | Updates the audio estimator against central time, resets the target exactly on initialisation, stamps the block by the target, which right after initialisation is the whole-tick part of a time within half a sample period of the block's central time, and clamps the oscillator register. |
| Audio.AudioData.Clamp | firmware/audio/app/src/audio.c:171-183 | The oscillator register ends within its limits whatever it was, and is the proposed value clamped to them unless it was so low that the 16-bit increment limits wrap. |
| Audio.AudioData.EguHandler | firmware/audio/app/src/audio.c:275-288 | Stamps a block with the I2S time before it and advances that time by one block. |
| Recorder.Recorder.Start | firmware/audio/app/src/record.c:276-305 | A start command is that of the references, with and without files; FirstFileBegins, NewFileBegins and LateStart say what it leads to. |
| Recorder.Recorder.OpenNumbered | firmware/audio/app/src/record.c:395-423 | Opens the file with the next number; it truncates a file if and only if that number was taken. |
| Recorder.Recorder.Buffer | firmware/audio/app/src/record.c:307-444 | A block advances the contents of the files, and the stream they hold, exactly as the two references do; one too large for an empty file is cut at the limit and stops the recording. FilesEndExactly and FileGoesOn say when a file ends and when it does not. |
| Recorder.Recorder.CloseFile | firmware/audio/app/src/record.c:148-157 | Hands the current file to the closer once and loses no recorded byte. |
| Recorder.Recorder.Shutdown | firmware/audio/app/src/record.c:476-492 | Stops as above and refuses everything afterwards. |
| Wav.WavFile.Write | firmware/audio/app/src/wav.c:126-147 | Appends as much as the size limit admits and reports how much; the file stays well-formed and within its limit if and only if the 32-bit sum of the sizes does not wrap. |
| Wav.Open | firmware/audio/app/src/wav.c:106-124 | Refuses exactly the formats with a zero field or no room for the header; divides by zero exactly when the 16-bit frame size wraps to zero; creates the file, or truncates one that is there. |
| Wav.WavFile.UpdateSize | firmware/audio/app/src/wav.c:149-170 | Rewrites the sizes for whole frames, keeps the payload, and returns to the end. |
| Wav.WavFile.WriteHeader | firmware/audio/app/src/wav.c:42-104 | The thirteen field writes give the 44-byte header. |
| FtpPath.TrimTrailingSlash | firmware/lftpd/lftpd_path.c:12-18 | Trims the text in place and writes nothing past its terminator. |
| FtpPath.ResolvePath | firmware/lftpd/lftpd_path.c:75-99 | Resolution is trim after join with the base or the working directory. |
| FlagSaver.Driver.WorkHandler | firmware/drivers/mfd/mfd_bq2515x.c:59-91 | Reads, saves and fires as one step of the reference, or queues itself again if the bus fails. |
| FlagSaver.Driver.AddCallback | firmware/drivers/mfd/mfd_bq2515x.c:251-266 | Unmasks, writes the mask and queues the work, then lists the callback, with interrupts and work runs possible in between; at the end the work is queued or has run; stops after unmasking if the write fails. |
| FlagSaver.Driver.RemoveCallback | firmware/drivers/mfd/mfd_bq2515x.c:268-280 | Unlists a listed callback, then masks it, with interrupts and work runs possible in between, whether or not the mask is written. |

## Left out

- FreqEst.FreqEst.Update: floating-point rounding; numbers are exact reals and conversions to integers truncate. An increment of 2^64 or more is undefined in C and wraps here; the simulation results exclude it.
- FreqEst.RunCounts: the machine with a resync count of zero (no resynchronisation) is not characterised.
- DiskCache.Cache.Read: buffers at a finer grain than whole sectors; disks whose driver accepts a range past their end.
- Recorder.Recorder.Buffer: file-system errors in the WAV and recorder code (the error paths can hand over files that were never opened); of the failures only a block too large for an empty file is modelled, as the fault that stops the recording.
- Recording.Drive: no member claims that every start opens a file of its own, because a rollover drops a pending request (RolloverDropsRequest; the FIXME at firmware/audio/app/src/record.c:368-371 names the rarer case of both in one block, where the file ends at the rollover).
- Recorder.Recorder.CloseFile: the depth of the close queue, blocking on it, periodic syncs of the file and the closing thread's timing.
- RecordSpec.RecordingBegins: frames are those of the block; StartsAreAligned says when they are those of the file.
- Audio.AudioData.SyncUpdate: the frequency controller is a parameter; only the clamp of its answer is modelled.
- Recording.Boot: only the scan at start-up; the scans when a card is inserted or the prefix is changed are the same method, but no run contains them. The directory is a sequence of names, compared case-sensitively, to which only the recorder adds.
- SyncWorld.Delivery: coalescing of work items; the advert that a packet prompts is installed before the next packet is sent. One audio node is modelled; nodes do not interact.
- FlagSaver.NoFlagIsLost: a flag word is a set of bits, so occurrences of one flag before it is fired answer to one fire, as in the hardware register and the saved word. The other results assume disjoint masks.
- FtpLine.ReadLine: streams with a lone LF, NUL bytes or more bytes after the CRLF (the code drops those); for these only safety and the error report are stated.
- `lftpd_string_trim`, whose first loop advances both the pointer and the index and so is not a leading trim.
- Bluetooth, USB, I2S and IPC transport, FTP commands and sockets, the coroutines of the manager, LEDs, codecs, regulators, the charger's conversions, power and shell: tables, plumbing or one-branch code.
